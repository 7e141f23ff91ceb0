/**
  RenderInstancingQueue (NativeRenderQueue.cpp): instanced buffers are
  collected in a set keyed by identity, copied into `sortedBatches` in the
  set's iteration order, uploaded when they have pending models, and
  replayed batch by batch. The set is ordered by pointer value, which the
  model does not know: wherever the source walks the set, the model walks
  some enumeration of it.
 */
module InstancingQueue {
  import opened Wrappers
  import opened Scene
  import opened Gfx

  // ----- Enumerating a set -----

  predicate Distinct<T(==)>(s: seq<T>) {
    forall i, j :: 0 <= i < j < |s| ==> s[i] != s[j]
  }

  /** `order` lists every element of `s` exactly once, and nothing else. */
  predicate Enumerates<T(==)>(order: seq<T>, s: set<T>) {
    Distinct(order) && (forall x <- order :: x in s) && (forall x <- s :: x in order)
  }

  /** Walk `s` in some order: every element once. */
  method EnumerateSet<T(==)>(s: set<T>) returns (order: seq<T>)
    ensures Enumerates(order, s) && |order| == |s|
  {
    order := [];
    var rest := s;
    while rest != {}
      invariant rest <= s
      invariant forall x :: x in s <==> x in rest || x in order
      invariant forall x <- order :: x !in rest
      invariant Distinct(order)
      invariant |order| + |rest| == |s|
      decreases |rest|
    {
      var x :| x in rest;
      order := order + [x];
      rest := rest - {x};
    }
  }

  // ----- Uploading -----

  /** What uploading the buffers of `order` records: one upload per buffer with pending models. */
  function UploadTrace(order: seq<InstancedBuffer>): seq<Command>
    decreases |order|
  {
    if order == [] then []
    else
      var last := order[|order| - 1];
      UploadTrace(order[..|order| - 1]) + (if last.hasPendingModels then [Command.UploadInstances(last)] else [])
  }

  /**
    The upload trace holds only uploads; a buffer is uploaded exactly when it
    is listed and has pending models; and no buffer of a distinct listing is
    uploaded twice.
   */
  lemma {:induction false} UploadTraceExact(order: seq<InstancedBuffer>)
    ensures forall c <- UploadTrace(order) :: c.UploadInstances?
    ensures forall b: InstancedBuffer :: Command.UploadInstances(b) in UploadTrace(order) <==> b in order && b.hasPendingModels
    ensures Distinct(order) ==> Distinct(UploadTrace(order))
    decreases |order|
  {
    if order != [] {
      var init, last := order[..|order| - 1], order[|order| - 1];
      UploadTraceExact(init);
      assert order == init + [last];
      if Distinct(order) {
        assert Distinct(init);
        assert last !in init;
      }
    }
  }

  // ----- Replaying -----

  /** The arguments of a replay: render pass, optional global set with its offset, optional dynamic offsets, and the PSO cache. */
  datatype Context = Context(
    renderPass: nat,
    globalSet: Option<nat>,
    offset: nat,
    dynamicOffsets: Option<seq<nat>>,
    cache: PsoKey -> nat)

  /** The pipeline state of an item of buffer `b` (the cache is looked up with subpass 0). */
  function ItemPso(b: InstancedBuffer, item: InstancedItem, ctx: Context): nat {
    ctx.cache(PsoKey(b.pass, item.shader, item.ia, ctx.renderPass, 0))
  }

  /** The local set's dynamic offsets: the caller's when given, else the buffer's own. */
  function LocalOffsets(b: InstancedBuffer, ctx: Context): seq<nat> {
    ctx.dynamicOffsets.GetOr(b.dynamicOffsets)
  }

  /** The item's PSO bind, left out when it is the PSO last bound in this buffer. */
  function PsoPart(b: InstancedBuffer, item: InstancedItem, lastPso: Option<nat>, ctx: Context): seq<Command> {
    if lastPso == Some(ItemPso(b, item, ctx)) then [] else [Command.BindPipelineState(ItemPso(b, item, ctx))]
  }

  /** The global-set bind, present when the caller gives a global set. */
  function GlobalPart(ctx: Context): seq<Command> {
    if ctx.globalSet.Some? then [Command.BindDescriptorSet(GlobalSet, Binding(ctx.globalSet.value, [ctx.offset]))] else []
  }

  /** The local-set bind, the input-assembler bind and the draw. */
  function DrawPart(b: InstancedBuffer, item: InstancedItem, ctx: Context): seq<Command> {
    [Command.BindDescriptorSet(LocalSet, Binding(item.descriptorSet, LocalOffsets(b, ctx))),
     Command.BindInputAssembler(item.ia),
     Command.Draw(item.ia)]
  }

  /** The commands of one item with a non-zero count, given the PSO last bound in this buffer. */
  function ItemCommands(b: InstancedBuffer, item: InstancedItem, lastPso: Option<nat>, ctx: Context): seq<Command> {
    PsoPart(b, item, lastPso, ctx) + GlobalPart(ctx) + DrawPart(b, item, ctx)
  }

  /** The items that are drawn: those with a non-zero count, in order. */
  function Active(items: seq<InstancedItem>): (r: seq<InstancedItem>)
    decreases |items|
  {
    if items == [] then []
    else Active(items[..|items| - 1]) + (if items[|items| - 1].count == 0 then [] else [items[|items| - 1]])
  }

  /** The PSO `lastPSO` holds after the items: that of the last item with a non-zero count. */
  function LastPso(b: InstancedBuffer, items: seq<InstancedItem>, ctx: Context): Option<nat>
    decreases |items|
  {
    if items == [] then None
    else if items[|items| - 1].count == 0 then LastPso(b, items[..|items| - 1], ctx)
    else Some(ItemPso(b, items[|items| - 1], ctx))
  }

  /** The commands of the items of buffer `b`, with `lastPSO` starting empty. */
  function ItemsTrace(b: InstancedBuffer, items: seq<InstancedItem>, ctx: Context): seq<Command>
    decreases |items|
  {
    if items == [] then []
    else
      var init, last := items[..|items| - 1], items[|items| - 1];
      ItemsTrace(b, init, ctx) + (if last.count == 0 then [] else ItemCommands(b, last, LastPso(b, init, ctx), ctx))
  }

  /** The commands of one buffer: nothing unless it has pending models, else its material set and its items. */
  function BatchTrace(b: InstancedBuffer, ctx: Context): seq<Command> {
    if !b.hasPendingModels then []
    else [Command.BindDescriptorSet(MaterialSet, Binding(b.pass.descriptorSet, []))] + ItemsTrace(b, b.instances, ctx)
  }

  /** The commands of the buffers of `bs`, one after the other. */
  function QueueTrace(bs: seq<InstancedBuffer>, ctx: Context): seq<Command>
    decreases |bs|
  {
    if bs == [] then []
    else QueueTrace(bs[..|bs| - 1], ctx) + BatchTrace(bs[|bs| - 1], ctx)
  }

  // ----- What a replay means -----

  /** A drawn item together with the buffer it belongs to. */
  datatype DrawnItem = DrawnItem(buffer: InstancedBuffer, item: InstancedItem)

  /** The items drawn for `bs`: the non-zero items of each buffer with pending models, in order. */
  function DrawnItems(bs: seq<InstancedBuffer>): seq<DrawnItem>
    decreases |bs|
  {
    if bs == [] then []
    else DrawnItems(bs[..|bs| - 1]) + BatchDrawn(bs[|bs| - 1])
  }

  /** The items drawn for one buffer: its non-zero items when it has pending models, else none. */
  function BatchDrawn(b: InstancedBuffer): seq<DrawnItem> {
    var xs := if b.hasPendingModels then Active(b.instances) else [];
    seq(|xs|, k requires 0 <= k < |xs| => DrawnItem(b, xs[k]))
  }

  /** The global set a draw sees: the caller's when given, else whatever was bound before the replay. */
  function GlobalAt(ctx: Context, global: Option<Binding>): Option<Binding> {
    if ctx.globalSet.Some? then Some(Binding(ctx.globalSet.value, [ctx.offset])) else global
  }

  /**
    The state a draw of `item` of buffer `b` must see: the item's PSO, the
    global set, the buffer's pass's material set, the item's local set with
    the chosen offsets, and the item's input assembler.
   */
  function ItemState(b: InstancedBuffer, item: InstancedItem, ctx: Context, global: Option<Binding>): GpuState {
    GpuState(
      Some(ItemPso(b, item, ctx)),
      GlobalAt(ctx, global),
      Some(Binding(b.pass.descriptorSet, [])),
      Some(Binding(item.descriptorSet, LocalOffsets(b, ctx))),
      Some(item.ia))
  }

  /** A single command that is not a draw changes the state and issues nothing. */
  lemma StepSingle(c: Command, s: GpuState)
    ensures Run([c], s) == Apply(s, c)
    ensures Draws([c], s) == if IsDraw(c) then [DrawEvent(s, c)] else []
  {
    assert [c][1..] == [];
  }

  /** The PSO part binds the item's PSO unless it is the last one bound, and draws nothing. */
  lemma PsoPartRun(b: InstancedBuffer, item: InstancedItem, lastPso: Option<nat>, ctx: Context, t: GpuState)
    ensures Draws(PsoPart(b, item, lastPso, ctx), t) == []
    ensures Run(PsoPart(b, item, lastPso, ctx), t) ==
            if lastPso == Some(ItemPso(b, item, ctx)) then t else t.(pso := Some(ItemPso(b, item, ctx)))
  {
    if lastPso != Some(ItemPso(b, item, ctx)) {
      StepSingle(Command.BindPipelineState(ItemPso(b, item, ctx)), t);
    }
  }

  /** The global part binds the caller's global set when there is one, and draws nothing. */
  lemma GlobalPartRun(ctx: Context, t: GpuState)
    ensures Draws(GlobalPart(ctx), t) == []
    ensures Run(GlobalPart(ctx), t) == t.(global := GlobalAt(ctx, t.global))
  {
    if ctx.globalSet.Some? {
      StepSingle(Command.BindDescriptorSet(GlobalSet, Binding(ctx.globalSet.value, [ctx.offset])), t);
    }
  }

  /** The last part binds the local set and the input assembler, then draws. */
  lemma DrawPartRun(b: InstancedBuffer, item: InstancedItem, ctx: Context, t: GpuState)
    ensures Draws(DrawPart(b, item, ctx), t) ==
            [DrawEvent(t.(local := Some(Binding(item.descriptorSet, LocalOffsets(b, ctx))), ia := Some(item.ia)), Command.Draw(item.ia))]
    ensures Run(DrawPart(b, item, ctx), t) ==
            t.(local := Some(Binding(item.descriptorSet, LocalOffsets(b, ctx))), ia := Some(item.ia))
  {
    var cs := DrawPart(b, item, ctx);
    var t1 := Apply(t, cs[0]);
    var t2 := Apply(t1, cs[1]);
    var c2, c1 := cs[2..], cs[1..];
    assert c2[1..] == [] && c1[1..] == c2 && cs[1..] == c1 && c1[0] == cs[1] && c2[0] == cs[2];
    assert Draws(c2, t2) == [DrawEvent(t2, cs[2])] && Run(c2, t2) == t2;
    assert Draws(c1, t1) == Draws(c2, t2) && Run(c1, t1) == t2;
  }

  /**
    Replaying one item's commands issues exactly its draw, in the state that
    belongs to it, provided that when no PSO is bound by it the one already
    bound is its own.
   */
  lemma ItemDraws(b: InstancedBuffer, item: InstancedItem, lastPso: Option<nat>, ctx: Context, t: GpuState)
    requires lastPso == Some(ItemPso(b, item, ctx)) ==> t.pso == lastPso
    ensures Draws(ItemCommands(b, item, lastPso, ctx), t) ==
            [DrawEvent(ItemState(b, item, ctx, t.global).(material := t.material), Command.Draw(item.ia))]
    ensures Run(ItemCommands(b, item, lastPso, ctx), t) ==
            ItemState(b, item, ctx, t.global).(material := t.material)
  {
    var p := PsoPart(b, item, lastPso, ctx);
    var g := GlobalPart(ctx);
    var dp := DrawPart(b, item, ctx);
    PsoPartRun(b, item, lastPso, ctx, t);
    var t1 := Run(p, t);
    GlobalPartRun(ctx, t1);
    var t2 := Run(g, t1);
    DrawPartRun(b, item, ctx, t2);
    RunAppend(p, g, t);
    RunAppend(p + g, dp, t);
  }

  /**
    Replaying the items of buffer `b` over a state whose material set is the
    buffer's issues one draw per non-zero item, in order, each in its own
    state; afterwards the PSO bound is `lastPSO`'s, the material set is
    unchanged, and the global set a later draw sees is unchanged.
   */
  lemma {:induction false} ItemsMeaning(b: InstancedBuffer, items: seq<InstancedItem>, ctx: Context, t: GpuState)
    requires t.material == Some(Binding(b.pass.descriptorSet, []))
    ensures |Draws(ItemsTrace(b, items, ctx), t)| == |Active(items)|
    ensures forall k :: 0 <= k < |Active(items)| ==>
              Draws(ItemsTrace(b, items, ctx), t)[k] ==
              DrawEvent(ItemState(b, Active(items)[k], ctx, t.global), Command.Draw(Active(items)[k].ia))
    ensures LastPso(b, items, ctx).Some? ==> Run(ItemsTrace(b, items, ctx), t).pso == LastPso(b, items, ctx)
    ensures Run(ItemsTrace(b, items, ctx), t).material == t.material
    ensures GlobalAt(ctx, Run(ItemsTrace(b, items, ctx), t).global) == GlobalAt(ctx, t.global)
    decreases |items|
  {
    if items != [] {
      var init, last := items[..|items| - 1], items[|items| - 1];
      var pre := ItemsTrace(b, init, ctx);
      ItemsMeaning(b, init, ctx, t);
      var t1 := Run(pre, t);
      if last.count != 0 {
        ItemDraws(b, last, LastPso(b, init, ctx), ctx, t1);
        RunAppend(pre, ItemCommands(b, last, LastPso(b, init, ctx), ctx), t);
        assert Active(items) == Active(init) + [last];
      } else {
        assert pre + [] == pre;
        assert ItemsTrace(b, items, ctx) == pre;
        assert Active(init) + [] == Active(init);
        assert Active(items) == Active(init);
      }
    }
  }

  /** `ds` holds one draw per item of `ns`, in order, each in the state that belongs to its item. */
  predicate DrawsItems(ds: seq<DrawEvent>, ns: seq<DrawnItem>, ctx: Context, global: Option<Binding>) {
    |ds| == |ns| &&
    forall k :: 0 <= k < |ns| ==>
      ds[k] == DrawEvent(ItemState(ns[k].buffer, ns[k].item, ctx, global), Command.Draw(ns[k].item.ia))
  }

  lemma DrawsItemsAppend(ds1: seq<DrawEvent>, ds2: seq<DrawEvent>, ns1: seq<DrawnItem>, ns2: seq<DrawnItem>,
                         ctx: Context, global: Option<Binding>)
    requires DrawsItems(ds1, ns1, ctx, global) && DrawsItems(ds2, ns2, ctx, global)
    ensures DrawsItems(ds1 + ds2, ns1 + ns2, ctx, global)
  {
    var ds, ns := ds1 + ds2, ns1 + ns2;
    forall k | 0 <= k < |ns|
      ensures ds[k] == DrawEvent(ItemState(ns[k].buffer, ns[k].item, ctx, global), Command.Draw(ns[k].item.ia))
    {
      if k >= |ns1| {
        assert ds[k] == ds2[k - |ns1|] && ns[k] == ns2[k - |ns1|];
      }
    }
  }

  /** Replaying one buffer issues one draw per item it draws, each in that item's state. */
  lemma BatchMeaning(b: InstancedBuffer, ctx: Context, t: GpuState)
    ensures DrawsItems(Draws(BatchTrace(b, ctx), t), BatchDrawn(b), ctx, t.global)
    ensures GlobalAt(ctx, Run(BatchTrace(b, ctx), t).global) == GlobalAt(ctx, t.global)
  {
    if b.hasPendingModels {
      var m := Command.BindDescriptorSet(MaterialSet, Binding(b.pass.descriptorSet, []));
      StepSingle(m, t);
      var t2 := Apply(t, m);
      ItemsMeaning(b, b.instances, ctx, t2);
      RunAppend([m], ItemsTrace(b, b.instances, ctx), t);
    }
  }

  /**
    Replaying the queue issues one draw per non-zero item of every buffer
    with pending models, in queue order, each with that item's PSO, the
    global set, its buffer's material set, its local set and offsets, and
    its input assembler bound.
   */
  lemma {:induction false} QueueMeaning(bs: seq<InstancedBuffer>, ctx: Context, st: GpuState)
    ensures DrawsItems(Draws(QueueTrace(bs, ctx), st), DrawnItems(bs), ctx, st.global)
    ensures GlobalAt(ctx, Run(QueueTrace(bs, ctx), st).global) == GlobalAt(ctx, st.global)
    decreases |bs|
  {
    if bs != [] {
      var init, last := bs[..|bs| - 1], bs[|bs| - 1];
      var pre := QueueTrace(init, ctx);
      QueueMeaning(init, ctx, st);
      var t1 := Run(pre, st);
      RunAppend(pre, BatchTrace(last, ctx), st);
      BatchMeaning(last, ctx, t1);
      DrawsItemsAppend(Draws(pre, st), Draws(BatchTrace(last, ctx), t1), DrawnItems(init), BatchDrawn(last), ctx, st.global);
    }
  }

  // ----- Pipeline-state rebinding -----

  /** The PSOs of the items, in order. */
  function Psos(b: InstancedBuffer, items: seq<InstancedItem>, ctx: Context): (r: seq<nat>)
    ensures |r| == |items|
    ensures items != [] ==> r[|r| - 1] == ItemPso(b, items[|items| - 1], ctx)
    decreases |items|
  {
    if items == [] then []
    else Psos(b, items[..|items| - 1], ctx) + [ItemPso(b, items[|items| - 1], ctx)]
  }

  lemma PsosSnoc(b: InstancedBuffer, items: seq<InstancedItem>, x: InstancedItem, ctx: Context)
    ensures Psos(b, items + [x], ctx) == Psos(b, items, ctx) + [ItemPso(b, x, ctx)]
  {
    assert (items + [x])[..|items|] == items;
  }

  lemma CollapseSnoc(s: seq<nat>, x: nat)
    ensures Collapse(s + [x]) == if s != [] && s[|s| - 1] == x then Collapse(s) else Collapse(s) + [x]
  {
    assert (s + [x])[..|s|] == s;
  }

  /** `s` with every run of equal neighbours collapsed to one element. */
  function Collapse(s: seq<nat>): (r: seq<nat>)
    ensures |r| <= |s|
    ensures s == [] <==> r == []
    ensures s != [] ==> r[|r| - 1] == s[|s| - 1]
    decreases |s|
  {
    if s == [] then []
    else
      var c := Collapse(s[..|s| - 1]);
      if c != [] && c[|c| - 1] == s[|s| - 1] then c else c + [s[|s| - 1]]
  }

  /** No two neighbours of a collapsed sequence are equal. */
  lemma {:induction false} CollapseNoRepeats(s: seq<nat>)
    ensures forall i :: 0 < i < |Collapse(s)| ==> Collapse(s)[i] != Collapse(s)[i - 1]
    decreases |s|
  {
    if s != [] {
      CollapseNoRepeats(s[..|s| - 1]);
    }
  }

  /** Collapsing keeps exactly the values that occur. */
  lemma {:induction false} CollapseSameValues(s: seq<nat>)
    ensures forall x :: x in Collapse(s) <==> x in s
    decreases |s|
  {
    if s != [] {
      var init := s[..|s| - 1];
      CollapseSameValues(init);
      assert s == init + [s[|s| - 1]];
    }
  }

  /** The PSO last bound within the items is the last of the collapsed PSOs. */
  lemma {:induction false} LastPsoIsLastActive(b: InstancedBuffer, items: seq<InstancedItem>, ctx: Context)
    ensures LastPso(b, items, ctx) ==
            (if Active(items) == [] then None else Some(ItemPso(b, Active(items)[|Active(items)| - 1], ctx)))
    decreases |items|
  {
    if items != [] {
      LastPsoIsLastActive(b, items[..|items| - 1], ctx);
    }
  }

  /**
    Within one buffer the items bind exactly the collapsed sequence of their
    PSOs: a PSO is bound only when it differs from the one bound before it.
   */
  lemma {:induction false} ItemsPsoBinds(b: InstancedBuffer, items: seq<InstancedItem>, ctx: Context)
    ensures PsoBinds(ItemsTrace(b, items, ctx)) == Collapse(Psos(b, Active(items), ctx))
    decreases |items|
  {
    if items != [] {
      var init, last := items[..|items| - 1], items[|items| - 1];
      ItemsPsoBinds(b, init, ctx);
      if last.count != 0 {
        ItemsPsoBindsStep(b, items, ctx);
      } else {
        ZeroItemStep(b, items, ctx);
      }
    }
  }

  /** An item with count 0 adds no command and is not drawn. */
  lemma ZeroItemStep(b: InstancedBuffer, items: seq<InstancedItem>, ctx: Context)
    requires items != [] && items[|items| - 1].count == 0
    ensures ItemsTrace(b, items, ctx) == ItemsTrace(b, items[..|items| - 1], ctx)
    ensures Active(items) == Active(items[..|items| - 1])
  {
    var init := items[..|items| - 1];
    assert ItemsTrace(b, init, ctx) + [] == ItemsTrace(b, init, ctx);
    assert Active(init) + [] == Active(init);
  }

  /** A non-zero item appended to `init` extends the collapsed PSOs of `init` by its own PSO. */
  lemma ItemsPsoBindsStep(b: InstancedBuffer, items: seq<InstancedItem>, ctx: Context)
    requires items != [] && items[|items| - 1].count != 0
    requires PsoBinds(ItemsTrace(b, items[..|items| - 1], ctx)) == Collapse(Psos(b, Active(items[..|items| - 1]), ctx))
    ensures PsoBinds(ItemsTrace(b, items, ctx)) == Collapse(Psos(b, Active(items), ctx))
  {
    var init, last := items[..|items| - 1], items[|items| - 1];
    var lp := LastPso(b, init, ctx);
    LastPsoIsLastActive(b, init, ctx);
    var cs := ItemCommands(b, last, lp, ctx);
    assert ItemsTrace(b, items, ctx) == ItemsTrace(b, init, ctx) + cs;
    PsoBindsAppend(ItemsTrace(b, init, ctx), cs);
    ItemCommandsPsoBinds(b, last, lp, ctx);
    assert Active(items) == Active(init) + [last];
    PsosSnoc(b, Active(init), last, ctx);
    CollapseSnoc(Psos(b, Active(init), ctx), ItemPso(b, last, ctx));
  }

  /** One item binds its PSO exactly when it differs from the last one bound. */
  lemma ItemCommandsPsoBinds(b: InstancedBuffer, item: InstancedItem, lastPso: Option<nat>, ctx: Context)
    ensures PsoBinds(ItemCommands(b, item, lastPso, ctx)) ==
            if lastPso == Some(ItemPso(b, item, ctx)) then [] else [ItemPso(b, item, ctx)]
  {
    var p := PsoPart(b, item, lastPso, ctx);
    var g := GlobalPart(ctx);
    var rest := DrawPart(b, item, ctx);
    assert ItemCommands(b, item, lastPso, ctx) == p + (g + rest);
    PsoBindsAppend(p, g + rest);
    PsoBindsAppend(g, rest);
    assert rest[1..][1..][1..] == [];
    assert PsoBinds(rest[1..][1..]) == [];
    assert PsoBinds(rest[1..]) == [];
    assert PsoBinds(rest) == [];
    if g != [] {
      assert g[1..] == [];
    }
    if p != [] {
      assert p[1..] == [];
    }
  }

  /**
    Each buffer with pending models starts afresh, so its first drawn item
    always binds a PSO; its binds are the collapsed PSOs of its non-zero items.
   */
  lemma BatchPsoBinds(b: InstancedBuffer, ctx: Context)
    ensures PsoBinds(BatchTrace(b, ctx)) ==
            if b.hasPendingModels then Collapse(Psos(b, Active(b.instances), ctx)) else []
  {
    if b.hasPendingModels {
      var m := Command.BindDescriptorSet(MaterialSet, Binding(b.pass.descriptorSet, []));
      PsoBindsAppend([m], ItemsTrace(b, b.instances, ctx));
      assert [m][1..] == [];
      ItemsPsoBinds(b, b.instances, ctx);
    }
  }

  /** No item is drawn iff every item has count 0. */
  lemma {:induction false} ActiveEmpty(items: seq<InstancedItem>)
    ensures Active(items) == [] <==> forall it <- items :: it.count == 0
    decreases |items|
  {
    if items != [] {
      var init := items[..|items| - 1];
      ActiveEmpty(init);
      assert items == init + [items[|items| - 1]];
    }
  }

  /** Items with zero count record nothing. */
  lemma {:induction false} ZeroItemsTrace(b: InstancedBuffer, items: seq<InstancedItem>, ctx: Context)
    requires forall it <- items :: it.count == 0
    ensures ItemsTrace(b, items, ctx) == []
    decreases |items|
  {
    if items != [] {
      var init := items[..|items| - 1];
      assert forall it <- init :: it in items;
      ZeroItemsTrace(b, init, ctx);
    }
  }

  /** A buffer with pending models but only zero-count items records its material set and nothing else. */
  lemma ZeroCountBatch(b: InstancedBuffer, ctx: Context)
    requires b.hasPendingModels && forall it <- b.instances :: it.count == 0
    ensures BatchTrace(b, ctx) == [Command.BindDescriptorSet(MaterialSet, Binding(b.pass.descriptorSet, []))]
  {
    ZeroItemsTrace(b, b.instances, ctx);
  }

  // ----- The queue -----

  /** The instancing queue: a set of buffers and the sequence they are replayed from. */
  class RenderInstancingQueue {
    var batches: set<InstancedBuffer>
    var sortedBatches: seq<InstancedBuffer>

    constructor ()
      ensures batches == {} && sortedBatches == []
    {
      batches := {};
      sortedBatches := [];
    }

    /** Set insertion: a buffer already present leaves the set as it was. */
    method Add(instancedBuffer: InstancedBuffer)
      modifies this
      ensures batches == old(batches) + {instancedBuffer}
      ensures sortedBatches == old(sortedBatches)
    {
      batches := batches + {instancedBuffer};
    }

    /**
      Append every buffer of the set, in the set's order, to `sortedBatches`,
      which is not cleared first: a second call lists each buffer again.
     */
    method Sort()
      modifies this
      ensures batches == old(batches)
      ensures |sortedBatches| == |old(sortedBatches)| + |batches|
      ensures sortedBatches[..|old(sortedBatches)|] == old(sortedBatches)
      ensures Enumerates(sortedBatches[|old(sortedBatches)|..], batches)
    {
      var order := EnumerateSet(batches);
      sortedBatches := sortedBatches + order;
      assert sortedBatches[|old(sortedBatches)|..] == order;
    }

    /** Walk the set (not `sortedBatches`) and upload each buffer with pending models. */
    method UploadBuffers(cmdBuffer: CommandBuffer) returns (ghost order: seq<InstancedBuffer>)
      modifies cmdBuffer
      ensures Enumerates(order, batches)
      ensures cmdBuffer.commands == old(cmdBuffer.commands) + UploadTrace(order)
    {
      var walk := EnumerateSet(batches);
      order := walk;
      var i := 0;
      while i < |walk|
        invariant 0 <= i <= |walk|
        invariant cmdBuffer.commands == old(cmdBuffer.commands) + UploadTrace(walk[..i])
      {
        var b := walk[i];
        if b.hasPendingModels {
          cmdBuffer.UploadInstances(b);
        }
        assert walk[..i + 1][..i] == walk[..i];
        i := i + 1;
      }
      assert walk[..i] == walk;
    }

    /**
      Replay `sortedBatches`: for each buffer with pending models, bind its
      material set, then for each non-zero item bind its PSO if it differs
      from the last one bound in this buffer, the global set when one is
      given, the local set with the caller's or the buffer's offsets, the
      input assembler, and draw.
     */
    method RecordCommandBuffer(renderPass: nat, cmdBuffer: CommandBuffer, ds: Option<nat>, offset: nat,
                               dynamicOffsets: Option<seq<nat>>, cache: PsoKey -> nat)
      modifies cmdBuffer
      ensures cmdBuffer.commands ==
              old(cmdBuffer.commands) + QueueTrace(sortedBatches, Context(renderPass, ds, offset, dynamicOffsets, cache))
    {
      ghost var ctx := Context(renderPass, ds, offset, dynamicOffsets, cache);
      ghost var start := cmdBuffer.commands;
      var renderQueue := sortedBatches;
      var i := 0;
      while i < |renderQueue|
        invariant 0 <= i <= |renderQueue|
        invariant cmdBuffer.commands == start + QueueTrace(renderQueue[..i], ctx)
      {
        var b := renderQueue[i];
        QueueStep(renderQueue, i, ctx);
        if b.hasPendingModels {
          RecordBatch(b, renderPass, cmdBuffer, ds, offset, dynamicOffsets, cache);
          AppendAssoc(start, QueueTrace(renderQueue[..i], ctx), BatchTrace(b, ctx));
        } else {
          assert QueueTrace(renderQueue[..i], ctx) + BatchTrace(b, ctx) == QueueTrace(renderQueue[..i], ctx);
        }
        i := i + 1;
      }
      assert renderQueue[..i] == renderQueue;
    }
  }

  /** One more item extends the trace and `lastPSO` as the loop body does. */
  lemma ItemsStep(b: InstancedBuffer, items: seq<InstancedItem>, j: nat, ctx: Context)
    requires j < |items|
    ensures ItemsTrace(b, items[..j + 1], ctx) ==
            ItemsTrace(b, items[..j], ctx) + (if items[j].count == 0 then [] else ItemCommands(b, items[j], LastPso(b, items[..j], ctx), ctx))
    ensures LastPso(b, items[..j + 1], ctx) ==
            if items[j].count == 0 then LastPso(b, items[..j], ctx) else Some(ItemPso(b, items[j], ctx))
  {
    assert items[..j + 1][..j] == items[..j];
  }

  /** One more buffer extends the queue's trace by that buffer's commands. */
  lemma QueueStep(bs: seq<InstancedBuffer>, i: nat, ctx: Context)
    requires i < |bs|
    ensures QueueTrace(bs[..i + 1], ctx) == QueueTrace(bs[..i], ctx) + BatchTrace(bs[i], ctx)
  {
    assert bs[..i + 1][..i] == bs[..i];
  }

  /** The body of the replay loop for one buffer with pending models. */
  method RecordBatch(b: InstancedBuffer, renderPass: nat, cmdBuffer: CommandBuffer, ds: Option<nat>, offset: nat,
                     dynamicOffsets: Option<seq<nat>>, cache: PsoKey -> nat)
    requires b.hasPendingModels
    modifies cmdBuffer
    ensures cmdBuffer.commands ==
            old(cmdBuffer.commands) + BatchTrace(b, Context(renderPass, ds, offset, dynamicOffsets, cache))
  {
    ghost var ctx := Context(renderPass, ds, offset, dynamicOffsets, cache);
    ghost var m := Command.BindDescriptorSet(MaterialSet, Binding(b.pass.descriptorSet, []));
    ghost var items := ItemsTrace(b, b.instances, ctx);
    cmdBuffer.BindDescriptorSet(MaterialSet, b.pass.descriptorSet, []);
    RecordItems(b, renderPass, cmdBuffer, ds, offset, dynamicOffsets, cache);
    AppendAssoc(old(cmdBuffer.commands), [m], items);
  }

  /** The inner replay loop over the items of `b`, with `lastPSO` starting empty. */
  method RecordItems(b: InstancedBuffer, renderPass: nat, cmdBuffer: CommandBuffer, ds: Option<nat>, offset: nat,
                     dynamicOffsets: Option<seq<nat>>, cache: PsoKey -> nat)
    modifies cmdBuffer
    ensures cmdBuffer.commands ==
            old(cmdBuffer.commands) + ItemsTrace(b, b.instances, Context(renderPass, ds, offset, dynamicOffsets, cache))
  {
    ghost var ctx := Context(renderPass, ds, offset, dynamicOffsets, cache);
    ghost var start := cmdBuffer.commands;
    var lastPso: Option<nat> := None;
    var j := 0;
    while j < |b.instances|
      invariant 0 <= j <= |b.instances|
      invariant lastPso == LastPso(b, b.instances[..j], ctx)
      invariant cmdBuffer.commands == start + ItemsTrace(b, b.instances[..j], ctx)
    {
      var item := b.instances[j];
      ghost var before := cmdBuffer.commands;
      ItemsAdvance(start, before, b, b.instances, j, ctx);
      if item.count != 0 {
        lastPso := RecordItem(b, item, lastPso, renderPass, cmdBuffer, ds, offset, dynamicOffsets, cache);
      } else {
        assert before + [] == before;
      }
      j := j + 1;
    }
    assert b.instances[..j] == b.instances;
  }

  /** One more item of `items` appends its commands to a record of the items before it. */
  lemma ItemsAdvance(start: seq<Command>, before: seq<Command>, b: InstancedBuffer, items: seq<InstancedItem>, j: nat, ctx: Context)
    requires j < |items| && before == start + ItemsTrace(b, items[..j], ctx)
    ensures before + (if items[j].count == 0 then [] else ItemCommands(b, items[j], LastPso(b, items[..j], ctx), ctx)) ==
            start + ItemsTrace(b, items[..j + 1], ctx)
    ensures LastPso(b, items[..j + 1], ctx) ==
            if items[j].count == 0 then LastPso(b, items[..j], ctx) else Some(ItemPso(b, items[j], ctx))
  {
    ItemsStep(b, items, j, ctx);
    if items[j].count != 0 {
      AppendAssoc(start, ItemsTrace(b, items[..j], ctx), ItemCommands(b, items[j], LastPso(b, items[..j], ctx), ctx));
    }
  }

  /** The body of the inner replay loop for one item with a non-zero count; returns the new `lastPSO`. */
  method RecordItem(b: InstancedBuffer, item: InstancedItem, lastPso: Option<nat>, renderPass: nat,
                    cmdBuffer: CommandBuffer, ds: Option<nat>, offset: nat,
                    dynamicOffsets: Option<seq<nat>>, cache: PsoKey -> nat) returns (newLastPso: Option<nat>)
    modifies cmdBuffer
    ensures newLastPso == Some(ItemPso(b, item, Context(renderPass, ds, offset, dynamicOffsets, cache)))
    ensures cmdBuffer.commands ==
            old(cmdBuffer.commands) + ItemCommands(b, item, lastPso, Context(renderPass, ds, offset, dynamicOffsets, cache))
  {
    ghost var ctx := Context(renderPass, ds, offset, dynamicOffsets, cache);
    ghost var start := cmdBuffer.commands;
    var pso := cache(PsoKey(b.pass, item.shader, item.ia, renderPass, 0));
    newLastPso := lastPso;
    if lastPso != Some(pso) {
      cmdBuffer.BindPipelineState(pso);
      newLastPso := Some(pso);
    } else {
      assert start + [] == start;
    }
    ghost var afterPso := cmdBuffer.commands;
    assert afterPso == start + PsoPart(b, item, lastPso, ctx);
    if ds.Some? {
      cmdBuffer.BindDescriptorSet(GlobalSet, ds.value, [offset]);
    } else {
      assert afterPso + [] == afterPso;
    }
    ghost var afterGlobal := cmdBuffer.commands;
    assert afterGlobal == afterPso + GlobalPart(ctx);
    if dynamicOffsets.Some? {
      cmdBuffer.BindDescriptorSet(LocalSet, item.descriptorSet, dynamicOffsets.value);
    } else {
      cmdBuffer.BindDescriptorSet(LocalSet, item.descriptorSet, b.dynamicOffsets);
    }
    cmdBuffer.BindInputAssembler(item.ia);
    cmdBuffer.Draw(item.ia);
    DrawPartAppend(afterGlobal, b, item, ctx);
    AppendAssoc(start, PsoPart(b, item, lastPso, ctx), GlobalPart(ctx));
    AppendAssoc(start, PsoPart(b, item, lastPso, ctx) + GlobalPart(ctx), DrawPart(b, item, ctx));
  }


  /** Recording the last three commands of an item one by one appends its draw part. */
  lemma DrawPartAppend(prefix: seq<Command>, b: InstancedBuffer, item: InstancedItem, ctx: Context)
    ensures prefix + [Command.BindDescriptorSet(LocalSet, Binding(item.descriptorSet, LocalOffsets(b, ctx)))]
              + [Command.BindInputAssembler(item.ia)] + [Command.Draw(item.ia)] == prefix + DrawPart(b, item, ctx)
  {
  }

  /**
    A buffer added twice and another added once, then sorted: the
    replay sequence lists the two buffers once each.
   */
  method DedupExample(pass: Pass) returns (sorted: seq<InstancedBuffer>, p: InstancedBuffer, q: InstancedBuffer)
    ensures |sorted| == 2 && p in sorted && q in sorted && p != q
  {
    p := new InstancedBuffer(pass, [], true, []);
    q := new InstancedBuffer(pass, [], true, []);
    var queue := new RenderInstancingQueue();
    queue.Add(p);
    queue.Add(p);
    queue.Add(q);
    assert queue.batches == {p, q};
    queue.Sort();
    sorted := queue.sortedBatches;
    assert sorted == sorted[0..];
  }
}
