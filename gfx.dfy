/**
  The graphics-side boundary of the render queues: the commands they record
  into a command buffer, the key the pipeline-state cache is looked up with,
  and a small interpreter that says which state is bound when each draw is
  issued. The interpreter gives the recorded traces their meaning: a replay
  is correct when every draw sees the pipeline state, descriptor sets and
  input assembler that belong to it.
 */
module Gfx {
  import opened Wrappers
  import opened Scene

  /** The descriptor-set slots the queues bind (pipeline::globalSet, materialSet, localSet). */
  datatype SetSlot = GlobalSet | MaterialSet | LocalSet

  /** A descriptor set together with the dynamic offsets it is bound with. */
  datatype Binding = Binding(descriptorSet: nat, offsets: seq<nat>)

  /** One recorded command. */
  datatype Command =
    | BindPipelineState(pso: nat)
    | BindDescriptorSet(slot: SetSlot, binding: Binding)
    | BindInputAssembler(ia: nat)
    | Draw(ia: nat)                                   // draw(inputAssembler)
    | DrawRange(firstVertex: nat, vertexCount: nat)   // draw(drawInfo)
    | UploadInstances(buffer: InstancedBuffer)        // InstancedBuffer::uploadBuffers

  /**
    The arguments of PipelineStateManager::getOrCreatePipelineState. The cache
    itself is a parameter `cache: PsoKey -> nat` of the recording methods: a
    deterministic function of these arguments.
   */
  datatype PsoKey = PsoKey(pass: Pass, shader: nat, ia: nat, renderPass: nat, subpass: nat)

  /** A command buffer in the recording state: the commands recorded so far, in order. */
  class CommandBuffer {
    var commands: seq<Command>

    constructor ()
      ensures commands == []
    {
      commands := [];
    }

    method BindPipelineState(pso: nat)
      modifies this
      ensures commands == old(commands) + [Command.BindPipelineState(pso)]
    {
      commands := commands + [Command.BindPipelineState(pso)];
    }

    method BindDescriptorSet(slot: SetSlot, descriptorSet: nat, offsets: seq<nat>)
      modifies this
      ensures commands == old(commands) + [Command.BindDescriptorSet(slot, Binding(descriptorSet, offsets))]
    {
      commands := commands + [Command.BindDescriptorSet(slot, Binding(descriptorSet, offsets))];
    }

    method BindInputAssembler(ia: nat)
      modifies this
      ensures commands == old(commands) + [Command.BindInputAssembler(ia)]
    {
      commands := commands + [Command.BindInputAssembler(ia)];
    }

    method Draw(ia: nat)
      modifies this
      ensures commands == old(commands) + [Command.Draw(ia)]
    {
      commands := commands + [Command.Draw(ia)];
    }

    method DrawRange(firstVertex: nat, vertexCount: nat)
      modifies this
      ensures commands == old(commands) + [Command.DrawRange(firstVertex, vertexCount)]
    {
      commands := commands + [Command.DrawRange(firstVertex, vertexCount)];
    }

    /** What `instanceBuffer->uploadBuffers(cmdBuffer)` records, as one abstract command. */
    method UploadInstances(buffer: InstancedBuffer)
      modifies this
      ensures commands == old(commands) + [Command.UploadInstances(buffer)]
    {
      commands := commands + [Command.UploadInstances(buffer)];
    }
  }

  /** What is bound on the command buffer: `None` where nothing has been bound yet. */
  datatype GpuState = GpuState(
    pso: Option<nat>,
    global: Option<Binding>,
    material: Option<Binding>,
    local: Option<Binding>,
    ia: Option<nat>)

  /** The effect of one command on the bound state. */
  function Apply(s: GpuState, c: Command): GpuState {
    match c
    case BindPipelineState(p) => s.(pso := Some(p))
    case BindDescriptorSet(slot, b) =>
      (match slot
       case GlobalSet => s.(global := Some(b))
       case MaterialSet => s.(material := Some(b))
       case LocalSet => s.(local := Some(b)))
    case BindInputAssembler(ia) => s.(ia := Some(ia))
    case _ => s
  }

  /** The state after replaying `trace` from `s`. */
  function Run(trace: seq<Command>, s: GpuState): GpuState
    decreases |trace|
  {
    if trace == [] then s else Run(trace[1..], Apply(s, trace[0]))
  }

  predicate IsDraw(c: Command) {
    c.Draw? || c.DrawRange?
  }

  /** A draw call together with the state bound when it was issued. */
  datatype DrawEvent = DrawEvent(state: GpuState, call: Command)

  /** The draws of `trace`, each with the state in force at that point, replayed from `s`. */
  function Draws(trace: seq<Command>, s: GpuState): seq<DrawEvent>
    decreases |trace|
  {
    if trace == [] then []
    else (if IsDraw(trace[0]) then [DrawEvent(s, trace[0])] else []) + Draws(trace[1..], Apply(s, trace[0]))
  }

  /** Replaying a concatenation is replaying its halves one after the other. */
  lemma {:induction false} RunAppend(a: seq<Command>, b: seq<Command>, s: GpuState)
    ensures Run(a + b, s) == Run(b, Run(a, s))
    ensures Draws(a + b, s) == Draws(a, s) + Draws(b, Run(a, s))
    decreases |a|
  {
    if a == [] {
      assert a + b == b;
    } else {
      assert (a + b)[0] == a[0];
      assert (a + b)[1..] == a[1..] + b;
      RunAppend(a[1..], b, Apply(s, a[0]));
    }
  }

  /** Appending to a recorded trace is associative. */
  lemma AppendAssoc(a: seq<Command>, b: seq<Command>, c: seq<Command>)
    ensures a + b + c == a + (b + c)
  {
  }

  /** The pipeline states bound by `trace`, in order. */
  function PsoBinds(trace: seq<Command>): seq<nat>
    decreases |trace|
  {
    if trace == [] then []
    else (if trace[0].BindPipelineState? then [trace[0].pso] else []) + PsoBinds(trace[1..])
  }

  lemma {:induction false} PsoBindsAppend(a: seq<Command>, b: seq<Command>)
    ensures PsoBinds(a + b) == PsoBinds(a) + PsoBinds(b)
    decreases |a|
  {
    if a == [] {
      assert a + b == b;
    } else {
      assert (a + b)[0] == a[0];
      assert (a + b)[1..] == a[1..] + b;
      PsoBindsAppend(a[1..], b);
    }
  }
}
