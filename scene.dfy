/**
  The scene- and pipeline-side objects the render queues consume. They are
  external collaborators: only the members the queues read are modelled, and
  GPU resources (descriptor sets, input assemblers, shaders, buffers) are
  opaque handles.
 */
module Scene {

  /** A material pass: its identity, its render priority and its material descriptor set. */
  datatype Pass = Pass(id: nat, priority: nat, descriptorSet: nat)

  /**
    A sub-model: its priority, one pass and one shader handle per pass index,
    its input assembler and its local descriptor set.
   */
  datatype SubModel = SubModel(
    priority: nat,
    passes: seq<Pass>,
    shaders: seq<nat>,
    inputAssembler: nat,
    descriptorSet: nat)
  {
    /** Every pass index has a shader. */
    predicate WellFormed() {
      |shaders| == |passes|
    }
  }

  /** A model: its own priority and its sub-models. */
  datatype Model = Model(priority: nat, subModels: seq<SubModel>)

  /**
    One entry of an instanced buffer: how many instances it holds this frame,
    the shader and input assembler to draw them with, and its descriptor set.
   */
  datatype InstancedItem = InstancedItem(count: nat, shader: nat, ia: nat, descriptorSet: nat)

  /**
    An instanced buffer, shared by reference between the queues that use it
    (the queues hold pointers to it, so identity is object identity). The
    queues only read it; what it contains for the frame is fixed when it is
    created here.
   */
  class InstancedBuffer {
    const pass: Pass
    const instances: seq<InstancedItem>
    const hasPendingModels: bool
    const dynamicOffsets: seq<nat>

    constructor (pass: Pass, instances: seq<InstancedItem>, hasPendingModels: bool, dynamicOffsets: seq<nat>)
      ensures this.pass == pass && this.instances == instances
      ensures this.hasPendingModels == hasPendingModels && this.dynamicOffsets == dynamicOffsets
    {
      this.pass := pass;
      this.instances := instances;
      this.hasPendingModels := hasPendingModels;
      this.dynamicOffsets := dynamicOffsets;
    }
  }
}
