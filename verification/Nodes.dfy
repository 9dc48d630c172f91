/** The audio node of engine/node.h: the fields that the node list, the render plan and the
    instructions of the audio thread use. Frames are real numbers. */
module Nodes {
  /** Frames in a block (engine/common.h, outside macOS). */
  const BUF_SIZE := 256
  const MAX_INPUTS := 64

  /** The fixed array of a node's input slots. */
  type Connections = s: seq<Node?> | |s| == MAX_INPUTS witness seq(MAX_INPUTS, _ => null)

  class Node {
    /** Whether the node has a `frame_perform`, and whether it writes to a `bus`. */
    const performs: bool
    var hasBus: bool
    var writeToOutput: bool
    var trigEnd: bool
    var frameOffset: int
    var numInputs: nat
    var connections: Connections
    var buf: array?<real>
    var next: Node?
    var mixHead: Node?
    var mixNext: Node?

    constructor (performs: bool)
      ensures this.performs == performs && !hasBus && !writeToOutput && !trigEnd && frameOffset == 0 && numInputs == 0
      ensures connections == seq(MAX_INPUTS, _ => null) && buf == null && next == null && mixHead == null
              && mixNext == null
    {
      this.performs := performs;
      hasBus, writeToOutput, trigEnd, frameOffset, numInputs := false, false, false, 0, 0;
      connections := seq(MAX_INPUTS, _ => null);
      buf, next, mixHead, mixNext := null, null, null, null;
    }
  }
}
