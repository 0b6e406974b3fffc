/** The framebuffer as the renderer drives it: a fixed size, an active draw
    colour, and the sequence of point requests it has received. What `point`
    does with a request (bounds check, depth test, storing the pixel) lives
    in framebuffer.rs, which is not part of this model. */
module Framebuffers {

  /** One `point(x, y, depth)` request together with the active colour. */
  datatype Write = Write(x: nat, y: nat, color: bv32, depth: real)

  class Framebuffer {
    const width: nat
    const height: nat
    var currentColor: bv32
    var writes: seq<Write>

    /** set_current_color: the colour the next point requests carry. */
    method SetCurrentColor(color: bv32)
      modifies this`currentColor
      ensures currentColor == color
    {
      currentColor := color;
    }

    /** point: one request at (x, y) with the given depth and the active colour. */
    method Point(x: nat, y: nat, depth: real)
      modifies this`writes
      ensures writes == old(writes) + [Write(x, y, currentColor, depth)]
    {
      writes := writes + [Write(x, y, currentColor, depth)];
    }
  }

  /** The active colour after a run of requests: that of the last one, or
      the previous colour when there was none. */
  function LastColor(ws: seq<Write>, before: bv32): bv32 {
    if ws == [] then before else ws[|ws| - 1].color
  }

  /** The colour after two runs is that after the second, starting from the
      colour the first left. */
  lemma LastColorAppend(a: seq<Write>, b: seq<Write>, before: bv32)
    ensures LastColor(a + b, before) == LastColor(b, LastColor(a, before))
  {
    if b != [] {
      assert (a + b)[|a + b| - 1] == b[|b| - 1];
    } else {
      assert a + b == a;
    }
  }
}
