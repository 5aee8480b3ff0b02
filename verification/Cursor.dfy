/** Parts of a sequence at a position, for parsers that walk over it. */
module Cursor {
  /** `part` stands in `data` at `pos`. */
  ghost predicate At<T>(data: seq<T>, pos: nat, part: seq<T>) {
    pos + |part| <= |data| && data[pos..pos + |part|] == part
  }

  lemma AtSplit<T>(data: seq<T>, pos: nat, a: seq<T>, b: seq<T>)
    requires At(data, pos, a + b)
    ensures At(data, pos, a) && At(data, pos + |a|, b)
  {
    var both := data[pos..pos + |a + b|];
    assert both[..|a|] == a && both[|a|..] == b;
  }
}
