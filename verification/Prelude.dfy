/** Types and small facts shared by the other modules. */
module Prelude {
  datatype Option<+T> = None | Some(value: T)

  /** bytes with chunk written over them at off. */
  function Splice(bytes: seq<nat>, off: nat, chunk: seq<nat>): (s: seq<nat>)
    requires off + |chunk| <= |bytes|
    ensures |s| == |bytes|
    ensures forall o :: 0 <= o < |bytes| ==> s[o] == if off <= o < off + |chunk| then chunk[o - off] else bytes[o]
  {
    bytes[..off] + chunk + bytes[off + |chunk|..]
  }

  lemma Assoc(a: string, b: string, c: string)
    ensures a + b + c == a + (b + c)
  {
  }

  lemma SubsetSize<T>(a: set<T>, b: set<T>)
    requires a <= b
    ensures |a| <= |b|
  {
    assert b == a + (b - a);
  }

  lemma UnionSize<T>(a: set<T>, b: set<T>)
    ensures |a + b| <= |a| + |b|
  {
    assert a + b == a + (b - a);
    SubsetSize(b - a, b);
  }
}
