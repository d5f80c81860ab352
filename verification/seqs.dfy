/** Concatenating a sequence of equally long pieces, and finding an element of
    the result by (piece, position). */
module Seqs {

  /** Position of element x of piece p when every piece has length w. */
  function Offset(w: nat, p: nat, x: nat): nat
  {
    p * w + x
  }

  /** Every position below n*w is the offset of a (piece, position) pair with
      piece < n and position < w. */
  lemma OffsetOf(w: nat, n: nat, i: nat) returns (p: nat, x: nat)
    requires i < n * w
    ensures p < n && x < w && Offset(w, p, x) == i
  {
    p, x := i / w, i % w;
  }

  /** The pieces written one after another, first piece first. */
  function Flatten<T>(pieces: seq<seq<T>>): seq<T>
  {
    if |pieces| == 0 then [] else Flatten(pieces[..|pieces| - 1]) + pieces[|pieces| - 1]
  }

  /** Every piece has exactly w elements. */
  predicate AllOfLength<T>(pieces: seq<seq<T>>, w: nat)
  {
    forall p :: 0 <= p < |pieces| ==> |pieces[p]| == w
  }

  /** n pieces of w elements flatten to n*w elements. */
  lemma {:induction false} FlattenLength<T>(pieces: seq<seq<T>>, w: nat)
    requires AllOfLength(pieces, w)
    ensures |Flatten(pieces)| == |pieces| * w
    decreases |pieces|
  {
    if |pieces| > 0 {
      var n := |pieces| - 1;
      FlattenLength(pieces[..n], w);
      assert |Flatten(pieces)| == n * w + w;
    }
  }

  /** Element x of piece p sits at Offset(w, p, x) of the flattened sequence. */
  lemma {:induction false} FlattenIndex<T>(pieces: seq<seq<T>>, w: nat, p: nat, x: nat)
    requires AllOfLength(pieces, w) && p < |pieces| && x < w
    ensures Offset(w, p, x) < |Flatten(pieces)|
    ensures Flatten(pieces)[Offset(w, p, x)] == pieces[p][x]
    decreases |pieces|
  {
    var n := |pieces| - 1;
    FlattenLength(pieces[..n], w);
    if p < n {
      FlattenIndex(pieces[..n], w, p, x);
      assert Offset(w, p, x) < n * w by {
        assert p * w + x < (p + 1) * w <= n * w;
      }
    } else {
      assert Offset(w, p, x) == n * w + x;
    }
  }

  /** Both layout facts at once, for every (piece, position). */
  lemma FlattenLayout<T>(pieces: seq<seq<T>>, w: nat)
    requires AllOfLength(pieces, w)
    ensures |Flatten(pieces)| == |pieces| * w
    ensures forall p, x :: 0 <= p < |pieces| && 0 <= x < w ==>
      Offset(w, p, x) < |Flatten(pieces)| && Flatten(pieces)[Offset(w, p, x)] == pieces[p][x]
  {
    FlattenLength(pieces, w);
    forall p, x | 0 <= p < |pieces| && 0 <= x < w
      ensures Offset(w, p, x) < |Flatten(pieces)| && Flatten(pieces)[Offset(w, p, x)] == pieces[p][x]
    {
      FlattenIndex(pieces, w, p, x);
    }
  }
}
