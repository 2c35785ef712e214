/**
 * A sequence read from another at strictly increasing positions: what the
 * Kotlin `filter`, `filterIsInstance` and an appending `forEach` produce.
 * Order is kept, and an entry that occurs twice is kept twice.
 */
module Subsequences {

  /** Positions that are in `0..n-1` and strictly increasing. */
  ghost predicate Positions(idx: seq<int>, n: int) {
    && (forall k :: 0 <= k < |idx| ==> 0 <= idx[k] < n)
    && (forall k, l :: 0 <= k < l < |idx| ==> idx[k] < idx[l])
  }

  /** `kept` is `rs` read at the positions `idx`. */
  ghost predicate Embeds<T>(kept: seq<T>, rs: seq<T>, idx: seq<int>) {
    && |idx| == |kept|
    && Positions(idx, |rs|)
    && (forall k :: 0 <= k < |idx| ==> kept[k] == rs[idx[k]])
  }

  /** `a` is `b` with some entries deleted, the rest in their original order. */
  ghost predicate SubsequenceOf<T>(a: seq<T>, b: seq<T>) {
    exists idx :: Embeds(a, b, idx)
  }

  /** Every position moved one to the right. */
  function Shift(idx: seq<int>): (s: seq<int>)
    ensures |s| == |idx|
    ensures forall k :: 0 <= k < |idx| ==> s[k] == idx[k] + 1
  {
    seq(|idx|, k requires 0 <= k < |idx| => idx[k] + 1)
  }

  /** Positions `inner` into a sequence that sits at positions `outer` of another, as positions of that other. */
  function Compose(outer: seq<int>, inner: seq<int>): (c: seq<int>)
    requires forall k :: 0 <= k < |inner| ==> 0 <= inner[k] < |outer|
    ensures |c| == |inner|
    ensures forall k :: 0 <= k < |inner| ==> c[k] == outer[inner[k]]
  {
    seq(|inner|, k requires 0 <= k < |inner| => outer[inner[k]])
  }

  /** Shifting increasing positions in 0..n-1 gives increasing positions in 1..n, with or without 0 in front. */
  lemma ShiftIndices(idx: seq<int>, n: nat)
    requires forall k :: 0 <= k < |idx| ==> 0 <= idx[k] < n
    requires forall k, l :: 0 <= k < l < |idx| ==> idx[k] < idx[l]
    ensures Positions(Shift(idx), n + 1) && Positions([0] + Shift(idx), n + 1)
    ensures forall i :: i in Shift(idx) <==> i >= 1 && i - 1 in idx
    ensures forall i :: i in [0] + Shift(idx) <==> i == 0 || (i >= 1 && i - 1 in idx)
  {
    var sh := Shift(idx);
    ShiftMembers(idx);
    assert forall k, l :: 0 <= k < l < |sh| ==> sh[k] < sh[l] by {
      forall k, l | 0 <= k < l < |sh| ensures sh[k] < sh[l] {
        assert idx[k] < idx[l];
      }
    }
    ShiftFront(sh, n + 1);
  }

  /** The shifted positions are exactly the successors of the original ones. */
  lemma ShiftMembers(idx: seq<int>)
    requires forall k :: 0 <= k < |idx| ==> 0 <= idx[k]
    ensures forall i :: i in Shift(idx) <==> i >= 1 && i - 1 in idx
    ensures forall i :: i in [0] + Shift(idx) <==> i == 0 || i in Shift(idx)
  {
    var sh := Shift(idx);
    forall i | i in sh ensures i >= 1 && i - 1 in idx {
      var k :| 0 <= k < |sh| && sh[k] == i;
      assert idx[k] == i - 1;
    }
    forall i | i >= 1 && i - 1 in idx ensures i in sh {
      var k :| 0 <= k < |idx| && idx[k] == i - 1;
      assert sh[k] == i;
    }
  }

  /** Putting 0 in front of increasing positions that are all at least 1 keeps them increasing. */
  lemma ShiftFront(sh: seq<int>, n: int)
    requires n >= 1
    requires forall k :: 0 <= k < |sh| ==> 1 <= sh[k] < n
    requires forall k, l :: 0 <= k < l < |sh| ==> sh[k] < sh[l]
    ensures Positions([0] + sh, n)
  {
    var z := [0] + sh;
    forall k, l | 0 <= k < l < |z| ensures z[k] < z[l] {
      assert z[l] == sh[l - 1];
      if k > 0 {
        assert z[k] == sh[k - 1];
      }
    }
    forall k | 0 <= k < |z| ensures 0 <= z[k] < n {
      if k > 0 {
        assert z[k] == sh[k - 1];
      }
    }
  }

  /** What the tail is read from, the whole sequence is read from one position further on, with or without its head. */
  lemma EmbedsCons<T>(kept: seq<T>, rs: seq<T>, idx: seq<int>)
    requires rs != [] && Embeds(kept, rs[1..], idx)
    ensures Embeds(kept, rs, Shift(idx))
    ensures Embeds([rs[0]] + kept, rs, [0] + Shift(idx))
  {
    var sh := Shift(idx);
    ShiftIndices(idx, |rs| - 1);
    forall k | 0 <= k < |idx|
      ensures kept[k] == rs[sh[k]]
    {
      assert kept[k] == rs[1..][idx[k]];
    }
    var kept2, idx2 := [rs[0]] + kept, [0] + sh;
    forall k | 0 <= k < |idx2|
      ensures kept2[k] == rs[idx2[k]]
    {
      if k > 0 {
        assert kept2[k] == kept[k - 1] && idx2[k] == sh[k - 1];
      }
    }
  }

  lemma SubsequenceCons<T>(kept: seq<T>, rs: seq<T>)
    requires rs != [] && SubsequenceOf(kept, rs[1..])
    ensures SubsequenceOf(kept, rs) && SubsequenceOf([rs[0]] + kept, rs)
  {
    var idx :| Embeds(kept, rs[1..], idx);
    EmbedsCons(kept, rs, idx);
  }

  /** Reading at `i` what was read at `j` is reading at the composed positions. */
  lemma EmbedsTrans<T>(a: seq<T>, b: seq<T>, c: seq<T>, i: seq<int>, j: seq<int>)
    requires Embeds(a, b, i) && Embeds(b, c, j)
    ensures Embeds(a, c, Compose(j, i))
  {
    var ji := Compose(j, i);
    forall k, l | 0 <= k < l < |ji| ensures ji[k] < ji[l] {
      assert i[k] < i[l];
    }
  }

  /** A subsequence of a subsequence of `c` is a subsequence of `c`. */
  lemma SubsequenceTrans<T>(a: seq<T>, b: seq<T>, c: seq<T>)
    requires SubsequenceOf(a, b) && SubsequenceOf(b, c)
    ensures SubsequenceOf(a, c)
  {
    var i :| Embeds(a, b, i);
    var j :| Embeds(b, c, j);
    EmbedsTrans(a, b, c, i, j);
  }
}
