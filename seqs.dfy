/**
 * `Array.prototype.filter`, as used both on the drive-listing lines and,
 * through `filterAsync`, on the library candidates. The result order is
 * the input order, whatever order the asynchronous checks complete in.
 */
module Seqs {
  import opened Wrappers

  function Filter<T>(keep: T -> bool, s: seq<T>): (r: seq<T>)
    ensures |r| <= |s|
    ensures forall k :: 0 <= k < |r| ==> keep(r[k])
  {
    if s == [] then []
    else if keep(s[0]) then [s[0]] + Filter(keep, s[1..])
    else Filter(keep, s[1..])
  }

  /**
   * The positions of `s` from `from` on whose element `keep` accepts, in
   * ascending order: a position is listed exactly when its element is
   * accepted.
   */
  function KeptIndices<T>(keep: T -> bool, s: seq<T>, from: nat): (idx: seq<nat>)
    requires from <= |s|
    ensures forall k :: 0 <= k < |idx| ==> from <= idx[k] < |s|
    ensures forall k, l :: 0 <= k < l < |idx| ==> idx[k] < idx[l]
    ensures forall i :: from <= i < |s| ==> (i in idx <==> keep(s[i]))
    decreases |s| - from
  {
    if from == |s| then []
    else (if keep(s[from]) then [from] else []) + KeptIndices(keep, s, from + 1)
  }

  /**
   * The filter keeps exactly the accepted elements, in their original
   * order: the k-th element of the result is the element of `s` at the
   * k-th accepted position.
   */
  lemma {:induction false} FilterKeepsAcceptedInOrder<T>(keep: T -> bool, s: seq<T>, from: nat)
    requires from <= |s|
    ensures var r, idx := Filter(keep, s[from..]), KeptIndices(keep, s, from);
      |r| == |idx| && forall k :: 0 <= k < |r| ==> r[k] == s[idx[k]]
    decreases |s| - from
  {
    if from < |s| {
      FilterKeepsAcceptedInOrder(keep, s, from + 1);
      FilterStep(keep, s, from);
      var rest, restIdx := Filter(keep, s[from + 1..]), KeptIndices(keep, s, from + 1);
      ConsPointwise(s, from, keep(s[from]), rest, restIdx);
    }
  }

  /** Prepending the same position to both sides keeps them in step. */
  lemma ConsPointwise<T>(s: seq<T>, from: nat, kept: bool, rest: seq<T>, restIdx: seq<nat>)
    requires from < |s|
    requires |rest| == |restIdx| && forall k :: 0 <= k < |rest| ==> restIdx[k] < |s| && rest[k] == s[restIdx[k]]
    ensures var r, idx := (if kept then [s[from]] else []) + rest, (if kept then [from] else []) + restIdx;
      |r| == |idx| && forall k :: 0 <= k < |r| ==> idx[k] < |s| && r[k] == s[idx[k]]
  {
    var r, idx := (if kept then [s[from]] else []) + rest, (if kept then [from] else []) + restIdx;
    if kept {
      forall k | 1 <= k < |r| ensures idx[k] < |s| && r[k] == s[idx[k]] {
        assert r[k] == rest[k - 1] && idx[k] == restIdx[k - 1];
      }
    }
  }

  lemma FilterStep<T>(keep: T -> bool, s: seq<T>, from: nat)
    requires from < |s|
    ensures Filter(keep, s[from..]) == (if keep(s[from]) then [s[from]] else []) + Filter(keep, s[from + 1..])
  {
    assert s[from..][0] == s[from] && s[from..][1..] == s[from + 1..];
  }

  /** Membership form of the same fact. */
  lemma FilterMembership<T>(keep: T -> bool, s: seq<T>, x: T)
    ensures x in Filter(keep, s) <==> x in s && keep(x)
  {
    FilterKeepsAcceptedInOrder(keep, s, 0);
    assert s[0..] == s;
    var r, idx := Filter(keep, s), KeptIndices(keep, s, 0);
    if x in r {
      var k :| 0 <= k < |r| && r[k] == x;
      assert s[idx[k]] == x;
    }
    if x in s && keep(x) {
      var i :| 0 <= i < |s| && s[i] == x;
      assert i in idx;
      var k :| 0 <= k < |idx| && idx[k] == i;
      assert r[k] == x;
    }
  }

  /**
   * The smallest position from `from` on whose element `accept` accepts,
   * if there is one.
   */
  function FirstIndex<T>(accept: T -> bool, s: seq<T>, from: nat): (found: Option<nat>)
    requires from <= |s|
    ensures found.Some? ==>
              && from <= found.value < |s|
              && accept(s[found.value])
              && forall j :: from <= j < found.value ==> !accept(s[j])
    ensures found.None? ==> forall j :: from <= j < |s| ==> !accept(s[j])
    decreases |s| - from
  {
    if from == |s| then None
    else if accept(s[from]) then Some(from)
    else FirstIndex(accept, s, from + 1)
  }
}
