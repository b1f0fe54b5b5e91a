/** Small shared vocabulary: optional values, results, and the two sequence
    queries the stores and hooks are built on (filter and first match). */
module Prelude {

  datatype Option<T> = None | Some(value: T) {
    function GetOr(default: T): T {
      match this
      case Some(v) => v
      case None => default
    }
  }

  datatype Result<T, E> = Ok(value: T) | Err(error: E)

  /** A document id: the database hands them out in increasing order. */
  type DocId = nat

  /** xs occurs in ys in order, possibly with gaps (greedy matching). */
  predicate IsSubsequence<T(==)>(xs: seq<T>, ys: seq<T>)
    decreases |ys|
  {
    if |xs| == 0 then true
    else if |ys| == 0 then false
    else if xs[0] == ys[0] then IsSubsequence(xs[1..], ys[1..])
    else IsSubsequence(xs, ys[1..])
  }

  /** The elements of xs that satisfy p, in their original order
      (Array.prototype.filter, or a database `collect` with an equality index). */
  function Filter<T(==)>(xs: seq<T>, p: T -> bool): (r: seq<T>)
    ensures |r| <= |xs|
    ensures forall i :: 0 <= i < |r| ==> r[i] in xs && p(r[i])
    ensures forall i :: 0 <= i < |xs| && p(xs[i]) ==> xs[i] in r
    ensures IsSubsequence(r, xs)
    ensures (forall i :: 0 <= i < |xs| ==> p(xs[i])) ==> r == xs
    ensures forall x | x in xs :: multiset(r)[x] == if p(x) then multiset(xs)[x] else 0
  {
    if |xs| == 0 then []
    else
      var rest := Filter(xs[1..], p);
      FilterStepMembers(xs, rest, p);
      FilterStepOrder(xs, rest, p);
      FilterStepCount(xs, rest, p);
      if p(xs[0]) then [xs[0]] + rest else rest
  }

  /** Filter's length and membership clauses for xs, from the same clauses
      for its tail. */
  lemma FilterStepMembers<T>(xs: seq<T>, rest: seq<T>, p: T -> bool)
    requires |xs| > 0
    requires |rest| <= |xs[1..]|
    requires forall i :: 0 <= i < |rest| ==> rest[i] in xs[1..] && p(rest[i])
    requires forall i :: 0 <= i < |xs[1..]| && p(xs[1..][i]) ==> xs[1..][i] in rest
    ensures var r := if p(xs[0]) then [xs[0]] + rest else rest;
            && |r| <= |xs|
            && (forall i :: 0 <= i < |r| ==> r[i] in xs && p(r[i]))
            && (forall i :: 0 <= i < |xs| && p(xs[i]) ==> xs[i] in r)
  {
    var tail := xs[1..];
    var r := if p(xs[0]) then [xs[0]] + rest else rest;
    forall i | 0 <= i < |r|
      ensures r[i] in xs && p(r[i])
    {
      if p(xs[0]) && i > 0 {
        assert r[i] == rest[i - 1];
      }
    }
    forall i | 0 <= i < |xs| && p(xs[i])
      ensures xs[i] in r
    {
      if i > 0 {
        assert xs[i] == tail[i - 1];
      }
    }
  }

  /** Filter's order clauses for xs, from the same clauses for its tail. */
  lemma FilterStepOrder<T>(xs: seq<T>, rest: seq<T>, p: T -> bool)
    requires |xs| > 0
    requires forall i :: 0 <= i < |rest| ==> rest[i] in xs[1..] && p(rest[i])
    requires IsSubsequence(rest, xs[1..])
    requires (forall i :: 0 <= i < |xs[1..]| ==> p(xs[1..][i])) ==> rest == xs[1..]
    ensures var r := if p(xs[0]) then [xs[0]] + rest else rest;
            && IsSubsequence(r, xs)
            && ((forall i :: 0 <= i < |xs| ==> p(xs[i])) ==> r == xs)
  {
    var tail := xs[1..];
    assert xs == [xs[0]] + tail;
    assert forall i :: 1 <= i < |xs| ==> xs[i] == tail[i - 1];
    if p(xs[0]) {
      assert ([xs[0]] + rest)[1..] == rest;
    } else {
      assert |rest| > 0 ==> rest[0] != xs[0];
    }
  }

  /** Filter's multiplicity clause for xs, from the same clause for its tail. */
  lemma FilterStepCount<T>(xs: seq<T>, rest: seq<T>, p: T -> bool)
    requires |xs| > 0
    requires forall i :: 0 <= i < |rest| ==> rest[i] in xs[1..]
    requires forall x | x in xs[1..] :: multiset(rest)[x] == if p(x) then multiset(xs[1..])[x] else 0
    ensures var r := if p(xs[0]) then [xs[0]] + rest else rest;
            forall x | x in xs :: multiset(r)[x] == if p(x) then multiset(xs)[x] else 0
  {
    var tail := xs[1..];
    var r := if p(xs[0]) then [xs[0]] + rest else rest;
    assert xs == [xs[0]] + tail;
    assert multiset(xs) == multiset([xs[0]]) + multiset(tail);
    assert multiset(r) == (if p(xs[0]) then multiset([xs[0]]) else multiset{}) + multiset(rest);
    forall x | x in xs
      ensures multiset(r)[x] == if p(x) then multiset(xs)[x] else 0
    {
      if x !in tail {
        assert x !in rest;
      }
    }
  }

  /** The position of the first element of xs that satisfies p
      (Array.prototype.find, or a database `first`). */
  function FirstIndex<T>(xs: seq<T>, p: T -> bool): (r: Option<nat>)
    ensures r.Some? ==> r.value < |xs| && p(xs[r.value])
    ensures r.Some? ==> forall j :: 0 <= j < r.value ==> !p(xs[j])
    ensures r.None? <==> forall j :: 0 <= j < |xs| ==> !p(xs[j])
  {
    if |xs| == 0 then None
    else if p(xs[0]) then Some(0)
    else
      match FirstIndex(xs[1..], p)
      case None => None
      case Some(k) => Some(k + 1)
  }

  /** The first element of xs that satisfies p, if any. */
  function FirstWhere<T>(xs: seq<T>, p: T -> bool): (r: Option<T>)
    ensures r.None? <==> forall j :: 0 <= j < |xs| ==> !p(xs[j])
    ensures r.Some? ==> exists k :: 0 <= k < |xs| && xs[k] == r.value && p(xs[k])
                                    && forall j :: 0 <= j < k ==> !p(xs[j])
  {
    match FirstIndex(xs, p)
    case None => None
    case Some(k) => Some(xs[k])
  }

  /** A first match is unaffected by anything appended after the matched prefix. */
  lemma {:induction false} FirstIndexAppend<T>(xs: seq<T>, ys: seq<T>, p: T -> bool)
    requires FirstIndex(xs, p).Some?
    ensures FirstIndex(xs + ys, p) == FirstIndex(xs, p)
  {
    if !p(xs[0]) {
      assert (xs + ys)[1..] == xs[1..] + ys;
      FirstIndexAppend(xs[1..], ys, p);
    }
  }
}
