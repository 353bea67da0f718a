/**
 * The two array operations the board engine is built from:
 * `Array.prototype.filter` (Filter) and `Array.prototype.find` (Find),
 * with the lemmas that pin down what they select.
 */
module Sequences {
  import opened Wrappers

  /** The elements of `s` that satisfy `p`, in their original order. */
  function Filter<T>(s: seq<T>, p: T -> bool): (r: seq<T>)
    ensures |r| <= |s|
    ensures forall k :: 0 <= k < |r| ==> p(r[k])
  {
    if s == [] then []
    else if p(s[0]) then [s[0]] + Filter(s[1..], p)
    else Filter(s[1..], p)
  }

  /** An element belongs to the filtered sequence exactly when it belongs to `s` and satisfies `p`. */
  lemma {:induction false} FilterMembership<T>(s: seq<T>, p: T -> bool)
    ensures forall x :: x in Filter(s, p) <==> x in s && p(x)
  {
    if s != [] {
      FilterMembership(s[1..], p);
      assert forall x :: x in s ==> x == s[0] || x in s[1..];
    }
  }

  /** Positions listed in strictly increasing order. */
  predicate Increasing(idx: seq<nat>) {
    forall k, l :: 0 <= k < l < |idx| ==> idx[k] < idx[l]
  }

  /** Every position in `idx` moved one place to the right, after an optional leading 0. */
  function Shift(lead: bool, idx: seq<nat>): (r: seq<nat>)
    ensures |r| == |idx| + (if lead then 1 else 0)
  {
    var n := if lead then 1 else 0;
    seq(|idx| + n, k requires 0 <= k < |idx| + n => if k < n then 0 else idx[k - n] + 1)
  }

  lemma ShiftIncreasing(lead: bool, idx: seq<nat>)
    requires Increasing(idx)
    ensures Increasing(Shift(lead, idx))
  {
  }

  lemma ShiftMembership(lead: bool, idx: seq<nat>, i: nat)
    ensures 0 in Shift(lead, idx) <==> lead
    ensures i + 1 in Shift(lead, idx) <==> i in idx
  {
    var n := if lead then 1 else 0;
    var r := Shift(lead, idx);
    assert |r| == |idx| + n;
    assert forall k :: 0 <= k < |r| ==> r[k] == if k < n then 0 else idx[k - n] + 1;
    if lead {
      assert r[0] == 0;
    }
    if i in idx {
      var k :| 0 <= k < |idx| && idx[k] == i;
      assert r[k + n] == i + 1;
    }
    if i + 1 in r {
      var k :| 0 <= k < |r| && r[k] == i + 1;
      assert idx[k - n] == i;
    }
    if 0 in r {
      var k :| 0 <= k < |r| && r[k] == 0;
      assert k < n && lead;
    }
  }

  /** `idx` lists, in increasing order, exactly the positions of `s` whose element satisfies `p`, and `r` holds those elements. */
  ghost predicate Selects<T>(s: seq<T>, p: T -> bool, r: seq<T>, idx: seq<nat>) {
    && |idx| == |r|
    && (forall k :: 0 <= k < |idx| ==> idx[k] < |s| && r[k] == s[idx[k]])
    && Increasing(idx)
    && (forall i :: 0 <= i < |s| ==> (p(s[i]) <==> i in idx))
  }

  lemma SelectsStepElements<T>(s: seq<T>, p: T -> bool, rest: seq<nat>)
    requires s != [] && Selects(s[1..], p, Filter(s[1..], p), rest)
    ensures var idx := Shift(p(s[0]), rest);
      forall k :: 0 <= k < |idx| ==> idx[k] < |s| && Filter(s, p)[k] == s[idx[k]]
  {
    var idx := Shift(p(s[0]), rest);
    var tail := Filter(s[1..], p);
    if p(s[0]) {
      assert Filter(s, p) == [s[0]] + tail;
      forall k | 0 <= k < |idx|
        ensures idx[k] < |s| && Filter(s, p)[k] == s[idx[k]]
      {
        if k > 0 {
          assert tail[k - 1] == s[1..][rest[k - 1]];
        }
      }
    } else {
      assert Filter(s, p) == tail;
      forall k | 0 <= k < |idx|
        ensures idx[k] < |s| && Filter(s, p)[k] == s[idx[k]]
      {
        assert tail[k] == s[1..][rest[k]];
      }
    }
  }

  lemma SelectsStepMembership<T>(s: seq<T>, p: T -> bool, rest: seq<nat>)
    requires s != [] && Selects(s[1..], p, Filter(s[1..], p), rest)
    ensures var idx := Shift(p(s[0]), rest);
      forall i :: 0 <= i < |s| ==> (p(s[i]) <==> i in idx)
  {
    forall i | 0 <= i < |s|
      ensures p(s[i]) <==> i in Shift(p(s[0]), rest)
    {
      ShiftMembership(p(s[0]), rest, if i > 0 then i - 1 else 0);
      if i > 0 {
        assert s[i] == s[1..][i - 1];
      }
    }
  }

  /**
   * Filter keeps exactly the positions whose element satisfies `p`, in
   * increasing order: `idx` lists those positions.
   */
  lemma {:induction false} FilterSelects<T>(s: seq<T>, p: T -> bool) returns (idx: seq<nat>)
    ensures |idx| == |Filter(s, p)|
    ensures forall k :: 0 <= k < |idx| ==> idx[k] < |s| && Filter(s, p)[k] == s[idx[k]]
    ensures Increasing(idx)
    ensures forall i :: 0 <= i < |s| ==> (p(s[i]) <==> i in idx)
  {
    if s == [] {
      idx := [];
    } else {
      var rest := FilterSelects(s[1..], p);
      assert Selects(s[1..], p, Filter(s[1..], p), rest);
      idx := Shift(p(s[0]), rest);
      ShiftIncreasing(p(s[0]), rest);
      SelectsStepElements(s, p, rest);
      SelectsStepMembership(s, p, rest);
    }
  }

  /** Filtering by `p` and then by `q` is filtering once by their conjunction `r`. */
  lemma {:induction false} FilterFilter<T>(s: seq<T>, p: T -> bool, q: T -> bool, r: T -> bool)
    requires forall x :: r(x) == (p(x) && q(x))
    ensures Filter(Filter(s, p), q) == Filter(s, r)
  {
    if s != [] {
      FilterFilter(s[1..], p, q, r);
      if p(s[0]) {
        assert Filter(s, p)[0] == s[0];
        assert Filter(s, p)[1..] == Filter(s[1..], p);
      }
    }
  }

  /** The first element of `s` that satisfies `p`, if any. */
  function Find<T>(s: seq<T>, p: T -> bool): (r: Option<T>)
    ensures r.Some? ==> r.value in s && p(r.value)
    ensures r.None? <==> forall k :: 0 <= k < |s| ==> !p(s[k])
    ensures forall i :: 0 <= i < |s| && p(s[i]) && (forall j :: 0 <= j < i ==> !p(s[j])) ==> r == Some(s[i])
  {
    if s == [] then None
    else if p(s[0]) then Some(s[0])
    else
      var r := Find(s[1..], p);
      assert forall i :: 1 <= i < |s| ==> s[i] == s[1..][i - 1];
      r
  }

  /** The head of a filtered sequence is the element Find returns. */
  lemma {:induction false} FilterHeadIsFind<T>(s: seq<T>, p: T -> bool)
    ensures Filter(s, p) == [] <==> Find(s, p).None?
    ensures Filter(s, p) != [] ==> Filter(s, p)[0] == Find(s, p).value
  {
    if s != [] && !p(s[0]) {
      FilterHeadIsFind(s[1..], p);
    }
  }
}
