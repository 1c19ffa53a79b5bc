/**
 * The array operations the handlers use on query results: `filter`,
 * `find` (the first match of a query), and sorting under a comparator.
 */
module Sequences {
  import opened Json

  /** `Array.prototype.filter`: keeps exactly the elements that satisfy `p`, as many times as they occur. */
  function Filter<T(!new)>(s: seq<T>, p: T -> bool): (r: seq<T>)
    ensures |r| <= |s|
    ensures forall x :: multiset(r)[x] == if p(x) then multiset(s)[x] else 0
    ensures forall x :: x in r <==> x in s && p(x)
  {
    if s == [] then []
    else
      assert s == [s[0]] + s[1..];
      (if p(s[0]) then [s[0]] else []) + Filter(s[1..], p)
  }

  /** `Filter` on a sequence with a known first element. */
  lemma FilterCons<T(!new)>(x: T, s: seq<T>, p: T -> bool)
    ensures Filter([x] + s, p) == (if p(x) then [x] else []) + Filter(s, p)
  {
    assert ([x] + s)[1..] == s;
  }

  /** The positions from `lo` that satisfy `p`: position `lo` itself, if it does, and those after it. */
  lemma PositionsFrom<T>(s: seq<T>, p: T -> bool, lo: nat)
    requires lo < |s|
    ensures |set i | lo <= i < |s| && p(s[i])| == (if p(s[lo]) then 1 else 0) + |set i | lo + 1 <= i < |s| && p(s[i])|
  {
    var here := set i | lo <= i < |s| && p(s[i]);
    var later := set i | lo + 1 <= i < |s| && p(s[i]);
    if p(s[lo]) {
      assert here == later + {lo};
      assert lo !in later;
    } else {
      assert here == later;
    }
  }

  /** The number of elements `Filter` keeps from position `lo`: one for `s[lo]`, if it is kept, and those after it. */
  lemma FilterFrom<T(!new)>(s: seq<T>, p: T -> bool, lo: nat)
    requires lo < |s|
    ensures |Filter(s[lo..], p)| == (if p(s[lo]) then 1 else 0) + |Filter(s[lo + 1..], p)|
  {
    assert s[lo..] == [s[lo]] + s[lo + 1..];
    FilterCons(s[lo], s[lo + 1..], p);
  }

  /** The elements kept from position `lo` onwards are as many as the positions from `lo` that satisfy `p`. */
  lemma {:induction false} FilterCountsPositionsFrom<T(!new)>(s: seq<T>, p: T -> bool, lo: nat)
    requires lo <= |s|
    ensures |Filter(s[lo..], p)| == |set i | lo <= i < |s| && p(s[i])|
    decreases |s| - lo
  {
    if lo < |s| {
      FilterCountsPositionsFrom(s, p, lo + 1);
      FilterFrom(s, p, lo);
      PositionsFrom(s, p, lo);
    }
  }

  /** The positions of `s` whose element satisfies `p`. */
  ghost function Positions<T>(s: seq<T>, p: T -> bool): set<int>
  {
    set i | 0 <= i < |s| && p(s[i])
  }

  /** `filter(p).length` is the number of positions whose element satisfies `p`. */
  lemma FilterCountsPositions<T(!new)>(s: seq<T>, p: T -> bool)
    ensures |Filter(s, p)| == |Positions(s, p)|
  {
    FilterCountsPositionsFrom(s, p, 0);
    assert s[0..] == s;
  }

  /** Filtering by two predicates that agree on every element gives the same result. */
  lemma {:induction false} FilterSamePredicate<T(!new)>(s: seq<T>, p: T -> bool, q: T -> bool)
    requires forall x :: p(x) == q(x)
    ensures Filter(s, p) == Filter(s, q)
  {
    if s != [] {
      FilterSamePredicate(s[1..], p, q);
    }
  }

  /** The positions of a filtered tail `ft`, moved one place right to stand in the whole sequence. */
  lemma ShiftEmbedding<T>(s: seq<T>, p: T -> bool, ft: seq<T>, tail: seq<nat>) returns (shifted: seq<nat>)
    requires s != []
    requires |tail| == |ft|
    requires forall i :: 0 <= i < |tail| ==> tail[i] < |s| - 1 && s[1..][tail[i]] == ft[i]
    requires forall i, j :: 0 <= i < j < |tail| ==> tail[i] < tail[j]
    requires forall k :: 0 <= k < |s| - 1 && p(s[1..][k]) ==> k in tail
    ensures |shifted| == |ft|
    ensures forall i :: 0 <= i < |shifted| ==> 0 < shifted[i] < |s| && s[shifted[i]] == ft[i]
    ensures forall i, j :: 0 <= i < j < |shifted| ==> shifted[i] < shifted[j]
    ensures forall k :: 1 <= k < |s| && p(s[k]) ==> k in shifted
  {
    shifted := seq(|tail|, i requires 0 <= i < |tail| => tail[i] + 1);
    forall i | 0 <= i < |shifted| ensures 0 < shifted[i] < |s| && s[shifted[i]] == ft[i] {
      assert s[1..][tail[i]] == s[tail[i] + 1];
    }
    forall k | 1 <= k < |s| && p(s[k]) ensures k in shifted {
      assert s[1..][k - 1] == s[k];
      assert k - 1 in tail;
      var i :| 0 <= i < |tail| && tail[i] == k - 1;
      assert shifted[i] == k;
    }
  }

  /** Position 0 in front of the shifted positions of the tail, when `s[0]` is kept. */
  lemma ConsEmbedding<T>(s: seq<T>, p: T -> bool, ft: seq<T>, shifted: seq<nat>) returns (idx: seq<nat>)
    requires s != [] && p(s[0])
    requires |shifted| == |ft|
    requires forall i :: 0 <= i < |shifted| ==> 0 < shifted[i] < |s| && s[shifted[i]] == ft[i]
    requires forall i, j :: 0 <= i < j < |shifted| ==> shifted[i] < shifted[j]
    requires forall k :: 1 <= k < |s| && p(s[k]) ==> k in shifted
    ensures |idx| == |[s[0]] + ft|
    ensures forall i :: 0 <= i < |idx| ==> idx[i] < |s| && s[idx[i]] == ([s[0]] + ft)[i]
    ensures forall i, j :: 0 <= i < j < |idx| ==> idx[i] < idx[j]
    ensures forall k :: 0 <= k < |s| && p(s[k]) ==> k in idx
  {
    idx := [0] + shifted;
    forall i | 0 < i < |idx| ensures idx[i] < |s| && s[idx[i]] == ([s[0]] + ft)[i] {
      assert idx[i] == shifted[i - 1];
    }
    forall i, j | 0 <= i < j < |idx| ensures idx[i] < idx[j] {
      if i > 0 {
        assert idx[i] == shifted[i - 1];
      }
      assert idx[j] == shifted[j - 1];
    }
    forall k | 1 <= k < |s| && p(s[k]) ensures k in idx {
      assert k in shifted;
    }
  }

  /**
   * `idx` lists, in strictly increasing order, positions of `s` holding the
   * elements of `f` one by one, and it includes every position whose element
   * satisfies `p`.
   */
  ghost predicate Embeds<T>(s: seq<T>, f: seq<T>, p: T -> bool, idx: seq<nat>)
  {
    && |idx| == |f|
    && (forall i :: 0 <= i < |idx| ==> idx[i] < |s| && s[idx[i]] == f[i])
    && (forall i, j :: 0 <= i < j < |idx| ==> idx[i] < idx[j])
    && (forall k :: 0 <= k < |s| && p(s[k]) ==> k in idx)
  }

  /** The step of `FilterEmbeds` when `s[0]` is kept. */
  lemma EmbedsKeep<T(!new)>(s: seq<T>, p: T -> bool, tail: seq<nat>) returns (idx: seq<nat>)
    requires s != [] && p(s[0])
    requires Embeds(s[1..], Filter(s[1..], p), p, tail)
    ensures Embeds(s, Filter(s, p), p, idx)
  {
    var ft := Filter(s[1..], p);
    var shifted := ShiftEmbedding(s, p, ft, tail);
    assert Filter(s, p) == [s[0]] + ft;
    idx := ConsEmbedding(s, p, ft, shifted);
  }

  /** The step of `FilterEmbeds` when `s[0]` is dropped. */
  lemma EmbedsSkip<T(!new)>(s: seq<T>, p: T -> bool, tail: seq<nat>) returns (idx: seq<nat>)
    requires s != [] && !p(s[0])
    requires Embeds(s[1..], Filter(s[1..], p), p, tail)
    ensures Embeds(s, Filter(s, p), p, idx)
  {
    var ft := Filter(s[1..], p);
    idx := ShiftEmbedding(s, p, ft, tail);
    assert Filter(s, p) == ft;
  }

  /**
   * `Filter` keeps the relative order: its result sits in `s` at strictly
   * increasing positions, and every position whose element satisfies `p` is
   * one of them (the others cannot be, since every kept element satisfies `p`).
   */
  lemma {:induction false} FilterEmbeds<T(!new)>(s: seq<T>, p: T -> bool) returns (idx: seq<nat>)
    ensures Embeds(s, Filter(s, p), p, idx)
  {
    if s == [] {
      idx := [];
    } else {
      var tail := FilterEmbeds(s[1..], p);
      if p(s[0]) {
        idx := EmbedsKeep(s, p, tail);
      } else {
        idx := EmbedsSkip(s, p, tail);
      }
    }
  }

  /** Position of the first element satisfying `p`, or `|s|` when there is none. */
  function FirstIndex<T>(s: seq<T>, p: T -> bool): (k: nat)
    ensures k <= |s|
    ensures k < |s| ==> p(s[k])
    ensures forall j :: 0 <= j < k ==> !p(s[j])
  {
    if s == [] || p(s[0]) then 0 else 1 + FirstIndex(s[1..], p)
  }

  /** `results[0]` of a query: the first element satisfying `p`, if any. */
  function First<T(!new)>(s: seq<T>, p: T -> bool): (r: Option<T>)
    ensures r.None? <==> forall x :: x in s ==> !p(x)
    ensures r.Some? ==> r.value in s && p(r.value)
  {
    var k := FirstIndex(s, p);
    if k < |s| then Some(s[k]) else None
  }

  /** `le` is a total preorder: every two elements compare, and comparison chains. */
  ghost predicate TotalPreorder<T(!new)>(le: (T, T) -> bool)
  {
    && (forall a, b :: le(a, b) || le(b, a))
    && (forall a, b, c :: le(a, b) && le(b, c) ==> le(a, c))
  }

  /** Every element compares `le` to every later one. */
  predicate Sorted<T>(s: seq<T>, le: (T, T) -> bool)
  {
    forall i, j :: 0 <= i < j < |s| ==> le(s[i], s[j])
  }

  /** Inserts `x` before the first element it does not come after, keeping equal elements in their order. */
  function Insert<T(!new)>(x: T, s: seq<T>, le: (T, T) -> bool): (r: seq<T>)
    requires TotalPreorder(le) && Sorted(s, le)
    ensures multiset(r) == multiset(s) + multiset{x}
    ensures Sorted(r, le)
  {
    if s == [] then [x]
    else if le(x, s[0]) then
      assert s == [s[0]] + s[1..];
      [x] + s
    else
      var rest := Insert(x, s[1..], le);
      assert s == [s[0]] + s[1..];
      assert forall y :: y in rest ==> le(s[0], y) by {
        forall y | y in rest ensures le(s[0], y) {
          assert y in multiset(rest);
          if y != x {
            assert y in multiset(s[1..]);
            var j :| 0 <= j < |s[1..]| && s[1..][j] == y;
            assert s[j + 1] == y;
          }
        }
      }
      [s[0]] + rest
  }

  /** Sorting under a total preorder: a permutation of `s` in `le` order. */
  function SortBy<T(!new)>(s: seq<T>, le: (T, T) -> bool): (r: seq<T>)
    requires TotalPreorder(le)
    ensures multiset(r) == multiset(s)
    ensures Sorted(r, le)
  {
    if s == [] then []
    else
      assert s == [s[0]] + s[1..];
      Insert(s[0], SortBy(s[1..], le), le)
  }

  /** Sorting keeps every element and adds none. */
  lemma SortByKeeps<T(!new)>(s: seq<T>, le: (T, T) -> bool)
    requires TotalPreorder(le)
    ensures |SortBy(s, le)| == |s|
    ensures forall x :: x in SortBy(s, le) <==> x in s
  {
    var r := SortBy(s, le);
    assert |multiset(r)| == |multiset(s)|;
    forall x ensures x in r <==> x in s {
      assert x in r <==> x in multiset(r);
      assert x in s <==> x in multiset(s);
    }
  }
}
