/**
 * Generic helpers over sequences shared by the browser-side reconciliation
 * engine and the server-side queries: the JavaScript `filter`, `reverse` and
 * `Math.max(...)` idioms, and the SQL "filter, order by id descending, first"
 * query shape.
 */
module Util {

  datatype Option<T> = None | Some(value: T)

  /** Keys strictly increase along the sequence. */
  ghost predicate Ascending<T>(s: seq<T>, key: T -> int)
  {
    forall i, j :: 0 <= i < j < |s| ==> key(s[i]) < key(s[j])
  }

  /** Keys strictly decrease along the sequence (newest first). */
  ghost predicate Descending<T>(s: seq<T>, key: T -> int)
  {
    forall i, j :: 0 <= i < j < |s| ==> key(s[i]) > key(s[j])
  }

  /** The elements of `s` that `keep` accepts, in their original order. */
  function Filter<T(!new)>(s: seq<T>, keep: T -> bool): (r: seq<T>)
    ensures |r| <= |s|
    ensures forall x :: x in r <==> x in s && keep(x)
    ensures r == [] <==> forall x :: x in s ==> !keep(x)
  {
    if s == [] then []
    else if keep(s[0]) then [s[0]] + Filter(s[1..], keep)
    else Filter(s[1..], keep)
  }

  /** Each accepted element occurs in the result as often as in `s`, each rejected one never. */
  lemma {:induction false} FilterCounts<T(!new)>(s: seq<T>, keep: T -> bool)
    ensures forall x :: multiset(Filter(s, keep))[x] == if keep(x) then multiset(s)[x] else 0
  {
    if s != [] {
      FilterCounts(s[1..], keep);
      assert s == [s[0]] + s[1..];
      assert multiset(s) == multiset{s[0]} + multiset(s[1..]);
    }
  }

  /** Filtering distributes over concatenation, so kept elements keep their relative order. */
  lemma {:induction false} FilterOfConcat<T(!new)>(a: seq<T>, b: seq<T>, keep: T -> bool)
    ensures Filter(a + b, keep) == Filter(a, keep) + Filter(b, keep)
  {
    if a == [] {
      assert a + b == b;
    } else {
      var x, tail := a[0], a[1..];
      var head := if keep(x) then [x] else [];
      calc {
        Filter(a + b, keep);
        { assert a + b == [x] + (tail + b); }
        Filter([x] + (tail + b), keep);
        { FilterCons(x, tail + b, keep); }
        head + Filter(tail + b, keep);
        { FilterOfConcat(tail, b, keep); }
        head + (Filter(tail, keep) + Filter(b, keep));
        (head + Filter(tail, keep)) + Filter(b, keep);
        { FilterCons(x, tail, keep); assert a == [x] + tail; }
        Filter(a, keep) + Filter(b, keep);
      }
    }
  }

  /** Filtering a sequence decides its first element, then filters the rest. */
  lemma FilterCons<T(!new)>(x: T, s: seq<T>, keep: T -> bool)
    ensures Filter([x] + s, keep) == (if keep(x) then [x] else []) + Filter(s, keep)
  {
    assert ([x] + s)[0] == x && ([x] + s)[1..] == s;
  }

  /** The positions of `s` whose element `keep` accepts. */
  function KeptPositions<T>(s: seq<T>, keep: T -> bool): set<int>
  {
    set i | 0 <= i < |s| && keep(s[i])
  }

  /** Filtering keeps one element per accepted position. */
  lemma {:induction false} FilterLength<T(!new)>(s: seq<T>, keep: T -> bool)
    ensures |Filter(s, keep)| == |KeptPositions(s, keep)|
  {
    if s != [] {
      var n := |s|;
      var init, last := s[..n - 1], s[n - 1];
      FilterLength(init, keep);
      calc {
        |Filter(s, keep)|;
        { assert s == init + [last]; FilterOfConcat(init, [last], keep); }
        |Filter(init, keep)| + |Filter([last], keep)|;
        { FilterCons(last, [], keep); assert [last] + [] == [last]; }
        |KeptPositions(init, keep)| + (if keep(last) then 1 else 0);
        { KeptPositionsSnoc(s, keep); }
        |KeptPositions(s, keep)|;
      }
    }
  }

  /** The accepted positions of `s` are those of its prefix, plus the last one when it is accepted. */
  lemma KeptPositionsSnoc<T>(s: seq<T>, keep: T -> bool)
    requires s != []
    ensures var n := |s|;
      |KeptPositions(s, keep)| == |KeptPositions(s[..n - 1], keep)| + if keep(s[n - 1]) then 1 else 0
  {
    var n := |s|;
    var init := s[..n - 1];
    assert n - 1 !in KeptPositions(init, keep);
    if keep(s[n - 1]) {
      assert KeptPositions(s, keep) == KeptPositions(init, keep) + {n - 1};
    } else {
      assert KeptPositions(s, keep) == KeptPositions(init, keep);
    }
  }

  /** Filtering keeps the relative order, so an ascending sequence stays ascending. */
  lemma {:induction false} FilterKeepsAscending<T(!new)>(s: seq<T>, keep: T -> bool, key: T -> int)
    requires Ascending(s, key)
    ensures Ascending(Filter(s, keep), key)
  {
    if s != [] {
      var tail := s[1..];
      assert Ascending(tail, key);
      FilterKeepsAscending(tail, keep, key);
      if keep(s[0]) {
        var rest := Filter(tail, keep);
        forall x | x in rest ensures key(s[0]) < key(x) {
          var k :| 0 <= k < |tail| && tail[k] == x;
          assert s[k + 1] == x;
        }
        PrependKeepsAscending(s[0], rest, key);
      }
    }
  }

  /** An element below every key of an ascending sequence may be put in front of it. */
  lemma PrependKeepsAscending<T>(x: T, s: seq<T>, key: T -> int)
    requires Ascending(s, key)
    requires forall y :: y in s ==> key(x) < key(y)
    ensures Ascending([x] + s, key)
  {
    var r := [x] + s;
    forall i, j | 0 <= i < j < |r| ensures key(r[i]) < key(r[j]) {
      assert r[j] == s[j - 1];
      if i > 0 {
        assert r[i] == s[i - 1];
      }
    }
  }

  /** `Array.prototype.reverse`: the same elements, last first. */
  function Reverse<T>(s: seq<T>): (r: seq<T>)
    ensures |r| == |s|
    ensures forall i :: 0 <= i < |s| ==> r[i] == s[|s| - 1 - i]
  {
    if s == [] then [] else Reverse(s[1..]) + [s[0]]
  }

  /** `Math.max(...s.map(key))` for a non-empty `s`: the largest key, which some element carries. */
  function MaxKey<T(!new)>(s: seq<T>, key: T -> int): (m: int)
    requires s != []
    ensures forall x :: x in s ==> key(x) <= m
    ensures exists x :: x in s && key(x) == m
  {
    if |s| == 1 then key(s[0])
    else
      var rest := MaxKey(s[1..], key);
      if key(s[0]) > rest then key(s[0]) else rest
  }

  /**
   * The query `filter(keep).order_by(key.desc()).first()`: an accepted
   * element with the largest key, or None when no element is accepted.
   */
  function Latest<T(!new)>(s: seq<T>, key: T -> int, keep: T -> bool): (r: Option<T>)
    ensures r.None? <==> forall x :: x in s ==> !keep(x)
    ensures r.Some? ==> r.value in s && keep(r.value)
    ensures r.Some? ==> forall x :: x in s && keep(x) ==> key(x) <= key(r.value)
  {
    if s == [] then None
    else
      var rest := Latest(s[1..], key, keep);
      if keep(s[0]) && (rest.None? || key(s[0]) > key(rest.value)) then Some(s[0]) else rest
  }

  /** A sequence has at most as many distinct elements as it has positions. */
  lemma {:induction false} DistinctElementsBound<T>(s: seq<T>)
    ensures |set x | x in s| <= |s|
  {
    if s != [] {
      var init := s[..|s| - 1];
      DistinctElementsBound(init);
      assert (set x | x in s) == (set x | x in init) + {s[|s| - 1]} by {
        assert s == init + [s[|s| - 1]];
      }
    }
  }

  /** A sequence without repetitions has exactly as many distinct elements as positions. */
  lemma {:induction false} DistinctElementsCount<T>(s: seq<T>)
    requires forall i, j :: 0 <= i < j < |s| ==> s[i] != s[j]
    ensures |set x | x in s| == |s|
  {
    if s != [] {
      var init := s[..|s| - 1];
      DistinctElementsCount(init);
      assert s == init + [s[|s| - 1]];
      assert s[|s| - 1] !in init;
      assert (set x | x in s) == (set x | x in init) + {s[|s| - 1]};
    }
  }

  /** A subset is no larger than its superset. */
  lemma SubsetCardinality<T>(a: set<T>, b: set<T>)
    requires a <= b
    ensures |a| <= |b|
  {
    assert b == a + (b - a);
  }
}
