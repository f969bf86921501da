/**
 * The cached stays snapshot of the dashboard: the id-keyed lookup the
 * dashboard rebuilds from a snapshot, and the test that decides whether a
 * freshly polled list of stays differs meaningfully from the cached one.
 */
module Snapshot {
  import opened Entities

  /** Every id of the snapshot. */
  function Ids(stays: seq<Stay>): set<int>
  {
    set s | s in stays :: s.id
  }

  /** Stays carrying the same id agree on `salida` (in particular when ids are unique). */
  ghost predicate ExitsAgree(stays: seq<Stay>)
  {
    forall i, j :: 0 <= i < |stays| && 0 <= j < |stays| && stays[i].id == stays[j].id ==> stays[i].exit == stays[j].exit
  }

  /** No two stays of the snapshot carry the same id, as with a primary key. */
  ghost predicate UniqueIds(stays: seq<Stay>)
  {
    forall i, j :: 0 <= i < |stays| && 0 <= j < |stays| && stays[i].id == stays[j].id ==> i == j
  }

  /**
   * The map built by `forEach(e => map.set(e.id, e))` over the snapshot:
   * exactly the snapshot's ids, each bound to a stay of the snapshot with
   * that id (the last one, when an id repeats).
   */
  function IdMap(stays: seq<Stay>): (m: map<int, Stay>)
    ensures m.Keys == Ids(stays)
    ensures forall k :: k in m ==> m[k] in stays && m[k].id == k
  {
    if stays == [] then map[]
    else
      var init := stays[..|stays| - 1];
      var last := stays[|stays| - 1];
      assert stays == init + [last];
      IdMap(init)[last.id := last]
  }

  /** With unique ids the lookup returns, for each stay, that very stay. */
  lemma IdMapFindsEachStay(stays: seq<Stay>, i: int)
    requires UniqueIds(stays) && 0 <= i < |stays|
    ensures stays[i].id in IdMap(stays) && IdMap(stays)[stays[i].id] == stays[i]
  {
    var found := IdMap(stays)[stays[i].id];
    var j :| 0 <= j < |stays| && stays[j] == found;
  }

  /** A polled stay that the cached lookup does not know, or knows with another `salida`. */
  predicate Stale(index: map<int, Stay>, s: Stay)
  {
    s.id !in index || index[s.id].exit != s.exit
  }

  /**
   * The change test: a first non-empty snapshot after an empty cache, a
   * different number of stays, or some polled stay that is stale against the
   * cached lookup.
   */
  predicate SnapshotChanged(cached: seq<Stay>, index: map<int, Stay>, polled: seq<Stay>)
  {
    || (|cached| == 0 && |polled| > 0)
    || |cached| != |polled|
    || exists s :: s in polled && Stale(index, s)
  }

  /**
   * A poll of as many stays as the cache, each of whose ids the cache knows
   * with the same `salida`, is no change, whatever else differs.
   */
  lemma {:induction false} SameIdsAndExitsIsNoChange(cached: seq<Stay>, polled: seq<Stay>)
    requires ExitsAgree(cached)
    requires |polled| == |cached|
    requires forall s :: s in polled ==> exists c :: c in cached && c.id == s.id && c.exit == s.exit
    ensures !SnapshotChanged(cached, IdMap(cached), polled)
  {
    var index := IdMap(cached);
    forall s | s in polled ensures !Stale(index, s) {
      var c :| c in cached && c.id == s.id && c.exit == s.exit;
      assert s.id in Ids(cached);
      var i :| 0 <= i < |cached| && cached[i] == c;
      var j :| 0 <= j < |cached| && cached[j] == index[s.id];
    }
  }

  /**
   * A reordering of the cached snapshot (same stays, any order) is no change;
   * in particular the same snapshot fed twice is no change the second time.
   */
  lemma ReorderedSnapshotIsNoChange(cached: seq<Stay>, polled: seq<Stay>)
    requires ExitsAgree(cached)
    requires multiset(polled) == multiset(cached)
    ensures !SnapshotChanged(cached, IdMap(cached), polled)
  {
    assert |polled| == |multiset(polled)| == |multiset(cached)| == |cached|;
    forall s | s in polled ensures exists c :: c in cached && c.id == s.id && c.exit == s.exit {
      assert s in multiset(polled);
      assert s in cached;
    }
    SameIdsAndExitsIsNoChange(cached, polled);
  }

  /** Feeding the cached snapshot again is no change. */
  lemma RepeatedSnapshotIsNoChange(stays: seq<Stay>)
    requires ExitsAgree(stays)
    ensures !SnapshotChanged(stays, IdMap(stays), stays)
  {
    ReorderedSnapshotIsNoChange(stays, stays);
  }

  /** A cached active stay that comes back with its exit recorded is a change. */
  lemma ExitRecordedIsChange(cached: seq<Stay>, polled: seq<Stay>, i: int, j: int)
    requires UniqueIds(cached)
    requires 0 <= i < |cached| && cached[i].exit.None?
    requires 0 <= j < |polled| && polled[j].id == cached[i].id && polled[j].exit.Some?
    ensures SnapshotChanged(cached, IdMap(cached), polled)
  {
    IdMapFindsEachStay(cached, i);
    assert polled[j] in polled && Stale(IdMap(cached), polled[j]);
  }

  /** A polled stay whose id the cache has never seen is a change. */
  lemma UnknownStayIsChange(cached: seq<Stay>, polled: seq<Stay>, j: int)
    requires 0 <= j < |polled| && polled[j].id !in Ids(cached)
    ensures SnapshotChanged(cached, IdMap(cached), polled)
  {
    assert polled[j] in polled;
  }
}
