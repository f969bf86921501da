/**
 * The watermark feed shared by the event list and the invoice list of the
 * dashboard: a fetch is filtered to the items above the last id seen, the
 * watermark moves to the largest id of the whole fetch, and the admitted
 * batch, reversed, is put in front of a history that keeps its first
 * `Capacity` entries.
 */
module Feed {
  import opened Util

  /** The history keeps this many entries (`slice(0, 10)`). */
  const Capacity: nat := 10

  /** The items of a fetch whose id lies strictly above the watermark, in fetched order. */
  function Admit<T(!new)>(fetched: seq<T>, id: T -> int, watermark: int): (r: seq<T>)
    ensures forall x :: x in r <==> x in fetched && id(x) > watermark
    ensures r == [] <==> forall x :: x in fetched ==> id(x) <= watermark
  {
    Filter(fetched, x => id(x) > watermark)
  }

  /**
   * The watermark after a fetch: the largest id of the WHOLE fetch when
   * something was admitted, the old watermark otherwise. Either way it covers
   * every id of the fetch and never moves backward.
   */
  function Advance<T(!new)>(fetched: seq<T>, id: T -> int, watermark: int): (w: int)
    ensures w >= watermark
    ensures forall x :: x in fetched ==> id(x) <= w
    ensures Admit(fetched, id, watermark) != [] ==> w > watermark
    ensures Admit(fetched, id, watermark) != [] ==> exists x :: x in fetched && id(x) == w
    ensures Admit(fetched, id, watermark) == [] ==> w == watermark
  {
    var admitted := Admit(fetched, id, watermark);
    if admitted == [] then watermark
    else
      assert admitted[0] in admitted;
      MaxKey(fetched, id)
  }

  /** The first `Capacity` entries of `s`. */
  function Bounded<T>(s: seq<T>): (r: seq<T>)
    ensures |r| == if |s| <= Capacity then |s| else Capacity
    ensures r == s[..|r|]
  {
    if |s| <= Capacity then s else s[..Capacity]
  }

  /**
   * `[...batch.reverse(), ...history].slice(0, 10)`: the batch, in reverse of
   * fetched order (newest first when the fetch is ascending), goes in front
   * of the old history, and whatever lies beyond the capacity is evicted
   * from the tail.
   */
  function FoldIn<T>(batch: seq<T>, history: seq<T>): (r: seq<T>)
    ensures |r| == if |batch| + |history| <= Capacity then |batch| + |history| else Capacity
    ensures forall i :: 0 <= i < |r| && i < |batch| ==> r[i] == batch[|batch| - 1 - i]
    ensures forall i :: |batch| <= i < |r| ==> r[i] == history[i - |batch|]
    ensures forall x :: x in r ==> x in batch || x in history
  {
    Bounded(Reverse(batch) + history)
  }

  /** Admission keeps the fetched order: admitting two parts of a fetch admits their admitted parts, in turn. */
  lemma AdmitKeepsFetchedOrder<T(!new)>(first: seq<T>, second: seq<T>, id: T -> int, watermark: int)
    ensures Admit(first + second, id, watermark) == Admit(first, id, watermark) + Admit(second, id, watermark)
  {
    FilterOfConcat(first, second, x => id(x) > watermark);
  }

  /** An item above the watermark is admitted as often as it was fetched; any other item never. */
  lemma AdmitCounts<T(!new)>(fetched: seq<T>, id: T -> int, watermark: int)
    ensures forall x :: multiset(Admit(fetched, id, watermark))[x] == if id(x) > watermark then multiset(fetched)[x] else 0
  {
    FilterCounts(fetched, x => id(x) > watermark);
  }

  /** Feeding the same fetch a second time admits nothing (idempotent re-ingest). */
  lemma ReingestAdmitsNothing<T(!new)>(fetched: seq<T>, id: T -> int, watermark: int)
    ensures Admit(fetched, id, Advance(fetched, id, watermark)) == []
  {
  }

  /** A fetch whose largest id does not exceed the watermark changes nothing. */
  lemma StaleFetchIsNoOp<T(!new)>(fetched: seq<T>, id: T -> int, watermark: int)
    requires fetched != [] ==> MaxKey(fetched, id) <= watermark
    ensures Admit(fetched, id, watermark) == []
    ensures Advance(fetched, id, watermark) == watermark
  {
  }

  /**
   * Across two consecutive ingests every item admitted by the second has a
   * larger id than every item admitted by the first: no item is admitted twice.
   */
  lemma LaterAdmissionsAreNewer<T(!new)>(first: seq<T>, second: seq<T>, id: T -> int, watermark: int)
    ensures forall a, b ::
              a in Admit(first, id, watermark) && b in Admit(second, id, Advance(first, id, watermark)) ==> id(a) < id(b)
  {
  }

  /**
   * Folding an ascending batch whose ids all exceed the history's in front of
   * a newest-first history gives a newest-first history.
   */
  lemma {:induction false} FoldInKeepsNewestFirst<T>(batch: seq<T>, history: seq<T>, id: T -> int)
    requires Ascending(batch, id) && Descending(history, id)
    requires forall x, y :: x in batch && y in history ==> id(y) < id(x)
    ensures Descending(FoldIn(batch, history), id)
  {
    var r := FoldIn(batch, history);
    var n := |batch|;
    forall i, j | 0 <= i < j < |r| ensures id(r[i]) > id(r[j]) {
      if j < n {
        assert r[i] == batch[n - 1 - i] && r[j] == batch[n - 1 - j];
      } else if i < n {
        assert r[i] == batch[n - 1 - i] && r[j] == history[j - n];
        assert batch[n - 1 - i] in batch && history[j - n] in history;
      } else {
        assert r[i] == history[i - n] && r[j] == history[j - n];
      }
    }
  }

  /**
   * One ingest of a fetch that arrives in ascending id order keeps the
   * history newest-first and every entry of it at or below the new
   * watermark, provided the old history was so with respect to the old one.
   */
  lemma IngestKeepsHistoryOrdered<T(!new)>(fetched: seq<T>, history: seq<T>, id: T -> int, watermark: int)
    requires Ascending(fetched, id) && Descending(history, id)
    requires forall y :: y in history ==> id(y) <= watermark
    ensures Descending(FoldIn(Admit(fetched, id, watermark), history), id)
    ensures forall x :: x in FoldIn(Admit(fetched, id, watermark), history) ==> id(x) <= Advance(fetched, id, watermark)
  {
    FilterKeepsAscending(fetched, x => id(x) > watermark, id);
    FoldInKeepsNewestFirst(Admit(fetched, id, watermark), history, id);
  }

  /**
   * `[...batch.reverse(), ...history].slice(0, 10)` step by step: copies
   * the admitted items into an array, reverses it in place and folds it in
   * front of the history. The reversed array is returned because the
   * loops that follow it run in its new order.
   */
  method FoldBatch<T>(admitted: seq<T>, history: seq<T>) returns (batch: array<T>, folded: seq<T>)
    ensures fresh(batch)
    ensures batch[..] == Reverse(admitted)
    ensures folded == FoldIn(admitted, history)
  {
    batch := new T[|admitted|](i requires 0 <= i < |admitted| => admitted[i]);
    assert batch[..] == admitted;
    ReverseBatch(batch);
    folded := Bounded(batch[..] + history);
  }

  /** `batch.reverse()`: reverses the array in place. */
  method ReverseBatch<T>(a: array<T>)
    modifies a
    ensures a[..] == Reverse(old(a[..]))
  {
    var n := a.Length;
    var lo, hi := 0, n - 1;
    while lo < hi
      invariant 0 <= lo <= hi + 1 <= n && hi == n - 1 - lo
      invariant forall k :: 0 <= k < lo ==> a[k] == old(a[n - 1 - k]) && a[n - 1 - k] == old(a[k])
      invariant forall k :: lo <= k <= hi ==> a[k] == old(a[k])
    {
      a[lo], a[hi] := a[hi], a[lo];
      lo, hi := lo + 1, hi - 1;
    }
    assert forall k :: 0 <= k < n ==> a[k] == old(a[n - 1 - k]);
  }
}
