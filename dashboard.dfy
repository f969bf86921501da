/**
 * The browser dashboard's reconciliation engine: the global `state` record
 * with its cached stays, bounded event and invoice histories, watermarks,
 * id lookup and dirty flags, and the loaders and view pass that update it
 * on every poll.
 */
module Dashboard {
  import opened Util
  import opened Entities
  import opened Snapshot
  import opened Occupancy
  import Feed

  datatype Severity = Success | Error

  /** A notification payload: severity, plate, and the invoice total when it announces an invoice. */
  datatype Notification = Notification(severity: Severity, plate: string, amount: Option<int>)

  /**
   * One polled resource: the parsed body of an ok response, or a failure
   * (a non-ok status or a transport error, both swallowed by the loader).
   */
  datatype Fetch<T> = Fetched(items: seq<T>) | Failed

  /** `state.hasChanges`: which view regions owe a refresh. */
  datatype Flags = Flags(stays: bool, events: bool, invoices: bool, stats: bool)

  const Clean: Flags := Flags(false, false, false, false)

  /** What one `updateUI` pass hands to the view: the data of each region it refreshed. */
  datatype Refresh = Refresh(
    spots: Option<map<int, Stay>>,
    events: Option<seq<Event>>,
    invoices: Option<seq<Invoice>>,
    stats: Option<Stats>)

  /** An entry event is announced as a success, any other type as an error. */
  function EventNotice(e: Event): Notification
  {
    Notification(if e.kind == Entry then Success else Error, e.plate, None)
  }

  /** An invoice is always announced as a success, with its total. */
  function InvoiceNotice(f: Invoice): Notification
  {
    Notification(Success, f.plate, Some(f.total))
  }

  function EventNotices(batch: seq<Event>): seq<Notification>
  {
    seq(|batch|, i requires 0 <= i < |batch| => EventNotice(batch[i]))
  }

  function InvoiceNotices(batch: seq<Invoice>): seq<Notification>
  {
    seq(|batch|, i requires 0 <= i < |batch| => InvoiceNotice(batch[i]))
  }

  /** The notifications of one feed in the order they are raised: reverse of fetched order (newest first when the fetch is ascending). */
  lemma NoticesFollowReversedBatch(batch: seq<Event>)
    ensures |EventNotices(Reverse(batch))| == |batch|
    ensures forall i :: 0 <= i < |batch| ==>
              EventNotices(Reverse(batch))[i].plate == batch[|batch| - 1 - i].plate
              && (EventNotices(Reverse(batch))[i].severity == Success <==> batch[|batch| - 1 - i].kind == Entry)
  {
  }

  /** The notification loop of `loadEventos`, run over the batch in its current (reversed) order. */
  method AnnounceEvents(batch: array<Event>) returns (notes: seq<Notification>)
    ensures notes == EventNotices(batch[..])
  {
    notes := [];
    for i := 0 to batch.Length
      invariant notes == EventNotices(batch[..i])
    {
      assert batch[..i + 1] == batch[..i] + [batch[i]];
      notes := notes + [EventNotice(batch[i])];
    }
    assert batch[..batch.Length] == batch[..];
  }

  /** The notification loop of `loadFacturas`, run over the batch in its current (reversed) order. */
  method AnnounceInvoices(batch: array<Invoice>) returns (notes: seq<Notification>)
    ensures notes == InvoiceNotices(batch[..])
  {
    notes := [];
    for i := 0 to batch.Length
      invariant notes == InvoiceNotices(batch[..i])
    {
      assert batch[..i + 1] == batch[..i] + [batch[i]];
      notes := notes + [InvoiceNotice(batch[i])];
    }
    assert batch[..batch.Length] == batch[..];
  }

  /** Whether a polled stays response replaces the cache: it arrived and differs from it. */
  predicate StaysChangedBy(response: Fetch<Stay>, cached: seq<Stay>, index: map<int, Stay>)
  {
    response.Fetched? && SnapshotChanged(cached, index, response.items)
  }

  /** The items a feed admits from one response: none when the fetch failed. */
  function NewItems<T(!new)>(response: Fetch<T>, id: T -> int, watermark: int): seq<T>
  {
    if response.Fetched? then Feed.Admit(response.items, id, watermark) else []
  }

  /** A feed's watermark after one response. */
  function WatermarkAfter<T(!new)>(response: Fetch<T>, id: T -> int, watermark: int): int
  {
    if response.Fetched? then Feed.Advance(response.items, id, watermark) else watermark
  }

  /** A feed's history after one response: unchanged unless something was admitted. */
  function HistoryAfter<T(!new)>(response: Fetch<T>, id: T -> int, watermark: int, history: seq<T>): seq<T>
  {
    var admitted := NewItems(response, id, watermark);
    if admitted == [] then history else Feed.FoldIn(admitted, history)
  }

  class ParkingDashboard {
    /** `state.estadias`: the last snapshot judged a change. */
    var stays: seq<Stay>
    /** `state.eventos`: at most ten events, each batch in reverse of fetched order in front of the older ones (newest first when fetches are ascending). */
    var events: seq<Event>
    /** `state.facturas`: at most ten invoices, kept like `events`. */
    var invoices: seq<Invoice>
    /** `state.lastEventId` and `state.lastFacturaId`: the watermarks. */
    var lastEventId: int
    var lastInvoiceId: int
    /** `state.estadiasMap`, keyed by stay id. */
    var stayIndex: map<int, Stay>
    var hasChanges: Flags

    ghost predicate Valid()
      reads this
    {
      && stayIndex == IdMap(stays)
      && |events| <= Feed.Capacity
      && |invoices| <= Feed.Capacity
      && (forall e :: e in events ==> e.id <= lastEventId)
      && (forall f :: f in invoices ==> f.id <= lastInvoiceId)
    }

    constructor ()
      ensures Valid()
      ensures stays == [] && events == [] && invoices == []
      ensures lastEventId == 0 && lastInvoiceId == 0
      ensures stayIndex == map[] && hasChanges == Clean
    {
      stays, events, invoices := [], [], [];
      lastEventId, lastInvoiceId := 0, 0;
      stayIndex := map[];
      hasChanges := Clean;
    }

    /** `detectEstadiaChanges`: compares a polled list of stays with the cache. */
    method DetectStayChanges(polled: seq<Stay>) returns (changed: bool)
      ensures changed == SnapshotChanged(stays, stayIndex, polled)
    {
      if |stays| == 0 && |polled| > 0 {
        return true;
      }
      if |stays| != |polled| {
        return true;
      }
      for i := 0 to |polled|
        invariant forall k :: 0 <= k < i ==> !Stale(stayIndex, polled[k])
      {
        var s := polled[i];
        if s.id !in stayIndex {
          assert Stale(stayIndex, polled[i]);
          return true;
        }
        if stayIndex[s.id].exit != s.exit {
          assert Stale(stayIndex, polled[i]);
          return true;
        }
      }
      return false;
    }

    /** `updateEstadiasMap`: clears the lookup and refills it from the snapshot. */
    method UpdateStayIndex(snapshot: seq<Stay>)
      modifies this`stayIndex
      ensures stayIndex == IdMap(snapshot)
    {
      stayIndex := map[];
      for i := 0 to |snapshot|
        invariant stayIndex == IdMap(snapshot[..i])
      {
        assert snapshot[..i + 1][..i] == snapshot[..i];
        stayIndex := stayIndex[snapshot[i].id := snapshot[i]];
      }
      assert snapshot[..|snapshot|] == snapshot;
    }

    /** `loadEstadias` after its fetch: swaps the cache wholesale when the snapshot changed. */
    method LoadStays(response: Fetch<Stay>)
      requires Valid()
      modifies this
      ensures Valid()
      ensures events == old(events) && invoices == old(invoices)
      ensures lastEventId == old(lastEventId) && lastInvoiceId == old(lastInvoiceId)
      ensures if response.Fetched? && SnapshotChanged(old(stays), old(stayIndex), response.items)
              then stays == response.items && stayIndex == IdMap(response.items)
                   && hasChanges == old(hasChanges).(stays := true, stats := true)
              else stays == old(stays) && stayIndex == old(stayIndex) && hasChanges == old(hasChanges)
    {
      if response.Fetched? {
        var changed := DetectStayChanges(response.items);
        if changed {
          stays := response.items;
          UpdateStayIndex(response.items);
          hasChanges := hasChanges.(stays := true, stats := true);
        }
      }
    }

    /**
     * `loadEventos` after its fetch: admits the events above the watermark,
     * moves the watermark to the largest id fetched, reverses the batch in
     * place, folds it into the history and raises one notification per
     * admitted event, in reverse of fetched order (newest first when the
     * fetch is ascending).
     */
    method LoadEvents(response: Fetch<Event>) returns (notes: seq<Notification>)
      requires Valid()
      modifies this
      ensures Valid()
      ensures stays == old(stays) && stayIndex == old(stayIndex)
      ensures invoices == old(invoices) && lastInvoiceId == old(lastInvoiceId)
      ensures lastEventId >= old(lastEventId)
      ensures response.Failed? ==>
                events == old(events) && lastEventId == old(lastEventId) && hasChanges == old(hasChanges) && notes == []
      ensures response.Fetched? ==>
                var admitted := Feed.Admit(response.items, EventId, old(lastEventId));
                && lastEventId == Feed.Advance(response.items, EventId, old(lastEventId))
                && (forall e, h :: e in admitted && h in old(events) ==> h.id < e.id)
                && if admitted == []
                   then events == old(events) && hasChanges == old(hasChanges) && notes == []
                   else events == Feed.FoldIn(admitted, old(events))
                        && hasChanges == old(hasChanges).(events := true)
                        && notes == EventNotices(Reverse(admitted))
    {
      notes := [];
      if response.Fetched? {
        var fetched := response.items;
        var admitted := Feed.Admit(fetched, EventId, lastEventId);
        if |admitted| > 0 {
          lastEventId := MaxKey(fetched, EventId);
          var batch, folded := Feed.FoldBatch(admitted, events);
          events := folded;
          hasChanges := hasChanges.(events := true);
          notes := AnnounceEvents(batch);
        }
      }
    }

    /**
     * `loadFacturas` after its fetch: the same watermark feed for invoices,
     * which also marks the statistics for refresh.
     */
    method LoadInvoices(response: Fetch<Invoice>) returns (notes: seq<Notification>)
      requires Valid()
      modifies this
      ensures Valid()
      ensures stays == old(stays) && stayIndex == old(stayIndex)
      ensures events == old(events) && lastEventId == old(lastEventId)
      ensures lastInvoiceId >= old(lastInvoiceId)
      ensures response.Failed? ==>
                invoices == old(invoices) && lastInvoiceId == old(lastInvoiceId) && hasChanges == old(hasChanges) && notes == []
      ensures response.Fetched? ==>
                var admitted := Feed.Admit(response.items, InvoiceId, old(lastInvoiceId));
                && lastInvoiceId == Feed.Advance(response.items, InvoiceId, old(lastInvoiceId))
                && (forall f, h :: f in admitted && h in old(invoices) ==> h.id < f.id)
                && if admitted == []
                   then invoices == old(invoices) && hasChanges == old(hasChanges) && notes == []
                   else invoices == Feed.FoldIn(admitted, old(invoices))
                        && hasChanges == old(hasChanges).(invoices := true, stats := true)
                        && notes == InvoiceNotices(Reverse(admitted))
    {
      notes := [];
      if response.Fetched? {
        var fetched := response.items;
        var admitted := Feed.Admit(fetched, InvoiceId, lastInvoiceId);
        if |admitted| > 0 {
          lastInvoiceId := MaxKey(fetched, InvoiceId);
          var batch, folded := Feed.FoldBatch(admitted, invoices);
          invoices := folded;
          hasChanges := hasChanges.(invoices := true, stats := true);
          notes := AnnounceInvoices(batch);
        }
      }
    }

    /**
     * `updateUI`: refreshes exactly the regions whose flag is set, clearing
     * each flag as it is serviced.
     */
    method UpdateUI() returns (refresh: Refresh)
      requires Valid()
      modifies this`hasChanges
      ensures Valid()
      ensures hasChanges == Clean
      ensures refresh.spots.Some? <==> old(hasChanges).stays
      ensures refresh.spots.Some? ==> AssignsSpots(stays, refresh.spots.value)
      ensures refresh.events == if old(hasChanges).events then Some(events) else None
      ensures refresh.invoices == if old(hasChanges).invoices then Some(invoices) else None
      ensures refresh.stats == if old(hasChanges).stats then Some(ComputeStats(stays, invoices)) else None
    {
      var spots: Option<map<int, Stay>> := None;
      var eventList: Option<seq<Event>> := None;
      var invoiceList: Option<seq<Invoice>> := None;
      var stats: Option<Stats> := None;
      if hasChanges.stays {
        var placed := AssignSpots(stays);
        spots := Some(placed);
        hasChanges := hasChanges.(stays := false);
      }
      if hasChanges.events {
        eventList := Some(events);
        hasChanges := hasChanges.(events := false);
      }
      if hasChanges.invoices {
        invoiceList := Some(invoices);
        hasChanges := hasChanges.(invoices := false);
      }
      if hasChanges.stats {
        stats := Some(ComputeStats(stays, invoices));
        hasChanges := hasChanges.(stats := false);
      }
      refresh := Refresh(spots, eventList, invoiceList, stats);
    }

    /**
     * The `Promise.all` part of `loadAllData`: the three loaders over
     * already-fetched resources, stays then events then invoices. Each feed
     * ends as `NewItems`, `WatermarkAfter` and `HistoryAfter` describe, and
     * the flags of every region with news are set.
     */
    method Ingest(stayResponse: Fetch<Stay>, eventResponse: Fetch<Event>, invoiceResponse: Fetch<Invoice>)
      returns (notes: seq<Notification>)
      requires Valid()
      modifies this
      ensures Valid()
      ensures var changed := StaysChangedBy(stayResponse, old(stays), old(stayIndex));
              && stays == (if changed then stayResponse.items else old(stays))
              && hasChanges == Flags(old(hasChanges).stays || changed,
                                     old(hasChanges).events || NewItems(eventResponse, EventId, old(lastEventId)) != [],
                                     old(hasChanges).invoices || NewItems(invoiceResponse, InvoiceId, old(lastInvoiceId)) != [],
                                     old(hasChanges).stats || changed || NewItems(invoiceResponse, InvoiceId, old(lastInvoiceId)) != [])
      ensures lastEventId == WatermarkAfter(eventResponse, EventId, old(lastEventId))
      ensures events == HistoryAfter(eventResponse, EventId, old(lastEventId), old(events))
      ensures lastInvoiceId == WatermarkAfter(invoiceResponse, InvoiceId, old(lastInvoiceId))
      ensures invoices == HistoryAfter(invoiceResponse, InvoiceId, old(lastInvoiceId), old(invoices))
      ensures notes == EventNotices(Reverse(NewItems(eventResponse, EventId, old(lastEventId))))
                       + InvoiceNotices(Reverse(NewItems(invoiceResponse, InvoiceId, old(lastInvoiceId))))
    {
      LoadStays(stayResponse);
      var eventNotes := LoadEvents(eventResponse);
      var invoiceNotes := LoadInvoices(invoiceResponse);
      notes := eventNotes + invoiceNotes;
    }

    /**
     * `loadAllData`: one reconciliation pass over already-fetched resources,
     * followed by the view pass. A failed resource leaves its part of the
     * state untouched; every flag is clear afterwards, and each region is
     * refreshed iff it was pending or its loader found news.
     */
    method Poll(stayResponse: Fetch<Stay>, eventResponse: Fetch<Event>, invoiceResponse: Fetch<Invoice>)
      returns (notes: seq<Notification>, refresh: Refresh)
      requires Valid()
      modifies this
      ensures Valid()
      ensures hasChanges == Clean
      ensures lastEventId >= old(lastEventId) && lastInvoiceId >= old(lastInvoiceId)
      ensures stayResponse.Failed? ==> stays == old(stays)
      ensures eventResponse.Failed? ==> events == old(events) && lastEventId == old(lastEventId)
      ensures invoiceResponse.Failed? ==> invoices == old(invoices) && lastInvoiceId == old(lastInvoiceId)
      ensures stays == if StaysChangedBy(stayResponse, old(stays), old(stayIndex)) then stayResponse.items else old(stays)
      ensures stayIndex == IdMap(stays)
      ensures lastEventId == WatermarkAfter(eventResponse, EventId, old(lastEventId))
      ensures events == HistoryAfter(eventResponse, EventId, old(lastEventId), old(events))
      ensures lastInvoiceId == WatermarkAfter(invoiceResponse, InvoiceId, old(lastInvoiceId))
      ensures invoices == HistoryAfter(invoiceResponse, InvoiceId, old(lastInvoiceId), old(invoices))
      ensures var staysChanged := StaysChangedBy(stayResponse, old(stays), old(stayIndex));
              var newEvents := NewItems(eventResponse, EventId, old(lastEventId));
              var newInvoices := NewItems(invoiceResponse, InvoiceId, old(lastInvoiceId));
              && (refresh.spots.Some? <==> old(hasChanges).stays || staysChanged)
              && (refresh.events.Some? <==> old(hasChanges).events || newEvents != [])
              && (refresh.invoices.Some? <==> old(hasChanges).invoices || newInvoices != [])
              && (refresh.stats.Some? <==> old(hasChanges).stats || staysChanged || newInvoices != [])
              && notes == EventNotices(Reverse(newEvents)) + InvoiceNotices(Reverse(newInvoices))
      ensures refresh.spots.Some? ==> AssignsSpots(stays, refresh.spots.value)
      ensures refresh.events.Some? ==> refresh.events.value == events
      ensures refresh.invoices.Some? ==> refresh.invoices.value == invoices
      ensures refresh.stats.Some? ==> refresh.stats.value == ComputeStats(stays, invoices)
    {
      notes := Ingest(stayResponse, eventResponse, invoiceResponse);
      refresh := UpdateUI();
    }
  }

  /**
   * With watermark 5, a fetch of events with ids 6, 7 and 5 admits exactly
   * the events 6 and 7, in that order, and moves the watermark to 7.
   */
  lemma AdmitsOnlyEventsAboveWatermark(e6: Event, e7: Event, e5: Event)
    requires e6.id == 6 && e7.id == 7 && e5.id == 5
    ensures Feed.Admit([e6, e7, e5], EventId, 5) == [e6, e7]
    ensures Feed.Advance([e6, e7, e5], EventId, 5) == 7
  {
    var fetched := [e6, e7, e5];
    assert fetched[1..] == [e7, e5] && fetched[1..][1..] == [e5] && [e5][1..] == [];
    assert Feed.Admit([e5], EventId, 5) == [];
    assert Feed.Admit([e7, e5], EventId, 5) == [e7];
  }
}
