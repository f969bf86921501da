/**
 * Invoice generation (`generar_factura`): bills the latest completed stay of
 * a plate at 80 pesos per minute, unless the plate's latest invoice already
 * carries the same number of minutes.
 */
module Billing {
  import opened Util
  import opened Entities
  import opened Store

  /** Pesos per minute (`tarifa`). */
  const RatePerMinute: int := 80

  /** A stay of `plate` whose `salida` is set. */
  predicate CompletedFor(plate: string, s: Stay)
  {
    s.plate == plate && s.exit.Some?
  }

  /** `query(Estadia).filter(placa, salida != None).order_by(id.desc()).first()`. */
  function LatestCompletedStay(stays: seq<Stay>, plate: string): (r: Option<Stay>)
    ensures r.None? <==> forall s :: s in stays ==> !CompletedFor(plate, s)
    ensures r.Some? ==> r.value in stays && CompletedFor(plate, r.value)
    ensures r.Some? ==> forall s :: s in stays && CompletedFor(plate, s) ==> s.id <= r.value.id
  {
    Latest(stays, StayId, (s: Stay) => CompletedFor(plate, s))
  }

  /** `query(Factura).filter(placa).order_by(id.desc()).first()`. */
  function LatestInvoice(invoices: seq<Invoice>, plate: string): (r: Option<Invoice>)
    ensures r.None? <==> forall f :: f in invoices ==> f.plate != plate
    ensures r.Some? ==> r.value in invoices && r.value.plate == plate
    ensures r.Some? ==> forall f :: f in invoices && f.plate == plate ==> f.id <= r.value.id
  {
    Latest(invoices, InvoiceId, (f: Invoice) => f.plate == plate)
  }

  /** The outcome of one call: the invoice returned (None for the null reply) and the invoice table after it. */
  datatype Billed = Billed(result: Option<Invoice>, invoices: seq<Invoice>)

  /** `generar_factura` as a transition of the invoice table; `nextId` is the id the table hands out next. */
  function Bill(stays: seq<Stay>, invoices: seq<Invoice>, plate: string, nextId: int, now: Timestamp): (b: Billed)
    requires DurationsRecorded(stays)
    ensures b.result.Some? ==> b.result.value.plate == plate
    ensures b.result.None? ==> b.invoices == invoices
    ensures b.result.Some? ==> b.invoices == invoices || b.invoices == invoices + [b.result.value]
    ensures b.result.Some? && b.invoices == invoices + [b.result.value] ==> b.result.value.id == nextId
  {
    match LatestCompletedStay(stays, plate)
    case None => Billed(None, invoices)
    case Some(stay) =>
      var minutes := stay.minutesTotal.value;
      var existing := LatestInvoice(invoices, plate);
      if existing.Some? && existing.value.minutes == minutes then Billed(existing, invoices)
      else
        var f := Invoice(nextId, plate, minutes, RatePerMinute, minutes * RatePerMinute, now);
        Billed(Some(f), invoices + [f])
  }

  /** A plate without a completed stay gets the null reply and no invoice is stored. */
  lemma NoCompletedStayBillsNothing(stays: seq<Stay>, invoices: seq<Invoice>, plate: string, nextId: int, now: Timestamp)
    requires DurationsRecorded(stays)
    ensures Bill(stays, invoices, plate, nextId, now).result.None?
        <==> forall s :: s in stays ==> !CompletedFor(plate, s)
    ensures Bill(stays, invoices, plate, nextId, now).result.None?
        ==> Bill(stays, invoices, plate, nextId, now).invoices == invoices
  {
  }

  /**
   * Whatever invoice is returned bills the minutes of the plate's completed
   * stay with the largest id, and the invoice table either stays as it was
   * (the returned invoice is already in it) or grows by exactly that
   * invoice, with the next id, rate 80 and total minutes × 80.
   */
  lemma BillsLatestCompletedStay(stays: seq<Stay>, invoices: seq<Invoice>, plate: string, nextId: int, now: Timestamp)
    requires DurationsRecorded(stays)
    ensures var b := Bill(stays, invoices, plate, nextId, now);
      b.result.Some? ==>
        && b.result.value.plate == plate
        && (exists s :: s in stays && CompletedFor(plate, s) && s.minutesTotal == Some(b.result.value.minutes)
                         && forall t :: t in stays && CompletedFor(plate, t) ==> t.id <= s.id)
        && ((b.invoices == invoices && b.result.value in invoices)
            || (b.invoices == invoices + [b.result.value]
                && b.result.value == Invoice(nextId, plate, b.result.value.minutes, RatePerMinute,
                                             b.result.value.minutes * RatePerMinute, now)))
  {
    var b := Bill(stays, invoices, plate, nextId, now);
    var latest := LatestCompletedStay(stays, plate);
    if latest.Some? {
      var stay := latest.value;
      assert stay in stays && CompletedFor(plate, stay);
      assert forall t :: t in stays && CompletedFor(plate, t) ==> t.id <= stay.id;
      assert stay.minutesTotal == Some(b.result.value.minutes);
    }
  }

  /**
   * When the plate's latest invoice bills as many minutes as its latest
   * completed stay, that invoice is returned and nothing is stored, even if
   * it was issued for an earlier stay of the same length.
   */
  lemma SameMinutesReturnsExistingInvoice(stays: seq<Stay>, invoices: seq<Invoice>, plate: string, nextId: int, now: Timestamp,
                                          stay: Stay, existing: Invoice)
    requires DurationsRecorded(stays)
    requires LatestCompletedStay(stays, plate) == Some(stay)
    requires LatestInvoice(invoices, plate) == Some(existing)
    requires stay.minutesTotal == Some(existing.minutes)
    ensures Bill(stays, invoices, plate, nextId, now) == Billed(Some(existing), invoices)
  {
  }

  /**
   * When the plate has no invoice yet, or its latest invoice bills other
   * minutes than its latest completed stay, exactly one new invoice is
   * appended and returned: the next id, that stay's minutes, rate 80 and
   * total minutes × 80.
   */
  lemma OtherMinutesAppendsNewInvoice(stays: seq<Stay>, invoices: seq<Invoice>, plate: string, nextId: int, now: Timestamp,
                                      stay: Stay)
    requires DurationsRecorded(stays)
    requires LatestCompletedStay(stays, plate) == Some(stay)
    requires LatestInvoice(invoices, plate).None? || LatestInvoice(invoices, plate).value.minutes != stay.minutesTotal.value
    ensures var m := stay.minutesTotal.value;
      var f := Invoice(nextId, plate, m, RatePerMinute, m * RatePerMinute, now);
      Bill(stays, invoices, plate, nextId, now) == Billed(Some(f), invoices + [f])
  {
  }

  /**
   * Billing the same plate twice, with the table's next id above every
   * stored id, adds at most one invoice: the second call returns what the
   * first returned and stores nothing.
   */
  lemma {:induction false} BillingTwiceStoresAtMostOne(stays: seq<Stay>, invoices: seq<Invoice>, plate: string,
                                                       nextId: int, nextId2: int, now: Timestamp, now2: Timestamp)
    requires DurationsRecorded(stays)
    requires forall f :: f in invoices ==> f.id < nextId
    ensures var first := Bill(stays, invoices, plate, nextId, now);
      var second := Bill(stays, first.invoices, plate, nextId2, now2);
      && second == Billed(first.result, first.invoices)
      && |second.invoices| <= |invoices| + 1
  {
    var first := Bill(stays, invoices, plate, nextId, now);
    var latest := LatestCompletedStay(stays, plate);
    if latest.Some? {
      var minutes := latest.value.minutesTotal.value;
      var existing := LatestInvoice(invoices, plate);
      if !(existing.Some? && existing.value.minutes == minutes) {
        var f := first.result.value;
        assert first.invoices == invoices + [f];
        assert f in first.invoices && f.plate == plate;
        var again := LatestInvoice(first.invoices, plate);
        assert again.Some?;
        assert forall g :: g in first.invoices && g.plate == plate ==> g.id <= again.value.id;
        assert again.value in first.invoices;
      }
    }
  }

  /**
   * `generar_factura(placa, db)`: looks up the plate's latest completed stay
   * and latest invoice, returns the existing invoice when its minutes match,
   * and otherwise inserts and returns a new one. Stays and events are never
   * touched.
   */
  method GenerateInvoice(db: Database, plate: string, now: Timestamp) returns (r: Option<Invoice>)
    requires db.Valid()
    modifies db
    ensures db.Valid()
    ensures db.stays == old(db.stays) && db.events == old(db.events)
    ensures db.nextStayId == old(db.nextStayId) && db.nextEventId == old(db.nextEventId)
    ensures var b := Bill(old(db.stays), old(db.invoices), plate, old(db.nextInvoiceId), now);
      && r == b.result
      && db.invoices == b.invoices
      && db.nextInvoiceId == old(db.nextInvoiceId) + |b.invoices| - |old(db.invoices)|
  {
    var stay := LatestCompletedStay(db.stays, plate);
    if stay.None? {
      return None;
    }
    var existing := LatestInvoice(db.invoices, plate);
    if existing.Some? && existing.value.minutes == stay.value.minutesTotal.value {
      return existing;
    }
    var minutes := stay.value.minutesTotal.value;
    var total := minutes * RatePerMinute;
    var f := Invoice(db.nextInvoiceId, plate, minutes, RatePerMinute, total, now);
    db.invoices := db.invoices + [f];
    db.nextInvoiceId := db.nextInvoiceId + 1;
    r := Some(f);
  }
}
