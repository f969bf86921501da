/**
 * The service's database as three append-ordered tables. Each table hands
 * out the next integer id on insertion, as the autoincrement primary keys
 * of `models.py` do.
 */
module Store {
  import opened Entities

  /** Each closed stay carries its duration and each open one does not: the exit transition writes both together. */
  ghost predicate DurationsRecorded(stays: seq<Stay>)
  {
    forall s :: s in stays ==> (s.exit.Some? <==> s.minutesTotal.Some?)
  }

  class Database {
    /** The `estadias`, `eventos` and `facturas` tables, in insertion order. */
    var stays: seq<Stay>
    var events: seq<Event>
    var invoices: seq<Invoice>
    /** The id the next inserted row of each table receives. */
    var nextStayId: int
    var nextEventId: int
    var nextInvoiceId: int

    ghost predicate Valid()
      reads this
    {
      && DurationsRecorded(stays)
      && (forall s :: s in stays ==> s.id < nextStayId)
      && (forall e :: e in events ==> e.id < nextEventId)
      && (forall f :: f in invoices ==> f.id < nextInvoiceId)
    }

    constructor ()
      ensures Valid()
      ensures stays == [] && events == [] && invoices == []
      ensures nextStayId == 1 && nextEventId == 1 && nextInvoiceId == 1
    {
      stays, events, invoices := [], [], [];
      nextStayId, nextEventId, nextInvoiceId := 1, 1, 1;
    }
  }
}
