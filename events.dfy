/**
 * Event registration (`registrar_evento`): every request is logged as an
 * event; an entry opens a new stay and any other type closes the first open
 * stay of the plate, if there is one.
 */
module Events {
  import opened Util
  import opened Entities
  import opened Store

  /** The request body (`EventoCreate`). */
  datatype EventRequest = EventRequest(plate: string, kind: string)

  /** The reply of every registration, whatever happened to the stays. */
  const Registered: string := "Evento registrado"

  /** A stay of `plate` whose `salida` is still null. */
  predicate OpenFor(plate: string, s: Stay)
  {
    s.plate == plate && s.exit.None?
  }

  /** `query(Estadia).filter(placa, salida == None).first()`, in table order: the index of the first open stay. */
  function FirstOpenStay(stays: seq<Stay>, plate: string): (r: Option<nat>)
    ensures r.None? <==> forall i :: 0 <= i < |stays| ==> !OpenFor(plate, stays[i])
    ensures r.Some? ==> r.value < |stays| && OpenFor(plate, stays[r.value])
    ensures r.Some? ==> forall j :: 0 <= j < r.value ==> !OpenFor(plate, stays[j])
  {
    if stays == [] then None
    else if OpenFor(plate, stays[0]) then Some(0)
    else
      match FirstOpenStay(stays[1..], plate)
      case None => None
      case Some(i) => Some(i + 1)
  }

  /** The stays table after a registration; `nextId` is the id an inserted stay receives. */
  function StaysAfter(stays: seq<Stay>, request: EventRequest, now: Timestamp, minutes: nat, nextId: int): (r: seq<Stay>)
    ensures |r| == if request.kind == Entry then |stays| + 1 else |stays|
    ensures forall i :: 0 <= i < |stays| ==>
              r[i].id == stays[i].id && r[i].plate == stays[i].plate && r[i].entry == stays[i].entry
    ensures request.kind == Entry ==> r[|stays|] == Stay(nextId, request.plate, now, None, None)
    ensures request.kind != Entry ==>
              forall i :: 0 <= i < |stays| && r[i] != stays[i] ==> stays[i].exit.None? && r[i].exit == Some(now)
  {
    if request.kind == Entry then stays + [Stay(nextId, request.plate, now, None, None)]
    else
      match FirstOpenStay(stays, request.plate)
      case None => stays
      case Some(i) => stays[i := stays[i].(exit := Some(now), minutesTotal := Some(minutes))]
  }

  /** Number of open stays of `plate`. */
  function OpenCount(stays: seq<Stay>, plate: string): nat
  {
    if stays == [] then 0
    else OpenCount(stays[..|stays| - 1], plate) + (if OpenFor(plate, stays[|stays| - 1]) then 1 else 0)
  }

  lemma {:induction false} OpenCountZero(stays: seq<Stay>, plate: string)
    ensures OpenCount(stays, plate) == 0 <==> forall i :: 0 <= i < |stays| ==> !OpenFor(plate, stays[i])
  {
    if stays != [] {
      var init := stays[..|stays| - 1];
      OpenCountZero(init, plate);
      assert forall i :: 0 <= i < |init| ==> init[i] == stays[i];
    }
  }

  lemma OpenCountAppend(stays: seq<Stay>, s: Stay, plate: string)
    ensures OpenCount(stays + [s], plate) == OpenCount(stays, plate) + (if OpenFor(plate, s) then 1 else 0)
  {
    assert (stays + [s])[..|stays|] == stays;
  }

  lemma {:induction false} OpenCountUpdate(stays: seq<Stay>, i: int, s: Stay, plate: string)
    requires 0 <= i < |stays|
    ensures OpenCount(stays[i := s], plate)
         == OpenCount(stays, plate) - (if OpenFor(plate, stays[i]) then 1 else 0) + (if OpenFor(plate, s) then 1 else 0)
  {
    var n := |stays|;
    var updated := stays[i := s];
    if i == n - 1 {
      assert updated[..n - 1] == stays[..n - 1];
    } else {
      assert updated[..n - 1] == stays[..n - 1][i := s];
      OpenCountUpdate(stays[..n - 1], i, s, plate);
    }
  }

  /** An entry opens exactly one more stay for its plate and none for any other plate. */
  lemma EntryOpensOneStay(stays: seq<Stay>, request: EventRequest, now: Timestamp, minutes: nat, nextId: int, plate: string)
    requires request.kind == Entry
    ensures OpenCount(StaysAfter(stays, request, now, minutes, nextId), plate)
         == OpenCount(stays, plate) + (if plate == request.plate then 1 else 0)
  {
    OpenCountAppend(stays, Stay(nextId, request.plate, now, None, None), plate);
  }

  /**
   * Any other request closes one open stay of its plate when there is one,
   * and leaves the open stays of every other plate alone.
   */
  lemma ExitClosesOneStay(stays: seq<Stay>, request: EventRequest, now: Timestamp, minutes: nat, nextId: int, plate: string)
    requires request.kind != Entry
    ensures var before := OpenCount(stays, plate);
      OpenCount(StaysAfter(stays, request, now, minutes, nextId), plate)
        == if plate == request.plate && before > 0 then before - 1 else before
  {
    match FirstOpenStay(stays, request.plate)
    case None =>
      OpenCountZero(stays, request.plate);
    case Some(i) =>
      OpenCountUpdate(stays, i, stays[i].(exit := Some(now), minutesTotal := Some(minutes)), plate);
  }

  /**
   * An exit changes at most the first open stay of its plate, and only its
   * `salida` and `minutos_total`; every other stay is untouched.
   */
  lemma ExitTouchesOnlyFirstOpenStay(stays: seq<Stay>, request: EventRequest, now: Timestamp, minutes: nat, nextId: int)
    requires request.kind != Entry
    ensures var after := StaysAfter(stays, request, now, minutes, nextId);
      && |after| == |stays|
      && forall j :: 0 <= j < |stays| && after[j] != stays[j] ==>
           && FirstOpenStay(stays, request.plate) == Some(j)
           && OpenFor(request.plate, stays[j])
           && (forall k :: 0 <= k < j ==> !OpenFor(request.plate, stays[k]))
           && after[j] == stays[j].(exit := Some(now), minutesTotal := Some(minutes))
  {
  }

  /**
   * `registrar_evento`: logs the event, then either inserts an open stay
   * (entry) or closes the first open stay of the plate (anything else), and
   * always replies with the same message.
   */
  method RegisterEvent(db: Database, request: EventRequest, now: Timestamp, minutes: nat) returns (message: string)
    requires db.Valid()
    modifies db
    ensures db.Valid()
    ensures db.events == old(db.events) + [Event(old(db.nextEventId), request.plate, request.kind, now)]
    ensures db.nextEventId == old(db.nextEventId) + 1
    ensures db.stays == StaysAfter(old(db.stays), request, now, minutes, old(db.nextStayId))
    ensures db.nextStayId == if request.kind == Entry then old(db.nextStayId) + 1 else old(db.nextStayId)
    ensures db.invoices == old(db.invoices) && db.nextInvoiceId == old(db.nextInvoiceId)
    ensures message == Registered
  {
    db.events := db.events + [Event(db.nextEventId, request.plate, request.kind, now)];
    db.nextEventId := db.nextEventId + 1;
    if request.kind == Entry {
      db.stays := db.stays + [Stay(db.nextStayId, request.plate, now, None, None)];
      db.nextStayId := db.nextStayId + 1;
    } else {
      var open := FirstOpenStay(db.stays, request.plate);
      if open.Some? {
        var i := open.value;
        db.stays := db.stays[i := db.stays[i].(exit := Some(now), minutesTotal := Some(minutes))];
      }
    }
    message := Registered;
  }

  /** At most one open stay per plate. */
  ghost predicate OneOpenStayPerPlate(stays: seq<Stay>)
  {
    forall plate :: OpenCount(stays, plate) <= 1
  }

  /** As written: a second entry for a plate that is inside opens a second stay for it. */
  lemma DoubleEntryOpensTwoStays(stays: seq<Stay>, plate: string, t1: Timestamp, t2: Timestamp, id1: int, id2: int)
    requires OpenCount(stays, plate) == 0
    ensures var request := EventRequest(plate, Entry);
      var once := StaysAfter(stays, request, t1, 0, id1);
      OpenCount(StaysAfter(once, request, t2, 0, id2), plate) == 2
      && !OneOpenStayPerPlate(StaysAfter(once, request, t2, 0, id2))
  {
    var request := EventRequest(plate, Entry);
    var once := StaysAfter(stays, request, t1, 0, id1);
    EntryOpensOneStay(stays, request, t1, 0, id1, plate);
    EntryOpensOneStay(once, request, t2, 0, id2, plate);
  }

  /** As written: an exit for a plate with no open stay changes no stay, yet is registered with the usual reply. */
  lemma ExitWithoutOpenStayChangesNoStay(stays: seq<Stay>, request: EventRequest, now: Timestamp, minutes: nat, nextId: int)
    requires request.kind != Entry && OpenCount(stays, request.plate) == 0
    ensures StaysAfter(stays, request, now, minutes, nextId) == stays
  {
    OpenCountZero(stays, request.plate);
  }

  /** Why a checked registration was refused. */
  datatype Refusal = AlreadyInside | NotInside

  datatype Reply = Accepted(message: string) | Rejected(reason: Refusal)

  /** An entry needs the plate to be outside; any other type needs it to be inside. */
  predicate Admissible(stays: seq<Stay>, request: EventRequest)
  {
    if request.kind == Entry then OpenCount(stays, request.plate) == 0 else OpenCount(stays, request.plate) > 0
  }

  /** An admissible registration keeps at most one open stay per plate. */
  lemma AdmissibleEventKeepsOneOpenStay(stays: seq<Stay>, request: EventRequest, now: Timestamp, minutes: nat, nextId: int)
    requires OneOpenStayPerPlate(stays) && Admissible(stays, request)
    ensures OneOpenStayPerPlate(StaysAfter(stays, request, now, minutes, nextId))
  {
    forall plate ensures OpenCount(StaysAfter(stays, request, now, minutes, nextId), plate) <= 1 {
      if request.kind == Entry {
        EntryOpensOneStay(stays, request, now, minutes, nextId, plate);
      } else {
        ExitClosesOneStay(stays, request, now, minutes, nextId, plate);
      }
    }
  }

  /**
   * Registration with the checks the service's own test script expects: a
   * second entry, or an exit with no open stay, is rejected and logs nothing.
   */
  method RegisterEventChecked(db: Database, request: EventRequest, now: Timestamp, minutes: nat) returns (reply: Reply)
    requires db.Valid()
    modifies db
    ensures db.Valid()
    ensures reply.Rejected? <==> !Admissible(old(db.stays), request)
    ensures reply.Rejected? ==> reply.reason == (if request.kind == Entry then AlreadyInside else NotInside)
    ensures reply.Rejected? ==>
              && db.stays == old(db.stays) && db.events == old(db.events) && db.invoices == old(db.invoices)
              && db.nextStayId == old(db.nextStayId) && db.nextEventId == old(db.nextEventId)
              && db.nextInvoiceId == old(db.nextInvoiceId)
    ensures reply.Accepted? ==>
              && reply.message == Registered
              && db.events == old(db.events) + [Event(old(db.nextEventId), request.plate, request.kind, now)]
              && db.stays == StaysAfter(old(db.stays), request, now, minutes, old(db.nextStayId))
              && db.invoices == old(db.invoices)
              && db.nextEventId == old(db.nextEventId) + 1
              && db.nextStayId == (if request.kind == Entry then old(db.nextStayId) + 1 else old(db.nextStayId))
              && db.nextInvoiceId == old(db.nextInvoiceId)
    ensures OneOpenStayPerPlate(old(db.stays)) ==> OneOpenStayPerPlate(db.stays)
  {
    var open := FirstOpenStay(db.stays, request.plate);
    OpenCountZero(db.stays, request.plate);
    if request.kind == Entry && open.Some? {
      return Rejected(AlreadyInside);
    }
    if request.kind != Entry && open.None? {
      return Rejected(NotInside);
    }
    if OneOpenStayPerPlate(db.stays) {
      AdmissibleEventKeepsOneOpenStay(db.stays, request, now, minutes, db.nextStayId);
    }
    var message := RegisterEvent(db, request, now, minutes);
    reply := Accepted(message);
  }
}
