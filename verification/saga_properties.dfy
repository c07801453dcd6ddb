/** What the reservation saga guarantees, and what it does not, stated over the
    step functions of ReservationManager: the three branches of CreateReservation,
    the race between two creates for one ticket, the order of release and status
    change in CancelReservation, the guards of ConfirmPayment, and the status
    changes any sequence of operations can make. */
module SagaProperties {
  import opened Wrappers
  import opened TicketStore
  import opened ReservationStore
  import opened TicketFacade
  import opened ReservationManager

  // ----- CreateReservation -----

  /** A pre-check that fails (lost call, unknown ticket, ticket already taken)
      rejects the request before any row is written. */
  lemma CreatePrecheckRejects(w: World, request: CreateReservationRequest, env: CreateEnv)
    requires !env.check.Delivered?
             || forall i :: 0 <= i < |w.tickets| && w.tickets[i].id == request.ticketId ==> !w.tickets[i].isAvailable
    ensures CreateReservationStep(w, request, env).world == w
    ensures CreateReservationStep(w, request, env).response
            == ReservationResponse(false, "Ticket " + request.ticketId + " is not available", "", None)
  {
  }

  /** Tickets are never removed, so a ticket that passed the pre-check is still there
      when it is looked up, even after a competing create: the lookup can only fail in
      transport, and that raise ends the request before this request's row is created. */
  lemma CreateFetchErrorAddsNoRow(w: World, request: CreateReservationRequest, env: CreateEnv)
    requires AvailabilityReply(w.tickets, request.ticketId, env.check)
    ensures FetchReply(AfterRival(w, env).tickets, request.ticketId, env.fetch).Failure? <==> !env.fetch.Delivered?
    ensures !env.fetch.Delivered? ==>
              && CreateReservationStep(w, request, env).world == AfterRival(w, env)
              && CreateReservationStep(w, request, env).response
                 == ReservationResponse(false, "Error creating reservation: " + env.fetch.error, "", None)
  {
    var i :| IsFirstTicket(w.tickets, request.ticketId, i) && w.tickets[i].isAvailable;
    assert AfterRival(w, env).tickets[i].id == request.ticketId;
  }

  /** Once the lookup succeeds, exactly one row is appended and no stored row
      changes: the row carries the next id, the caller's customer and ticket, the
      ticket's event snapshot and the clock reading, and ends Reserved when the claim
      succeeded and Failed (the compensation) when it did not. */
  lemma CreateAppendsOneRow(w: World, request: CreateReservationRequest, env: CreateEnv)
    requires IdsAssigned(w.reservations, w.lastId)
    requires FetchReply(w.tickets, request.ticketId, env.fetch).Success?
    ensures var o := CreateAfterCheck(w, request, env);
            && o.world.lastId == w.lastId + 1
            && |o.world.reservations| == |w.reservations| + 1
            && o.world.reservations[..|w.reservations|] == w.reservations
    ensures var o := CreateAfterCheck(w, request, env);
            var row := o.world.reservations[|w.reservations|];
            && row.id == ReservationIdOf(w.lastId + 1)
            && row.customerId == request.customerId
            && row.customerName == request.customerName
            && row.customerEmail == request.customerEmail
            && row.ticketId == request.ticketId
            && row.createdAt == env.now
            && row.status == (if o.response.success then Reserved else Failed)
            && exists i :: IsFirstTicket(w.tickets, request.ticketId, i)
                           && row.eventName == w.tickets[i].eventName && row.eventDate == w.tickets[i].eventDate
                           && row.venue == w.tickets[i].venue && row.price == w.tickets[i].price
  {
    var details := FetchReply(w.tickets, request.ticketId, env.fetch).value;
    var c := Create(w.reservations, w.lastId, NewReservation(request, details), env.now);
    CreateAssignsFreshId(w.reservations, w.lastId, NewReservation(request, details), env.now);
    var n := |w.reservations|;
    assert IsFirstReservation(c.reservations, c.reservation.id, n);
    var u := UpdateStatus(c.reservations, c.reservation.id, Failed).reservations;
    assert u[..n] == w.reservations by {
      forall k | 0 <= k < n ensures u[k] == w.reservations[k] {
        assert c.reservations[k] == w.reservations[k];
      }
    }
    assert c.reservations[..n] == w.reservations;
  }

  /** On success the caller gets the details of the row just stored, every field of it. */
  lemma CreateReturnsStoredRow(w: World, request: CreateReservationRequest, env: CreateEnv)
    requires IdsAssigned(w.reservations, w.lastId)
    requires FetchReply(w.tickets, request.ticketId, env.fetch).Success?
    ensures var o := CreateAfterCheck(w, request, env);
            o.response.success ==>
              && |o.world.reservations| == |w.reservations| + 1
              && o.response.reservation == Some(MapToReservationDetails(o.world.reservations[|w.reservations|]))
  {
    CreateAppendsOneRow(w, request, env);
  }

  /** The claim: the request succeeds exactly when the reserve call was delivered and
      the ticket was still available; then that ticket, and only it, names the new
      reservation and its customer, and the caller gets the new id with status
      Reserved. A failed claim leaves the tickets as they were, unless the reply was
      lost after the ticket store had already claimed the ticket. */
  lemma CreateClaimOutcome(w: World, request: CreateReservationRequest, env: CreateEnv)
    requires FetchReply(w.tickets, request.ticketId, env.fetch).Success?
    ensures var o := CreateAfterCheck(w, request, env);
            o.response.success
            <==> env.reserve.Delivered? && exists i :: IsFirstTicket(w.tickets, request.ticketId, i) && w.tickets[i].isAvailable
    ensures var o := CreateAfterCheck(w, request, env);
            o.response.success ==>
              && o.response.reservationId == ReservationIdOf(w.lastId + 1)
              && o.response.reservation.Some?
              && o.response.reservation.value.reservationId == ReservationIdOf(w.lastId + 1)
              && o.response.reservation.value.status == Reserved
              && exists i :: IsFirstTicket(w.tickets, request.ticketId, i)
                             && o.world.tickets == w.tickets[i := Claim(w.tickets[i], ReservationIdOf(w.lastId + 1), request.customerId)]
    ensures var o := CreateAfterCheck(w, request, env);
            !o.response.success ==> o.world.tickets == w.tickets || env.reserve.ResponseLost?
  {
    var o := CreateAfterCheck(w, request, env);
    var details := FetchReply(w.tickets, request.ticketId, env.fetch).value;
    var c := Create(w.reservations, w.lastId, NewReservation(request, details), env.now);
    var r := Reserve(w.tickets, request.ticketId, c.reservation.id, request.customerId);
    if o.response.success {
      var i :| IsFirstTicket(w.tickets, request.ticketId, i) && w.tickets[i].isAvailable;
      assert o.world.tickets == w.tickets[i := Claim(w.tickets[i], c.reservation.id, request.customerId)];
    } else if !env.reserve.ResponseLost? {
      assert o.world.tickets == w.tickets;
    }
  }

  /** The message the caller reads after the lookup succeeded: the ticket service's
      own refusal, or its transport error, behind "Failed to reserve ticket: ". */
  lemma CreateClaimMessage(w: World, request: CreateReservationRequest, env: CreateEnv)
    requires FetchReply(w.tickets, request.ticketId, env.fetch).Success?
    ensures var o := CreateAfterCheck(w, request, env);
            o.response.message
            == if o.response.success then "Reservation created successfully"
               else if env.reserve.Delivered? then "Failed to reserve ticket: " + ("Failed to reserve ticket " + request.ticketId)
               else "Failed to reserve ticket: " + ("Error: " + env.reserve.error)
  {
  }

  /** When the reserve reply is lost after the ticket store granted the claim, the
      caller is told the request failed and marks the row Failed, yet the ticket
      stays claimed by that Failed row. */
  lemma LostReserveReplyLeavesFailedHolder(w: World, request: CreateReservationRequest, env: CreateEnv, i: int)
    requires IdsAssigned(w.reservations, w.lastId)
    requires FetchReply(w.tickets, request.ticketId, env.fetch).Success?
    requires env.reserve.ResponseLost?
    requires IsFirstTicket(w.tickets, request.ticketId, i) && w.tickets[i].isAvailable
    ensures var o := CreateAfterCheck(w, request, env);
            && !o.response.success
            && o.world.tickets[i].reservationId == Some(ReservationIdOf(w.lastId + 1))
            && o.world.reservations[|w.reservations|].id == ReservationIdOf(w.lastId + 1)
            && o.world.reservations[|w.reservations|].status == Failed
  {
    CreateAppendsOneRow(w, request, env);
  }

  /** A successful create leaves the ticket claimed. */
  lemma {:induction false} CreateSuccessTakesTicket(w: World, request: CreateReservationRequest, env: CreateEnv)
    requires CreateReservationStep(w, request, env).response.success
    ensures exists i :: IsFirstTicket(CreateReservationStep(w, request, env).world.tickets, request.ticketId, i)
                        && !CreateReservationStep(w, request, env).world.tickets[i].isAvailable
  {
    var w1 := AfterRival(w, env);
    CreateClaimOutcome(w1, request, env);
    var ts := CreateReservationStep(w, request, env).world.tickets;
    var i :| IsFirstTicket(w1.tickets, request.ticketId, i)
             && ts == w1.tickets[i := Claim(w1.tickets[i], ReservationIdOf(w1.lastId + 1), request.customerId)];
    assert IsFirstTicket(ts, request.ticketId, i);
  }

  /** The check-then-claim race: when a competing create for the same ticket runs
      to success after this request's pre-check and before its lookup, this request
      fails even though its own pre-check passed. */
  lemma RaceLoserFails(w: World, request: CreateReservationRequest, env: CreateEnv)
    requires env.rival.Some? && env.rival.value.request.ticketId == request.ticketId
    requires CreateReservationStep(w, env.rival.value.request, env.rival.value.env).response.success
    ensures !CreateReservationStep(w, request, env).response.success
  {
    if AvailabilityReply(w.tickets, request.ticketId, env.check) {
      var w1 := AfterRival(w, env);
      CreateSuccessTakesTicket(w, env.rival.value.request, env.rival.value.env);
      var i :| IsFirstTicket(w1.tickets, request.ticketId, i) && !w1.tickets[i].isAvailable;
      if FetchReply(w1.tickets, request.ticketId, env.fetch).Success? {
        CreateClaimOutcome(w1, request, env);
        forall j | IsFirstTicket(w1.tickets, request.ticketId, j) ensures j == i {
        }
      }
    }
  }

  // ----- CancelReservation -----

  /** An unknown id, or a reservation already Cancelled, fails before any release
      and changes nothing. */
  lemma CancelRejectsWithoutRelease(w: World, reservationId: string, net: Delivery)
    requires (forall k :: 0 <= k < |w.reservations| ==> w.reservations[k].id != reservationId)
             || exists i :: IsFirstReservation(w.reservations, reservationId, i) && w.reservations[i].status == Cancelled
    ensures CancelReservationStep(w, reservationId, net).world == w
    ensures !CancelReservationStep(w, reservationId, net).response.success
    ensures (forall k :: 0 <= k < |w.reservations| ==> w.reservations[k].id != reservationId) ==>
              CancelReservationStep(w, reservationId, net).response.message
              == "Reservation with ID " + reservationId + " not found"
    ensures (exists i :: IsFirstReservation(w.reservations, reservationId, i) && w.reservations[i].status == Cancelled) ==>
              CancelReservationStep(w, reservationId, net).response.message == "Reservation is already cancelled"
  {
    match GetReservationById(w.reservations, reservationId)
    case None =>
    case Some(r) =>
      var i :| IsFirstReservation(w.reservations, reservationId, i) && w.reservations[i].status == Cancelled;
      var j :| IsFirstReservation(w.reservations, reservationId, j) && r == w.reservations[j];
      assert i == j;
  }

  /** For a live reservation the ticket is released first, and the row becomes
      Cancelled only when the release was delivered and granted. A failed release
      leaves every row as it was, and, unless its reply was lost after the store
      released, the tickets too: cancelling again is then the same as cancelling
      for the first time. */
  lemma CancelReleasesFirst(w: World, reservationId: string, i: int, net: Delivery)
    requires IsFirstReservation(w.reservations, reservationId, i) && w.reservations[i].status != Cancelled
    ensures var o := CancelReservationStep(w, reservationId, net);
            o.response.success <==> net.Delivered? && Release(w.tickets, w.reservations[i].ticketId, reservationId).ok
    ensures var o := CancelReservationStep(w, reservationId, net);
            o.response.success ==>
              && o.world.reservations == w.reservations[i := w.reservations[i].(status := Cancelled)]
              && o.world.tickets == Release(w.tickets, w.reservations[i].ticketId, reservationId).tickets
              && o.world.lastId == w.lastId
    ensures var o := CancelReservationStep(w, reservationId, net);
            !o.response.success ==>
              && o.world.reservations == w.reservations
              && o.world.lastId == w.lastId
              && (net.ResponseLost? || o.world == w)
  {
    var found := GetReservationById(w.reservations, reservationId);
    assert found.Some?;
    var r :| IsFirstReservation(w.reservations, reservationId, r) && found.value == w.reservations[r];
    FirstReservationIsFunctional(w.reservations, reservationId, r, i);
    var o := CancelReservationStep(w, reservationId, net);
    if o.response.success {
      var u := UpdateStatus(w.reservations, reservationId, Cancelled).reservations;
      assert u == w.reservations[i := w.reservations[i].(status := Cancelled)];
    }
  }

  /** The message of a cancel that reached the release: the ticket service's refusal,
      or its transport error, behind "Failed to cancel reservation: ". */
  lemma CancelReleaseMessage(w: World, reservationId: string, i: int, net: Delivery)
    requires IsFirstReservation(w.reservations, reservationId, i) && w.reservations[i].status != Cancelled
    ensures var o := CancelReservationStep(w, reservationId, net);
            o.response.message
            == if o.response.success then "Reservation cancelled successfully"
               else if net.Delivered? then "Failed to cancel reservation: " + ("Failed to release ticket " + w.reservations[i].ticketId)
               else "Failed to cancel reservation: " + ("Error: " + net.error)
  {
    var found := GetReservationById(w.reservations, reservationId);
    assert found.Some?;
    var r :| IsFirstReservation(w.reservations, reservationId, r) && found.value == w.reservations[r];
    FirstReservationIsFunctional(w.reservations, reservationId, r, i);
  }

  /** A cancel whose request was lost changes nothing, so a retry on any network
      behaves as if it were the first attempt. */
  lemma CancelRetryAfterLostRequest(w: World, reservationId: string, error: string, net: Delivery)
    ensures CancelReservationStep(CancelReservationStep(w, reservationId, RequestLost(error)).world, reservationId, net)
            == CancelReservationStep(w, reservationId, net)
  {
    assert CancelReservationStep(w, reservationId, RequestLost(error)).world == w;
  }

  /** When the release reply is lost after the ticket store released the ticket, the
      ticket is free while the row stays live: a retry on any network fails, and
      payment for the row is still accepted. */
  lemma LostReleaseReplyStrandsRow(w: World, reservationId: string, i: int, t: int, error: string)
    requires Coherent(w)
    requires IsFirstReservation(w.reservations, reservationId, i) && w.reservations[i].status != Cancelled
    requires 0 <= t < |w.tickets| && w.tickets[t].reservationId == Some(reservationId)
    ensures var w2 := CancelReservationStep(w, reservationId, ResponseLost(error)).world;
            && !CancelReservationStep(w, reservationId, ResponseLost(error)).response.success
            && w2.reservations == w.reservations
            && w2.tickets[t].isAvailable
            && (forall net :: !CancelReservationStep(w2, reservationId, net).response.success)
            && ConfirmPaymentStep(w2, reservationId).response.success == (w.reservations[i].status != Paid)
  {
    var r := w.reservations[i];
    var w2 := CancelReservationStep(w, reservationId, ResponseLost(error)).world;
    LostReleaseReplyClearsHolder(w, reservationId, i, t, error);
    HolderIsTicketOfReservation(w, i, t);
    assert IsFirstTicket(w.tickets, r.ticketId, t) by {
      FirstTicketIsUnique(w.tickets, r.ticketId, t);
    }
    CancelReleasesFirst(w, reservationId, i, ResponseLost(error));
    assert w2.tickets[t] == Unclaim(w.tickets[t]);
    forall net ensures !CancelReservationStep(w2, reservationId, net).response.success {
      CancelWithoutHolderFails(w2, reservationId, net);
    }
    ConfirmPaymentGuards(w2, reservationId);
  }

  /** After the lost release reply the stores are still coherent, the log is as it
      was, and no ticket names the row any more. */
  lemma LostReleaseReplyClearsHolder(w: World, reservationId: string, i: int, t: int, error: string)
    requires Coherent(w)
    requires IsFirstReservation(w.reservations, reservationId, i) && w.reservations[i].status != Cancelled
    requires 0 <= t < |w.tickets| && w.tickets[t].reservationId == Some(reservationId)
    ensures var w2 := CancelReservationStep(w, reservationId, ResponseLost(error)).world;
            && Coherent(w2)
            && w2.reservations == w.reservations
            && NoTicketNames(w2.tickets, reservationId)
  {
    var r := w.reservations[i];
    HolderIsTicketOfReservation(w, i, t);
    assert IsFirstTicket(w.tickets, r.ticketId, t) by {
      FirstTicketIsUnique(w.tickets, r.ticketId, t);
    }
    ReleaseClearsHolder(w, i, Delivered);
    CancelReleasesFirst(w, reservationId, i, ResponseLost(error));
    CancelPreservesCoherent(w, reservationId, ResponseLost(error));
  }

  /** The stranding is permanent: after the lost release reply, no sequence of further
      operations (creates, cancels, payments, in any order) lets a cancel of that row
      succeed. */
  lemma LostReleaseReplyStrandsRowForever(w: World, reservationId: string, i: int, t: int, error: string)
    requires Coherent(w)
    requires IsFirstReservation(w.reservations, reservationId, i) && w.reservations[i].status != Cancelled
    requires 0 <= t < |w.tickets| && w.tickets[t].reservationId == Some(reservationId)
    ensures var w2 := CancelReservationStep(w, reservationId, ResponseLost(error)).world;
            forall ops, net :: !CancelReservationStep(Run(w2, ops), reservationId, net).response.success
  {
    var w2 := CancelReservationStep(w, reservationId, ResponseLost(error)).world;
    LostReleaseReplyClearsHolder(w, reservationId, i, t, error);
    forall ops, net ensures !CancelReservationStep(Run(w2, ops), reservationId, net).response.success {
      StrandedRowNeverCancels(w2, i, ops, net);
    }
  }

  // ----- ConfirmPayment -----

  /** ConfirmPayment never touches the ticket store. It succeeds exactly for a stored
      reservation that is Reserved or Failed, and then sets only that row's status to
      Paid; otherwise nothing changes. */
  lemma ConfirmPaymentGuards(w: World, reservationId: string)
    ensures ConfirmPaymentStep(w, reservationId).world.tickets == w.tickets
    ensures ConfirmPaymentStep(w, reservationId).world.lastId == w.lastId
    ensures ConfirmPaymentStep(w, reservationId).response.success
            <==> exists i :: IsFirstReservation(w.reservations, reservationId, i)
                             && (w.reservations[i].status == Reserved || w.reservations[i].status == Failed)
    ensures ConfirmPaymentStep(w, reservationId).response.success ==>
              exists i :: IsFirstReservation(w.reservations, reservationId, i)
                          && ConfirmPaymentStep(w, reservationId).world.reservations
                             == w.reservations[i := w.reservations[i].(status := Paid)]
    ensures !ConfirmPaymentStep(w, reservationId).response.success ==> ConfirmPaymentStep(w, reservationId).world == w
    ensures (forall k :: 0 <= k < |w.reservations| ==> w.reservations[k].id != reservationId) ==>
              ConfirmPaymentStep(w, reservationId).response.message == "Reservation with ID " + reservationId + " not found"
    ensures (exists i :: IsFirstReservation(w.reservations, reservationId, i) && w.reservations[i].status == Cancelled) ==>
              ConfirmPaymentStep(w, reservationId).response.message == "Cannot confirm payment for cancelled reservation"
    ensures (exists i :: IsFirstReservation(w.reservations, reservationId, i) && w.reservations[i].status == Paid) ==>
              ConfirmPaymentStep(w, reservationId).response.message == "Reservation is already paid"
    ensures ConfirmPaymentStep(w, reservationId).response.success ==>
              ConfirmPaymentStep(w, reservationId).response.message == "Payment confirmed successfully"
  {
    match GetReservationById(w.reservations, reservationId)
    case None =>
    case Some(r) =>
      var j :| IsFirstReservation(w.reservations, reservationId, j) && r == w.reservations[j];
      forall i | IsFirstReservation(w.reservations, reservationId, i) ensures i == j {
        FirstReservationIsFunctional(w.reservations, reservationId, i, j);
      }
      if r.status != Cancelled && r.status != Paid {
        var u := UpdateStatus(w.reservations, reservationId, Paid).reservations;
        assert u == w.reservations[j := w.reservations[j].(status := Paid)];
      }
  }

  // ----- The status machine -----

  /** The status changes the service can make to a stored row. */
  predicate AllowedChange(from: Status, to: Status) {
    match from
    case Reserved => to == Paid || to == Cancelled
    case Failed => to == Paid || to == Cancelled
    case Paid => to == Cancelled
    case Cancelled => false
  }

  /** Every row of `before` is still in `after`, changed at most in its status and
      only by an allowed change. */
  predicate Evolves(before: seq<Reservation>, after: seq<Reservation>) {
    && |before| <= |after|
    && forall k :: 0 <= k < |before| ==>
         && after[k].(status := before[k].status) == before[k]
         && (after[k].status == before[k].status || AllowedChange(before[k].status, after[k].status))
  }

  lemma EvolvesTransitive(a: seq<Reservation>, b: seq<Reservation>, c: seq<Reservation>)
    requires Evolves(a, b) && Evolves(b, c)
    ensures Evolves(a, c)
  {
  }

  /** `after` keeps every row of `before` unchanged and only appends rows that are
      Reserved or Failed. */
  predicate Extends(before: seq<Reservation>, after: seq<Reservation>) {
    && |before| <= |after|
    && after[..|before|] == before
    && forall k :: |before| <= k < |after| ==> after[k].status == Reserved || after[k].status == Failed
  }

  lemma ExtendsTransitive(a: seq<Reservation>, b: seq<Reservation>, c: seq<Reservation>)
    requires Extends(a, b) && Extends(b, c)
    ensures Extends(a, c)
  {
    assert c[..|b|][..|a|] == c[..|a|];
    forall k | |a| <= k < |c| ensures c[k].status == Reserved || c[k].status == Failed {
      if k < |b| {
        assert c[k] == c[..|b|][k];
      }
    }
  }

  lemma CreateAfterCheckExtends(w: World, request: CreateReservationRequest, env: CreateEnv)
    requires IdsAssigned(w.reservations, w.lastId)
    ensures Extends(w.reservations, CreateAfterCheck(w, request, env).world.reservations)
  {
    if FetchReply(w.tickets, request.ticketId, env.fetch).Success? {
      CreateAppendsOneRow(w, request, env);
    } else {
      assert w.reservations[..|w.reservations|] == w.reservations;
    }
  }

  /** CreateReservation, with any competing creates it races, never touches a stored
      row: it only appends, and every appended row is Reserved or Failed. */
  lemma {:induction false} CreateOnlyAppends(w: World, request: CreateReservationRequest, env: CreateEnv)
    requires Coherent(w)
    ensures Extends(w.reservations, CreateReservationStep(w, request, env).world.reservations)
    decreases env
  {
    if AvailabilityReply(w.tickets, request.ticketId, env.check) {
      var w1 := AfterRival(w, env);
      if env.rival.Some? {
        CreateOnlyAppends(w, env.rival.value.request, env.rival.value.env);
        CreatePreservesCoherent(w, env.rival.value.request, env.rival.value.env);
      } else {
        assert w.reservations[..|w.reservations|] == w.reservations;
      }
      CreateAfterCheckExtends(w1, request, env);
      ExtendsTransitive(w.reservations, w1.reservations, CreateAfterCheck(w1, request, env).world.reservations);
    } else {
      assert w.reservations[..|w.reservations|] == w.reservations;
    }
  }

  /** The operations of the service. */
  datatype Op =
    | CreateOp(request: CreateReservationRequest, env: CreateEnv)
    | CancelOp(reservationId: string, net: Delivery)
    | PayOp(reservationId: string)

  /** The state after one operation: the ticket list keeps its tickets, the log only
      grows, and the counter stays in step with it. */
  function Apply(w: World, op: Op): (r: World)
    ensures SameIds(w.tickets, r.tickets)
    ensures |w.reservations| <= |r.reservations|
    ensures r.lastId + |w.reservations| == w.lastId + |r.reservations|
  {
    match op
    case CreateOp(request, env) => CreateReservationStep(w, request, env).world
    case CancelOp(reservationId, net) => CancelReservationStep(w, reservationId, net).world
    case PayOp(reservationId) => ConfirmPaymentStep(w, reservationId).world
  }

  /** A log that only grew made no status change to a stored row. */
  lemma ExtendsEvolves(before: seq<Reservation>, after: seq<Reservation>)
    requires Extends(before, after)
    ensures Evolves(before, after)
  {
    forall k | 0 <= k < |before| ensures after[k] == before[k] {
      assert after[..|before|][k] == after[k];
    }
  }

  /** Cancel moves at most one live row, the one with that id, to Cancelled. */
  lemma CancelEvolves(w: World, reservationId: string, net: Delivery)
    ensures var after := CancelReservationStep(w, reservationId, net).world.reservations;
            || after == w.reservations
            || exists i :: && IsFirstReservation(w.reservations, reservationId, i)
                           && w.reservations[i].status != Cancelled
                           && after == w.reservations[i := w.reservations[i].(status := Cancelled)]
    ensures Evolves(w.reservations, CancelReservationStep(w, reservationId, net).world.reservations)
  {
    var found := GetReservationById(w.reservations, reservationId);
    if found.Some? && found.value.status != Cancelled {
      var i :| IsFirstReservation(w.reservations, reservationId, i) && found.value == w.reservations[i];
      CancelReleasesFirst(w, reservationId, i, net);
    }
  }

  /** Payment moves at most one row, the one with that id, from Reserved or Failed to Paid. */
  lemma PaymentEvolves(w: World, reservationId: string)
    ensures var after := ConfirmPaymentStep(w, reservationId).world.reservations;
            || after == w.reservations
            || exists i :: && IsFirstReservation(w.reservations, reservationId, i)
                           && (w.reservations[i].status == Reserved || w.reservations[i].status == Failed)
                           && after == w.reservations[i := w.reservations[i].(status := Paid)]
    ensures Evolves(w.reservations, ConfirmPaymentStep(w, reservationId).world.reservations)
  {
    ConfirmPaymentGuards(w, reservationId);
    if ConfirmPaymentStep(w, reservationId).response.success {
      var i :| IsFirstReservation(w.reservations, reservationId, i)
               && ConfirmPaymentStep(w, reservationId).world.reservations
                  == w.reservations[i := w.reservations[i].(status := Paid)];
      var j :| IsFirstReservation(w.reservations, reservationId, j)
               && (w.reservations[j].status == Reserved || w.reservations[j].status == Failed);
      FirstReservationIsFunctional(w.reservations, reservationId, i, j);
    }
  }

  /** Each operation keeps the stores coherent and makes only allowed status changes. */
  lemma ApplyEvolves(w: World, op: Op)
    requires Coherent(w)
    ensures Coherent(Apply(w, op))
    ensures Evolves(w.reservations, Apply(w, op).reservations)
  {
    match op
    case CreateOp(request, env) =>
      CreatePreservesCoherent(w, request, env);
      CreateOnlyAppends(w, request, env);
      ExtendsEvolves(w.reservations, Apply(w, op).reservations);
    case CancelOp(reservationId, net) =>
      CancelPreservesCoherent(w, reservationId, net);
      CancelEvolves(w, reservationId, net);
    case PayOp(reservationId) =>
      PaymentPreservesCoherent(w, reservationId);
      PaymentEvolves(w, reservationId);
  }

  /** The state after a sequence of operations, applied in order. */
  function Run(w: World, ops: seq<Op>): (r: World)
    ensures SameIds(w.tickets, r.tickets)
    ensures |w.reservations| <= |r.reservations|
    ensures r.lastId + |w.reservations| == w.lastId + |r.reservations|
    decreases |ops|
  {
    if |ops| == 0 then w else Run(Apply(w, ops[0]), ops[1..])
  }

  /** Any sequence of operations from a coherent state keeps the stores coherent, and
      every stored row only ever moves along the status machine. */
  lemma {:induction false} RunEvolves(w: World, ops: seq<Op>)
    requires Coherent(w)
    ensures Coherent(Run(w, ops))
    ensures Evolves(w.reservations, Run(w, ops).reservations)
    decreases |ops|
  {
    if |ops| > 0 {
      var w1 := Apply(w, ops[0]);
      ApplyEvolves(w, ops[0]);
      RunEvolves(w1, ops[1..]);
      EvolvesTransitive(w.reservations, w1.reservations, Run(w1, ops[1..]).reservations);
    }
  }

  /** From the seeded start, every reachable state is coherent: every claimed ticket
      is held by a stored, not cancelled reservation for that ticket and customer. */
  lemma ReachableCoherent(ops: seq<Op>)
    ensures Coherent(Run(World(SeedTickets(), [], InitialLastId), ops))
  {
    InitialWorldCoherent();
    RunEvolves(World(SeedTickets(), [], InitialLastId), ops);
  }

  /** Cancelled is final: no sequence of operations changes a cancelled row. */
  lemma CancelledIsFinal(w: World, ops: seq<Op>, k: int)
    requires Coherent(w)
    requires 0 <= k < |w.reservations| && w.reservations[k].status == Cancelled
    ensures k < |Run(w, ops).reservations| && Run(w, ops).reservations[k] == w.reservations[k]
  {
    RunEvolves(w, ops);
  }

  // ----- A row whose ticket no longer names it -----

  /** No ticket names reservation id `id`. */
  predicate NoTicketNames(ts: seq<Ticket>, id: string) {
    forall t :: 0 <= t < |ts| ==> ts[t].reservationId != Some(id)
  }

  /** A cancel of an id no ticket names fails: the release it asks for is refused. */
  lemma CancelWithoutHolderFails(w: World, reservationId: string, net: Delivery)
    requires NoTicketNames(w.tickets, reservationId)
    ensures !CancelReservationStep(w, reservationId, net).response.success
    ensures NoTicketNames(CancelReservationStep(w, reservationId, net).world.tickets, reservationId)
  {
    var found := GetReservationById(w.reservations, reservationId);
    if found.Some? {
      var j :| IsFirstReservation(w.reservations, reservationId, j) && found.value == w.reservations[j];
      assert !Release(w.tickets, found.value.ticketId, reservationId).ok;
    }
  }

  /** A cancel of any reservation only frees tickets, so it makes no ticket name `id`. */
  lemma CancelKeepsNoHolder(w: World, reservationId: string, net: Delivery, id: string)
    requires NoTicketNames(w.tickets, id)
    ensures NoTicketNames(CancelReservationStep(w, reservationId, net).world.tickets, id)
  {
    var found := GetReservationById(w.reservations, reservationId);
    if found.Some? {
      var ts := Release(w.tickets, found.value.ticketId, found.value.id).tickets;
      assert forall t :: 0 <= t < |ts| ==> ts[t] == w.tickets[t] || ts[t].reservationId.None?;
    }
  }

  /** After the pre-check a create claims only under the id it has just handed out,
      which is not the id of any row already stored. */
  lemma CreateAfterCheckKeepsNoHolder(w: World, request: CreateReservationRequest, env: CreateEnv, k: int)
    requires IdsAssigned(w.reservations, w.lastId)
    requires 0 <= k < |w.reservations| && NoTicketNames(w.tickets, w.reservations[k].id)
    ensures NoTicketNames(CreateAfterCheck(w, request, env).world.tickets, w.reservations[k].id)
  {
    var id := w.reservations[k].id;
    var fetched := FetchReply(w.tickets, request.ticketId, env.fetch);
    if fetched.Success? {
      var c := Create(w.reservations, w.lastId, NewReservation(request, fetched.value), env.now);
      NextIdFresh(w.reservations, w.lastId);
      assert c.reservation.id != id;
      var ts := Reserve(w.tickets, request.ticketId, c.reservation.id, request.customerId).tickets;
      forall t | 0 <= t < |ts| ensures ts[t].reservationId != Some(id) {
        if ts[t] != w.tickets[t] {
          assert ts[t].reservationId == Some(c.reservation.id);
        }
      }
    }
  }

  /** The same for a whole create, with the competing creates it races. */
  lemma {:induction false} CreateKeepsNoHolder(w: World, request: CreateReservationRequest, env: CreateEnv, k: int)
    requires Coherent(w)
    requires 0 <= k < |w.reservations| && NoTicketNames(w.tickets, w.reservations[k].id)
    ensures NoTicketNames(CreateReservationStep(w, request, env).world.tickets, w.reservations[k].id)
    decreases env
  {
    if AvailabilityReply(w.tickets, request.ticketId, env.check) {
      var w1 := AfterRival(w, env);
      if env.rival.Some? {
        CreateKeepsNoHolder(w, env.rival.value.request, env.rival.value.env, k);
        CreatePreservesCoherent(w, env.rival.value.request, env.rival.value.env);
        CreateOnlyAppends(w, env.rival.value.request, env.rival.value.env);
        assert w1.reservations[..|w.reservations|][k] == w1.reservations[k];
      }
      CreateAfterCheckKeepsNoHolder(w1, request, env, k);
    }
  }

  /** Once no ticket names a stored row, no sequence of operations makes one name it
      again, and the row keeps its id. */
  lemma {:induction false} RunKeepsNoHolder(w: World, ops: seq<Op>, k: int)
    requires Coherent(w)
    requires 0 <= k < |w.reservations| && NoTicketNames(w.tickets, w.reservations[k].id)
    ensures k < |Run(w, ops).reservations| && Run(w, ops).reservations[k].id == w.reservations[k].id
    ensures NoTicketNames(Run(w, ops).tickets, w.reservations[k].id)
    decreases |ops|
  {
    if |ops| > 0 {
      var w1 := Apply(w, ops[0]);
      ApplyEvolves(w, ops[0]);
      assert w1.reservations[k].(status := w.reservations[k].status) == w.reservations[k];
      if ops[0].CreateOp? {
        CreateKeepsNoHolder(w, ops[0].request, ops[0].env, k);
      } else if ops[0].CancelOp? {
        CancelKeepsNoHolder(w, ops[0].reservationId, ops[0].net, w.reservations[k].id);
      }
      RunKeepsNoHolder(w1, ops[1..], k);
    }
  }

  /** A stored row that no ticket names can never be cancelled, whatever runs first. */
  lemma StrandedRowNeverCancels(w: World, k: int, ops: seq<Op>, net: Delivery)
    requires Coherent(w)
    requires 0 <= k < |w.reservations| && NoTicketNames(w.tickets, w.reservations[k].id)
    ensures !CancelReservationStep(Run(w, ops), w.reservations[k].id, net).response.success
  {
    RunKeepsNoHolder(w, ops, k);
    CancelWithoutHolderFails(Run(w, ops), w.reservations[k].id, net);
  }
}
