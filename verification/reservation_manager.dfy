/** The reservation orchestrator: a saga over the ticket store (reached through the
    facade, whose calls may fail) and the reservation store, with no transaction
    spanning the two. Each operation is first given as a function from the state of
    both stores (`World`) to the new state and the response; the class methods run the
    same steps against the store objects and are proved equal to those functions. */
module ReservationManager {
  import opened Wrappers
  import opened TicketStore
  import opened ReservationStore
  import opened TicketFacade

  datatype CreateReservationRequest = CreateReservationRequest(
    customerId: string,
    customerName: string,
    customerEmail: string,
    ticketId: string)

  /** The reservation as the service reports it to callers. */
  datatype ReservationDetails = ReservationDetails(
    reservationId: string,
    customerId: string,
    customerName: string,
    customerEmail: string,
    ticketId: string,
    eventName: string,
    eventDate: string,
    venue: string,
    price: real,
    status: Status,
    createdAt: string)

  /** `reservationId` is "" and `reservation` None when the response reports a failure. */
  datatype ReservationResponse = ReservationResponse(
    success: bool,
    message: string,
    reservationId: string,
    reservation: Option<ReservationDetails>)

  datatype CancelReservationResponse = CancelReservationResponse(success: bool, message: string)

  datatype ConfirmPaymentResponse = ConfirmPaymentResponse(success: bool, message: string)

  /** The hard failure a direct lookup raises. */
  datatype RpcError = NotFound(message: string)

  /** What the environment does during one CreateReservation: the fate of each of
      its three remote calls, the clock reading the store stamps, and possibly a
      competing CreateReservation of this service that runs to completion after the
      availability pre-check and before the ticket lookup. */
  datatype CreateEnv = CreateEnv(
    check: Delivery,
    fetch: Delivery,
    reserve: Delivery,
    now: string,
    rival: Option<Rival>)

  datatype Rival = Rival(request: CreateReservationRequest, env: CreateEnv)

  /** The state of both stores. */
  datatype World = World(tickets: seq<Ticket>, reservations: seq<Reservation>, lastId: nat)

  /** The reply carries every stored field unchanged, the id under `reservationId`. */
  function MapToReservationDetails(r: Reservation): (d: ReservationDetails)
    ensures d.reservationId == r.id && d.status == r.status && d.createdAt == r.createdAt
    ensures d.customerId == r.customerId && d.customerName == r.customerName && d.customerEmail == r.customerEmail
    ensures d.ticketId == r.ticketId && d.eventName == r.eventName && d.eventDate == r.eventDate
    ensures d.venue == r.venue && d.price == r.price
  {
    ReservationDetails(r.id, r.customerId, r.customerName, r.customerEmail, r.ticketId,
                       r.eventName, r.eventDate, r.venue, r.price, r.status, r.createdAt)
  }

  /** The details are a field-for-field copy: no two reservations share them. */
  lemma MapToReservationDetailsInjective(a: Reservation, b: Reservation)
    ensures MapToReservationDetails(a) == MapToReservationDetails(b) ==> a == b
  {
  }

  /** The row CreateReservation hands to the store: the request, the ticket's
      snapshot and status Reserved. The store overwrites `id` and `createdAt`. */
  function NewReservation(request: CreateReservationRequest, details: TicketDetails): (r: Reservation)
    ensures r.status == Reserved && r.ticketId == request.ticketId
    ensures r.customerId == request.customerId && r.customerName == request.customerName
    ensures r.customerEmail == request.customerEmail
    ensures r.eventName == details.eventName && r.eventDate == details.eventDate
    ensures r.venue == details.venue && r.price == details.price
  {
    Reservation("", request.customerId, request.customerName, request.customerEmail, request.ticketId,
                details.eventName, details.eventDate, details.venue, details.price, Reserved, "")
  }

  function Rejected(message: string): ReservationResponse {
    ReservationResponse(false, message, "", None)
  }

  datatype CreateOutcome = CreateOutcome(world: World, response: ReservationResponse)
  datatype CancelOutcome = CancelOutcome(world: World, response: CancelReservationResponse)
  datatype PaymentOutcome = PaymentOutcome(world: World, response: ConfirmPaymentResponse)

  /** The state after the competing request, if any, has run. */
  function AfterRival(w: World, env: CreateEnv): (r: World)
    ensures env.rival.None? ==> r == w
    ensures SameIds(w.tickets, r.tickets)
    ensures |w.reservations| <= |r.reservations|
    ensures r.lastId + |w.reservations| == w.lastId + |r.reservations|
    decreases env, 0
  {
    match env.rival
    case None => w
    case Some(rival) => CreateReservationStep(w, rival.request, rival.env).world
  }

  /** CreateReservation: pre-check availability, fetch the ticket's snapshot, store a
      Reserved row, then claim the ticket under the new id; when the claim fails,
      mark the row Failed as compensation. A failed fetch raises, and the raise is
      turned into a failure response before any row exists. */
  function CreateReservationStep(w: World, request: CreateReservationRequest, env: CreateEnv): (r: CreateOutcome)
    ensures |w.reservations| <= |r.world.reservations|
    ensures SameIds(w.tickets, r.world.tickets)
    ensures r.world.lastId + |w.reservations| == w.lastId + |r.world.reservations|
    ensures r.response.success ==>
      && r.response.reservation.Some?
      && r.response.reservation.value.reservationId == r.response.reservationId
      && r.response.reservation.value.status == Reserved
      && r.response.reservation.value.ticketId == request.ticketId
      && r.response.reservation.value.customerId == request.customerId
    ensures !r.response.success ==> r.response.reservationId == "" && r.response.reservation.None?
    decreases env, 1
  {
    if !AvailabilityReply(w.tickets, request.ticketId, env.check) then
      CreateOutcome(w, Rejected("Ticket " + request.ticketId + " is not available"))
    else
      CreateAfterCheck(AfterRival(w, env), request, env)
  }

  /** The part of CreateReservation after a successful pre-check, run on whatever
      state the ticket store is in by then. */
  function CreateAfterCheck(w: World, request: CreateReservationRequest, env: CreateEnv): (r: CreateOutcome)
    ensures |w.reservations| <= |r.world.reservations| <= |w.reservations| + 1
    ensures SameIds(w.tickets, r.world.tickets)
    ensures r.world.lastId + |w.reservations| == w.lastId + |r.world.reservations|
    ensures r.response.success ==>
      && r.response.reservation.Some?
      && r.response.reservation.value.reservationId == r.response.reservationId
      && r.response.reservation.value.status == Reserved
      && r.response.reservation.value.ticketId == request.ticketId
      && r.response.reservation.value.customerId == request.customerId
    ensures !r.response.success ==> r.response.reservationId == "" && r.response.reservation.None?
  {
    match FetchReply(w.tickets, request.ticketId, env.fetch)
    case Failure(error) =>
      CreateOutcome(w, Rejected("Error creating reservation: " + error))
    case Success(details) =>
      var c := Create(w.reservations, w.lastId, NewReservation(request, details), env.now);
      var remote := ReserveReply(w.tickets, request.ticketId, c.reservation.id, request.customerId, env.reserve);
      if !remote.ok then
        CreateOutcome(
          World(remote.tickets, UpdateStatus(c.reservations, c.reservation.id, Failed).reservations, c.lastId),
          Rejected("Failed to reserve ticket: " + remote.message))
      else
        CreateOutcome(
          World(remote.tickets, c.reservations, c.lastId),
          ReservationResponse(true, "Reservation created successfully", c.reservation.id,
                              Some(MapToReservationDetails(c.reservation))))
  }

  /** CancelReservation: release the ticket first, and mark the row Cancelled only
      once the release succeeded. */
  function CancelReservationStep(w: World, reservationId: string, net: Delivery): (r: CancelOutcome)
    ensures SameIds(w.tickets, r.world.tickets)
    ensures |r.world.reservations| == |w.reservations| && r.world.lastId == w.lastId
    ensures r.response.success ==> net.Delivered?
  {
    match GetReservationById(w.reservations, reservationId)
    case None =>
      CancelOutcome(w, CancelReservationResponse(false, "Reservation with ID " + reservationId + " not found"))
    case Some(reservation) =>
      if reservation.status == Cancelled then
        CancelOutcome(w, CancelReservationResponse(false, "Reservation is already cancelled"))
      else
        var remote := ReleaseReply(w.tickets, reservation.ticketId, reservation.id, net);
        if !remote.ok then
          CancelOutcome(w.(tickets := remote.tickets),
                        CancelReservationResponse(false, "Failed to cancel reservation: " + remote.message))
        else
          CancelOutcome(w.(tickets := remote.tickets,
                           reservations := UpdateStatus(w.reservations, reservationId, Cancelled).reservations),
                        CancelReservationResponse(true, "Reservation cancelled successfully"))
  }

  /** ConfirmPayment: local status guards only, no remote call. */
  function ConfirmPaymentStep(w: World, reservationId: string): (r: PaymentOutcome)
    ensures r.world.tickets == w.tickets && r.world.lastId == w.lastId
    ensures |r.world.reservations| == |w.reservations|
  {
    match GetReservationById(w.reservations, reservationId)
    case None =>
      PaymentOutcome(w, ConfirmPaymentResponse(false, "Reservation with ID " + reservationId + " not found"))
    case Some(reservation) =>
      if reservation.status == Cancelled then
        PaymentOutcome(w, ConfirmPaymentResponse(false, "Cannot confirm payment for cancelled reservation"))
      else if reservation.status == Paid then
        PaymentOutcome(w, ConfirmPaymentResponse(false, "Reservation is already paid"))
      else
        PaymentOutcome(w.(reservations := UpdateStatus(w.reservations, reservationId, Paid).reservations),
                       ConfirmPaymentResponse(true, "Payment confirmed successfully"))
  }

  /** Reservation `r` is the live holder of ticket `t`'s claim. */
  predicate HoldsClaim(r: Reservation, t: Ticket) {
    && t.reservationId == Some(r.id)
    && t.customerId == Some(r.customerId)
    && r.ticketId == t.id
    && r.status != Cancelled
  }

  /** Every claimed ticket is held by a stored, not cancelled reservation for that
      very ticket and customer. */
  ghost predicate ClaimBacked(rs: seq<Reservation>, t: Ticket) {
    t.reservationId.Some? ==> exists k :: 0 <= k < |rs| && HoldsClaim(rs[k], t)
  }

  /** The invariant across both stores: each store's own invariant, and no ticket is
      held by anything but a live reservation of this service. */
  ghost predicate Coherent(w: World) {
    && TicketsValid(w.tickets)
    && IdsAssigned(w.reservations, w.lastId)
    && forall i :: 0 <= i < |w.tickets| ==> ClaimBacked(w.reservations, w.tickets[i])
  }

  /** The service as it starts: seeded tickets, an empty log. */
  lemma InitialWorldCoherent()
    ensures Coherent(World(SeedTickets(), [], InitialLastId))
  {
  }

  /** Appending a row keeps every existing claim backed. */
  lemma BackedAfterAppend(rs: seq<Reservation>, x: Reservation, t: Ticket)
    requires ClaimBacked(rs, t)
    ensures ClaimBacked(rs + [x], t)
  {
    if t.reservationId.Some? {
      var k :| 0 <= k < |rs| && HoldsClaim(rs[k], t);
      assert (rs + [x])[k] == rs[k];
    }
  }

  /** A status update to anything but Cancelled keeps every claim backed. */
  lemma BackedAfterLiveUpdate(rs: seq<Reservation>, id: string, status: Status, t: Ticket)
    requires status != Cancelled
    requires ClaimBacked(rs, t)
    ensures ClaimBacked(UpdateStatus(rs, id, status).reservations, t)
  {
    if t.reservationId.Some? {
      var k :| 0 <= k < |rs| && HoldsClaim(rs[k], t);
      assert HoldsClaim(UpdateStatus(rs, id, status).reservations[k], t);
    }
  }

  /** Cancelling a row keeps every claim backed as long as no ticket names that row's id. */
  lemma BackedAfterCancel(rs: seq<Reservation>, id: string, t: Ticket)
    requires t.reservationId != Some(id)
    requires ClaimBacked(rs, t)
    ensures ClaimBacked(UpdateStatus(rs, id, Cancelled).reservations, t)
  {
    if t.reservationId.Some? {
      var k :| 0 <= k < |rs| && HoldsClaim(rs[k], t);
      assert HoldsClaim(UpdateStatus(rs, id, Cancelled).reservations[k], t);
    }
  }

  /** After the claim, every ticket is backed by the log that holds the new row: the
      claimed ticket by the new row itself, every other one as before. */
  lemma ReserveBackedByNewRow(w: World, request: CreateReservationRequest, details: TicketDetails, env: CreateEnv)
    requires Coherent(w)
    ensures var c := Create(w.reservations, w.lastId, NewReservation(request, details), env.now);
            var remote := ReserveReply(w.tickets, request.ticketId, c.reservation.id, request.customerId, env.reserve);
            Coherent(World(remote.tickets, c.reservations, c.lastId))
  {
    var c := Create(w.reservations, w.lastId, NewReservation(request, details), env.now);
    CreateAssignsFreshId(w.reservations, w.lastId, NewReservation(request, details), env.now);
    var stored := c.reservation;
    var remote := ReserveReply(w.tickets, request.ticketId, stored.id, request.customerId, env.reserve);
    ReservePreservesValid(w.tickets, request.ticketId, stored.id, request.customerId);
    forall i | 0 <= i < |remote.tickets| ensures ClaimBacked(c.reservations, remote.tickets[i]) {
      BackedAfterAppend(w.reservations, stored, w.tickets[i]);
      if remote.tickets[i] != w.tickets[i] {
        assert HoldsClaim(c.reservations[|w.reservations|], remote.tickets[i]);
      }
    }
  }

  lemma CreateAfterCheckPreservesCoherent(w: World, request: CreateReservationRequest, env: CreateEnv)
    requires Coherent(w)
    ensures Coherent(CreateAfterCheck(w, request, env).world)
  {
    match FetchReply(w.tickets, request.ticketId, env.fetch)
    case Failure(_) =>
    case Success(details) =>
      ReserveBackedByNewRow(w, request, details, env);
      var c := Create(w.reservations, w.lastId, NewReservation(request, details), env.now);
      var remote := ReserveReply(w.tickets, request.ticketId, c.reservation.id, request.customerId, env.reserve);
      if !remote.ok {
        UpdateStatusKeepsIds(c.reservations, c.lastId, c.reservation.id, Failed);
        forall i | 0 <= i < |remote.tickets|
          ensures ClaimBacked(UpdateStatus(c.reservations, c.reservation.id, Failed).reservations, remote.tickets[i])
        {
          BackedAfterLiveUpdate(c.reservations, c.reservation.id, Failed, remote.tickets[i]);
        }
      }
  }

  lemma {:induction false} CreatePreservesCoherent(w: World, request: CreateReservationRequest, env: CreateEnv)
    requires Coherent(w)
    ensures Coherent(CreateReservationStep(w, request, env).world)
    decreases env
  {
    if AvailabilityReply(w.tickets, request.ticketId, env.check) {
      if env.rival.Some? {
        CreatePreservesCoherent(w, env.rival.value.request, env.rival.value.env);
      }
      CreateAfterCheckPreservesCoherent(AfterRival(w, env), request, env);
    }
  }

  /** In a coherent state a ticket that names a stored reservation is the very ticket
      that reservation was made for. */
  lemma HolderIsTicketOfReservation(w: World, j: int, i: int)
    requires Coherent(w)
    requires 0 <= j < |w.reservations| && 0 <= i < |w.tickets|
    requires w.tickets[i].reservationId == Some(w.reservations[j].id)
    ensures w.tickets[i].id == w.reservations[j].ticketId
  {
    AssignedIdsUnique(w.reservations, w.lastId);
    var k :| 0 <= k < |w.reservations| && HoldsClaim(w.reservations[k], w.tickets[i]);
    assert w.reservations[k].id == w.reservations[j].id;
  }

  /** A successful release under reservation `j`'s id leaves no ticket naming that id. */
  lemma ReleaseClearsHolder(w: World, j: int, net: Delivery)
    requires Coherent(w)
    requires 0 <= j < |w.reservations|
    requires ReleaseReply(w.tickets, w.reservations[j].ticketId, w.reservations[j].id, net).ok
    ensures var ts := ReleaseReply(w.tickets, w.reservations[j].ticketId, w.reservations[j].id, net).tickets;
            forall i :: 0 <= i < |ts| ==> ts[i].reservationId != Some(w.reservations[j].id)
  {
    var r := w.reservations[j];
    var ts := ReleaseReply(w.tickets, r.ticketId, r.id, net).tickets;
    forall i | 0 <= i < |ts| ensures ts[i].reservationId != Some(r.id) {
      if w.tickets[i].reservationId == Some(r.id) {
        HolderIsTicketOfReservation(w, j, i);
        FirstTicketIsUnique(w.tickets, r.ticketId, i);
        assert ts[i] == Unclaim(w.tickets[i]);
      }
    }
  }

  lemma CancelPreservesCoherent(w: World, reservationId: string, net: Delivery)
    requires Coherent(w)
    ensures Coherent(CancelReservationStep(w, reservationId, net).world)
  {
    var rs := w.reservations;
    match GetReservationById(rs, reservationId)
    case None =>
    case Some(reservation) =>
      if reservation.status != Cancelled {
        var remote := ReleaseReply(w.tickets, reservation.ticketId, reservation.id, net);
        ReleasePreservesValid(w.tickets, reservation.ticketId, reservation.id);
        forall i | 0 <= i < |remote.tickets| ensures ClaimBacked(rs, remote.tickets[i]) {
          assert remote.tickets[i] == w.tickets[i] || remote.tickets[i].reservationId.None?;
        }
        if remote.ok {
          var j :| IsFirstReservation(rs, reservationId, j) && reservation == rs[j];
          ReleaseClearsHolder(w, j, net);
          forall i | 0 <= i < |remote.tickets|
            ensures ClaimBacked(UpdateStatus(rs, reservationId, Cancelled).reservations, remote.tickets[i])
          {
            BackedAfterCancel(rs, reservationId, remote.tickets[i]);
          }
          UpdateStatusKeepsIds(rs, w.lastId, reservationId, Cancelled);
        }
      }
  }

  lemma PaymentPreservesCoherent(w: World, reservationId: string)
    requires Coherent(w)
    ensures Coherent(ConfirmPaymentStep(w, reservationId).world)
  {
    var rs := w.reservations;
    UpdateStatusKeepsIds(rs, w.lastId, reservationId, Paid);
    forall i | 0 <= i < |w.tickets| ensures ClaimBacked(UpdateStatus(rs, reservationId, Paid).reservations, w.tickets[i]) {
      BackedAfterLiveUpdate(rs, reservationId, Paid, w.tickets[i]);
    }
  }

  /** The orchestrator of one reservation service process. */
  class ReservationManagerService {
    const repository: InMemoryReservationRepository
    const ticketService: TicketServiceFacade

    /** The state of both stores. */
    ghost function State(): World
      reads repository, ticketService.store
    {
      World(ticketService.store.tickets, repository.reservations, repository.lastId)
    }

    ghost predicate Valid()
      reads repository, ticketService.store
    {
      Coherent(State())
    }

    constructor (repository: InMemoryReservationRepository, ticketService: TicketServiceFacade)
      requires Coherent(World(ticketService.store.tickets, repository.reservations, repository.lastId))
      ensures this.repository == repository && this.ticketService == ticketService
      ensures Valid()
    {
      this.repository := repository;
      this.ticketService := ticketService;
    }

    method CreateReservation(request: CreateReservationRequest, env: CreateEnv) returns (response: ReservationResponse)
      requires Valid()
      modifies repository, ticketService.store
      ensures Valid()
      ensures CreateOutcome(State(), response) == CreateReservationStep(old(State()), request, env)
      decreases env
    {
      CreatePreservesCoherent(State(), request, env);
      var isAvailable := ticketService.CheckAvailabilityAsync(request.ticketId, env.check);
      if !isAvailable {
        return Rejected("Ticket " + request.ticketId + " is not available");
      }
      if env.rival.Some? {
        var rivalResponse := CreateReservation(env.rival.value.request, env.rival.value.env);
      }
      response := CompleteReservation(request, env);
    }

    /** The rest of CreateReservation once the pre-check has passed: fetch, store the
        row, claim, and compensate a failed claim. */
    method CompleteReservation(request: CreateReservationRequest, env: CreateEnv) returns (response: ReservationResponse)
      requires Valid()
      modifies repository, ticketService.store
      ensures Valid()
      ensures CreateOutcome(State(), response) == CreateAfterCheck(old(State()), request, env)
    {
      CreateAfterCheckPreservesCoherent(State(), request, env);
      var ticketDetails := ticketService.GetTicketByIdAsync(request.ticketId, env.fetch);
      if ticketDetails.Failure? {
        return Rejected("Error creating reservation: " + ticketDetails.error);
      }
      var reservation := NewReservation(request, ticketDetails.value);
      var created := repository.CreateReservation(reservation, env.now);
      var success, message := ticketService.ReserveTicketAsync(request.ticketId, created.id, request.customerId, env.reserve);
      if !success {
        var updated := repository.UpdateReservationStatus(created.id, Failed);
        return Rejected("Failed to reserve ticket: " + message);
      }
      response := ReservationResponse(true, "Reservation created successfully", created.id,
                                       Some(MapToReservationDetails(created)));
    }

    /** GetReservation: the reservation's details, or NotFound for an unknown id. */
    function GetReservation(reservationId: string): (r: Result<ReservationDetails, RpcError>)
      reads repository
      ensures r.Failure? <==> forall k :: 0 <= k < |repository.reservations| ==> repository.reservations[k].id != reservationId
      ensures r.Failure? ==> r.error == NotFound("Reservation with ID " + reservationId + " not found")
      ensures r.Success? ==> r.value.reservationId == reservationId
      ensures r.Success? ==> exists i :: IsFirstReservation(repository.reservations, reservationId, i)
                                        && r.value == MapToReservationDetails(repository.reservations[i])
    {
      match GetReservationById(repository.reservations, reservationId)
      case None => Failure(NotFound("Reservation with ID " + reservationId + " not found"))
      case Some(reservation) => Success(MapToReservationDetails(reservation))
    }

    /** GetCustomerReservations: the details of the customer's reservations, in the
        order the store keeps them. */
    method GetCustomerReservations(customerId: string) returns (details: seq<ReservationDetails>)
      ensures |details| == |GetReservationsByCustomerId(repository.reservations, customerId)|
      ensures forall i :: 0 <= i < |details| ==>
        details[i] == MapToReservationDetails(GetReservationsByCustomerId(repository.reservations, customerId)[i])
      ensures forall d :: d in details ==> d.customerId == customerId
    {
      var reservations := GetReservationsByCustomerId(repository.reservations, customerId);
      details := [];
      for i := 0 to |reservations|
        invariant |details| == i
        invariant forall k :: 0 <= k < i ==> details[k] == MapToReservationDetails(reservations[k])
      {
        details := details + [MapToReservationDetails(reservations[i])];
      }
      forall d | d in details ensures d.customerId == customerId {
        var k :| 0 <= k < |details| && details[k] == d;
        assert reservations[k] in reservations;
      }
    }

    method CancelReservation(reservationId: string, net: Delivery) returns (response: CancelReservationResponse)
      requires Valid()
      modifies repository, ticketService.store
      ensures Valid()
      ensures CancelOutcome(State(), response) == CancelReservationStep(old(State()), reservationId, net)
    {
      CancelPreservesCoherent(State(), reservationId, net);
      var reservation := GetReservationById(repository.reservations, reservationId);
      if reservation.None? {
        return CancelReservationResponse(false, "Reservation with ID " + reservationId + " not found");
      }
      if reservation.value.status == Cancelled {
        return CancelReservationResponse(false, "Reservation is already cancelled");
      }
      var success, message := ticketService.ReleaseTicketAsync(reservation.value.ticketId, reservation.value.id, net);
      if !success {
        return CancelReservationResponse(false, "Failed to cancel reservation: " + message);
      }
      var updated := repository.UpdateReservationStatus(reservationId, Cancelled);
      response := CancelReservationResponse(true, "Reservation cancelled successfully");
    }

    /** ConfirmPayment. `paymentMethod` is only logged by the service. */
    method ConfirmPayment(reservationId: string, paymentMethod: string) returns (response: ConfirmPaymentResponse)
      requires Valid()
      modifies repository
      ensures Valid()
      ensures PaymentOutcome(State(), response) == ConfirmPaymentStep(old(State()), reservationId)
    {
      PaymentPreservesCoherent(State(), reservationId);
      var reservation := GetReservationById(repository.reservations, reservationId);
      if reservation.None? {
        return ConfirmPaymentResponse(false, "Reservation with ID " + reservationId + " not found");
      }
      if reservation.value.status == Cancelled {
        return ConfirmPaymentResponse(false, "Cannot confirm payment for cancelled reservation");
      }
      if reservation.value.status == Paid {
        return ConfirmPaymentResponse(false, "Reservation is already paid");
      }
      var updated := repository.UpdateReservationStatus(reservationId, Paid);
      response := ConfirmPaymentResponse(true, "Payment confirmed successfully");
    }
  }
}
