/** The reservation service's view of the ticket service: four remote calls that
    reach the ticket store across a network which may lose a request or a reply.
    The transport itself is not modelled; `Delivery` says what it did to one call. */
module TicketFacade {
  import opened Wrappers
  import opened TicketStore

  /** The fate of one remote call. `RequestLost`: the call never reached the ticket
      store. `ResponseLost`: the store ran the call but the reply did not come back.
      Either way the caller sees a transport exception carrying `error`. */
  datatype Delivery = Delivered | RequestLost(error: string) | ResponseLost(error: string)

  /** The ticket details the ticket service sends back for a lookup. */
  datatype TicketDetails = TicketDetails(
    ticketId: string,
    eventName: string,
    eventDate: string,
    venue: string,
    price: real,
    isAvailable: bool,
    section: string,
    row: string,
    seat: string)

  function DetailsOf(t: Ticket): (d: TicketDetails)
    ensures d.ticketId == t.id && d.isAvailable == t.isAvailable
    ensures d.eventName == t.eventName && d.eventDate == t.eventDate && d.venue == t.venue && d.price == t.price
    ensures d.section == t.section && d.row == t.row && d.seat == t.seat
  {
    TicketDetails(t.id, t.eventName, t.eventDate, t.venue, t.price, t.isAvailable, t.section, t.row, t.seat)
  }

  /** CheckAvailabilityAsync: a transport failure reads as "not available", so a
      `true` answer always comes from the store and names an existing, available ticket. */
  function AvailabilityReply(ts: seq<Ticket>, ticketId: string, net: Delivery): (b: bool)
    ensures b ==> net.Delivered? && exists i :: IsFirstTicket(ts, ticketId, i) && ts[i].isAvailable
    ensures net.Delivered? && (exists i :: IsFirstTicket(ts, ticketId, i) && ts[i].isAvailable) ==> b
  {
    net.Delivered? && IsTicketAvailable(ts, ticketId)
  }

  /** GetTicketByIdAsync: the ticket's details, or the exception that a lookup of an
      unknown ticket or a transport failure raises (rethrown to the caller). */
  function FetchReply(ts: seq<Ticket>, ticketId: string, net: Delivery): (r: Result<TicketDetails, string>)
    ensures r.Success? <==> net.Delivered? && exists i :: 0 <= i < |ts| && ts[i].id == ticketId
    ensures r.Success? ==> exists i :: IsFirstTicket(ts, ticketId, i) && r.value == DetailsOf(ts[i])
  {
    if !net.Delivered? then Failure(net.error)
    else
      match GetTicketById(ts, ticketId)
      case None => Failure("Ticket with ID " + ticketId + " not found")
      case Some(t) => Success(DetailsOf(t))
  }

  /** The ticket list after a remote call, and the (success, message) pair the caller got. */
  datatype RemoteResult = RemoteResult(tickets: seq<Ticket>, ok: bool, message: string)

  /** ReserveTicketAsync: the caller sees success only when the call was delivered and
      the store granted the claim; a lost request leaves the store untouched, a lost
      reply leaves it as the store's own ReserveTicket left it. */
  function ReserveReply(ts: seq<Ticket>, ticketId: string, reservationId: string, customerId: string,
                        net: Delivery): (r: RemoteResult)
    ensures r.ok <==> net.Delivered? && Reserve(ts, ticketId, reservationId, customerId).ok
    ensures r.tickets == if net.RequestLost? then ts else Reserve(ts, ticketId, reservationId, customerId).tickets
    ensures !net.Delivered? ==> r.message == "Error: " + net.error
    ensures net.Delivered? ==> r.message == if r.ok then "Ticket " + ticketId + " successfully reserved"
                                            else "Failed to reserve ticket " + ticketId
  {
    match net
    case RequestLost(error) => RemoteResult(ts, false, "Error: " + error)
    case ResponseLost(error) => RemoteResult(Reserve(ts, ticketId, reservationId, customerId).tickets, false, "Error: " + error)
    case Delivered =>
      var c := Reserve(ts, ticketId, reservationId, customerId);
      RemoteResult(c.tickets, c.ok,
        if c.ok then "Ticket " + ticketId + " successfully reserved" else "Failed to reserve ticket " + ticketId)
  }

  /** ReleaseTicketAsync, with the same translation of transport failures. */
  function ReleaseReply(ts: seq<Ticket>, ticketId: string, reservationId: string, net: Delivery): (r: RemoteResult)
    ensures r.ok <==> net.Delivered? && Release(ts, ticketId, reservationId).ok
    ensures r.tickets == if net.RequestLost? then ts else Release(ts, ticketId, reservationId).tickets
    ensures !net.Delivered? ==> r.message == "Error: " + net.error
    ensures net.Delivered? ==> r.message == if r.ok then "Ticket " + ticketId + " successfully released"
                                            else "Failed to release ticket " + ticketId
  {
    match net
    case RequestLost(error) => RemoteResult(ts, false, "Error: " + error)
    case ResponseLost(error) => RemoteResult(Release(ts, ticketId, reservationId).tickets, false, "Error: " + error)
    case Delivered =>
      var c := Release(ts, ticketId, reservationId);
      RemoteResult(c.tickets, c.ok,
        if c.ok then "Ticket " + ticketId + " successfully released" else "Failed to release ticket " + ticketId)
  }

  /** The client object the orchestrator holds; it reaches the one ticket store. */
  class TicketServiceFacade {
    const store: InMemoryTicketRepository

    constructor (store: InMemoryTicketRepository)
      ensures this.store == store
    {
      this.store := store;
    }

    method CheckAvailabilityAsync(ticketId: string, net: Delivery) returns (isAvailable: bool)
      ensures isAvailable == AvailabilityReply(store.tickets, ticketId, net)
    {
      if !net.Delivered? {
        return false;
      }
      isAvailable := IsTicketAvailable(store.tickets, ticketId);
    }

    method GetTicketByIdAsync(ticketId: string, net: Delivery) returns (r: Result<TicketDetails, string>)
      ensures r == FetchReply(store.tickets, ticketId, net)
    {
      if !net.Delivered? {
        return Failure(net.error);
      }
      var ticket := GetTicketById(store.tickets, ticketId);
      if ticket.None? {
        return Failure("Ticket with ID " + ticketId + " not found");
      }
      r := Success(DetailsOf(ticket.value));
    }

    method ReserveTicketAsync(ticketId: string, reservationId: string, customerId: string, net: Delivery)
      returns (success: bool, message: string)
      requires store.Valid()
      modifies store
      ensures store.Valid()
      ensures RemoteResult(store.tickets, success, message)
              == ReserveReply(old(store.tickets), ticketId, reservationId, customerId, net)
    {
      if net.RequestLost? {
        return false, "Error: " + net.error;
      }
      var ok := store.ReserveTicket(ticketId, reservationId, customerId);
      if net.ResponseLost? {
        return false, "Error: " + net.error;
      }
      success := ok;
      message := if ok then "Ticket " + ticketId + " successfully reserved" else "Failed to reserve ticket " + ticketId;
    }

    method ReleaseTicketAsync(ticketId: string, reservationId: string, net: Delivery)
      returns (success: bool, message: string)
      requires store.Valid()
      modifies store
      ensures store.Valid()
      ensures RemoteResult(store.tickets, success, message)
              == ReleaseReply(old(store.tickets), ticketId, reservationId, net)
    {
      if net.RequestLost? {
        return false, "Error: " + net.error;
      }
      var ok := store.ReleaseTicket(ticketId, reservationId);
      if net.ResponseLost? {
        return false, "Error: " + net.error;
      }
      success := ok;
      message := if ok then "Ticket " + ticketId + " successfully released" else "Failed to release ticket " + ticketId;
    }
  }
}
