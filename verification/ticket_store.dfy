/** The ticket inventory: a fixed list of tickets, each claimed by at most one
    reservation at a time. Every mutating operation runs under one lock in the
    original, so each is one atomic step here. */
module TicketStore {
  import opened Wrappers
  import opened Search

  /** One ticket. `price` is only copied, never computed on. `reservationId` and
      `customerId` are the claimant, None when nobody holds the ticket. */
  datatype Ticket = Ticket(
    id: string,
    eventName: string,
    eventDate: string,
    venue: string,
    price: real,
    isAvailable: bool,
    section: string,
    row: string,
    seat: string,
    reservationId: Option<string>,
    customerId: Option<string>)

  /** A ticket as its constructor leaves it: available, with no claimant. */
  function NewTicket(id: string, eventName: string, eventDate: string, venue: string,
                     price: real, section: string, row: string, seat: string): (t: Ticket)
    ensures t.isAvailable && t.reservationId.None? && t.customerId.None?
  {
    Ticket(id, eventName, eventDate, venue, price, true, section, row, seat, None, None)
  }

  /** Available exactly when there is no claimant; a claimed ticket names both its
      reservation and its customer. */
  predicate ClaimConsistent(t: Ticket) {
    t.isAvailable == t.reservationId.None? && t.isAvailable == t.customerId.None?
  }

  predicate UniqueTicketIds(ts: seq<Ticket>) {
    forall i, j :: 0 <= i < j < |ts| ==> ts[i].id != ts[j].id
  }

  /** The store invariant. */
  predicate TicketsValid(ts: seq<Ticket>) {
    UniqueTicketIds(ts) && forall i :: 0 <= i < |ts| ==> ClaimConsistent(ts[i])
  }

  /** The list only ever changes ticket by ticket in place: same length, same ids. */
  predicate SameIds(ts: seq<Ticket>, us: seq<Ticket>) {
    |ts| == |us| && forall i :: 0 <= i < |ts| ==> ts[i].id == us[i].id
  }

  /** `i` is the ticket `FirstOrDefault(t => t.Id == id)` picks. */
  predicate IsFirstTicket(ts: seq<Ticket>, id: string, i: int) {
    0 <= i < |ts| && ts[i].id == id && forall k :: 0 <= k < i ==> ts[k].id != id
  }

  /** The five tickets the store is seeded with, all available and unclaimed. */
  function SeedTickets(): (ts: seq<Ticket>)
    ensures |ts| == 5 && TicketsValid(ts)
    ensures forall i :: 0 <= i < |ts| ==> ts[i].isAvailable
  {
    var ts := [
      NewTicket("T1001", "Rock Concert", "2025-04-15T19:00:00", "City Arena", 85.50, "A", "1", "12"),
      NewTicket("T1002", "Rock Concert", "2025-04-15T19:00:00", "City Arena", 75.00, "B", "3", "5"),
      NewTicket("T1003", "Classical Symphony", "2025-04-20T18:30:00", "Concert Hall", 120.00, "Premium", "2", "7"),
      NewTicket("T1004", "Basketball Game", "2025-04-22T20:00:00", "Sports Center", 65.00, "Lower", "10", "15"),
      NewTicket("T1005", "Theater Play", "2025-04-25T19:30:00", "City Theater", 95.00, "Orchestra", "5", "8")
    ];
    assert ts[0].id[4] == '1' && ts[1].id[4] == '2' && ts[2].id[4] == '3';
    assert ts[3].id[4] == '4' && ts[4].id[4] == '5';
    assert UniqueTicketIds(ts) by {
      forall i, j | 0 <= i < j < |ts| ensures ts[i].id != ts[j].id {
        assert ts[i].id[4] != ts[j].id[4];
      }
    }
    ts
  }

  /** The index of the ticket with this id that a lookup finds. */
  function FindTicket(ts: seq<Ticket>, id: string): (r: Option<nat>)
    ensures r.Some? ==> IsFirstTicket(ts, id, r.value)
    ensures r.None? ==> forall k :: 0 <= k < |ts| ==> ts[k].id != id
  {
    IndexOfFirst(ts, (t: Ticket) => t.id == id)
  }

  /** GetTicketById: the first ticket with that id, or None for an unknown id. */
  function GetTicketById(ts: seq<Ticket>, id: string): (r: Option<Ticket>)
    ensures r.None? <==> forall k :: 0 <= k < |ts| ==> ts[k].id != id
    ensures r.Some? ==> exists i :: IsFirstTicket(ts, id, i) && r.value == ts[i]
  {
    match FindTicket(ts, id)
    case None => None
    case Some(i) => Some(ts[i])
  }

  /** IsTicketAvailable: false for an unknown id, otherwise the ticket's own flag. */
  function IsTicketAvailable(ts: seq<Ticket>, id: string): (b: bool)
    ensures b <==> exists i :: IsFirstTicket(ts, id, i) && ts[i].isAvailable
  {
    match FindTicket(ts, id)
    case None => false
    case Some(i) => ts[i].isAvailable
  }

  /** The claim a successful ReserveTicket writes. */
  function Claim(t: Ticket, reservationId: string, customerId: string): (c: Ticket)
    ensures c.id == t.id && ClaimConsistent(c)
    ensures !c.isAvailable && c.reservationId == Some(reservationId) && c.customerId == Some(customerId)
    ensures c.(isAvailable := t.isAvailable, reservationId := t.reservationId, customerId := t.customerId) == t
  {
    t.(isAvailable := false, reservationId := Some(reservationId), customerId := Some(customerId))
  }

  /** What a successful ReleaseTicket writes. */
  function Unclaim(t: Ticket): (u: Ticket)
    ensures u.id == t.id && ClaimConsistent(u)
    ensures u.isAvailable && u.reservationId.None? && u.customerId.None?
    ensures u.(isAvailable := t.isAvailable, reservationId := t.reservationId, customerId := t.customerId) == t
  {
    t.(isAvailable := true, reservationId := None, customerId := None)
  }

  /** The ticket list after an operation, and the boolean the operation returned. */
  datatype ClaimResult = ClaimResult(tickets: seq<Ticket>, ok: bool)

  /** ReserveTicket as a check-and-claim: it succeeds exactly when the ticket exists
      and is available, then records the claimant; otherwise nothing changes. */
  function Reserve(ts: seq<Ticket>, ticketId: string, reservationId: string, customerId: string): (r: ClaimResult)
    ensures SameIds(ts, r.tickets)
    ensures r.ok <==> exists i :: IsFirstTicket(ts, ticketId, i) && ts[i].isAvailable
    ensures forall i :: 0 <= i < |ts| ==>
      r.tickets[i] == if r.ok && IsFirstTicket(ts, ticketId, i) then Claim(ts[i], reservationId, customerId) else ts[i]
  {
    match FindTicket(ts, ticketId)
    case None => ClaimResult(ts, false)
    case Some(i) =>
      if !ts[i].isAvailable then ClaimResult(ts, false)
      else ClaimResult(ts[i := Claim(ts[i], reservationId, customerId)], true)
  }

  /** ReleaseTicket: it succeeds exactly when the ticket exists, is claimed, and is
      claimed by this very reservation id; then the ticket is available and unclaimed. */
  function Release(ts: seq<Ticket>, ticketId: string, reservationId: string): (r: ClaimResult)
    ensures SameIds(ts, r.tickets)
    ensures r.ok <==> exists i :: IsFirstTicket(ts, ticketId, i) && !ts[i].isAvailable && ts[i].reservationId == Some(reservationId)
    ensures forall i :: 0 <= i < |ts| ==>
      r.tickets[i] == if r.ok && IsFirstTicket(ts, ticketId, i) then Unclaim(ts[i]) else ts[i]
  {
    match FindTicket(ts, ticketId)
    case None => ClaimResult(ts, false)
    case Some(i) =>
      if ts[i].isAvailable then ClaimResult(ts, false)
      else if ts[i].reservationId != Some(reservationId) then ClaimResult(ts, false)
      else ClaimResult(ts[i := Unclaim(ts[i])], true)
  }

  /** With unique ids, the first ticket with an id is simply the ticket with that id. */
  lemma FirstTicketIsUnique(ts: seq<Ticket>, id: string, i: int)
    requires UniqueTicketIds(ts)
    ensures IsFirstTicket(ts, id, i) <==> 0 <= i < |ts| && ts[i].id == id
  {
  }

  /** Both operations preserve the store invariant. */
  lemma ReservePreservesValid(ts: seq<Ticket>, ticketId: string, reservationId: string, customerId: string)
    requires TicketsValid(ts)
    ensures TicketsValid(Reserve(ts, ticketId, reservationId, customerId).tickets)
  {
  }

  lemma ReleasePreservesValid(ts: seq<Ticket>, ticketId: string, reservationId: string)
    requires TicketsValid(ts)
    ensures TicketsValid(Release(ts, ticketId, reservationId).tickets)
  {
  }

  /** A claim taken and then released with the same reservation id leaves the list as it was. */
  lemma ReserveThenReleaseRestores(ts: seq<Ticket>, ticketId: string, reservationId: string, customerId: string)
    requires TicketsValid(ts)
    requires Reserve(ts, ticketId, reservationId, customerId).ok
    ensures Release(Reserve(ts, ticketId, reservationId, customerId).tickets, ticketId, reservationId)
            == ClaimResult(ts, true)
  {
    var mid := Reserve(ts, ticketId, reservationId, customerId).tickets;
    var i :| IsFirstTicket(ts, ticketId, i) && ts[i].isAvailable;
    assert IsFirstTicket(mid, ticketId, i);
    var after := Release(mid, ticketId, reservationId);
    assert after.ok;
    assert after.tickets == ts;
  }

  /** Two reserves of the same ticket with no release between them cannot both succeed. */
  lemma ReserveIsExclusive(ts: seq<Ticket>, ticketId: string, r1: string, c1: string, r2: string, c2: string)
    requires Reserve(ts, ticketId, r1, c1).ok
    ensures !Reserve(Reserve(ts, ticketId, r1, c1).tickets, ticketId, r2, c2).ok
  {
    var mid := Reserve(ts, ticketId, r1, c1).tickets;
    var i :| IsFirstTicket(ts, ticketId, i) && ts[i].isAvailable;
    assert IsFirstTicket(mid, ticketId, i);
    forall j | IsFirstTicket(mid, ticketId, j) ensures !mid[j].isAvailable {
      assert j == i;
    }
  }

  /** Claimants racing for one ticket, served one at a time as the lock serialises them. */
  datatype Attempt = Attempt(reservationId: string, customerId: string)

  /** The list after every attempt, and how many of them succeeded. */
  function ReserveAll(ts: seq<Ticket>, ticketId: string, attempts: seq<Attempt>): (r: (seq<Ticket>, nat))
    ensures SameIds(ts, r.0)
    ensures r.1 <= |attempts|
    decreases |attempts|
  {
    if |attempts| == 0 then (ts, 0)
    else
      var first := Reserve(ts, ticketId, attempts[0].reservationId, attempts[0].customerId);
      var rest := ReserveAll(first.tickets, ticketId, attempts[1..]);
      (rest.0, rest.1 + if first.ok then 1 else 0)
  }

  /** After an attempt on a claimed ticket, the ticket stays claimed. */
  lemma ClaimedStaysClaimed(ts: seq<Ticket>, ticketId: string, i: int, reservationId: string, customerId: string)
    requires IsFirstTicket(ts, ticketId, i) && !ts[i].isAvailable
    ensures !Reserve(ts, ticketId, reservationId, customerId).ok
    ensures Reserve(ts, ticketId, reservationId, customerId).tickets == ts
  {
  }

  lemma {:induction false} NoneSucceedOnClaimed(ts: seq<Ticket>, ticketId: string, i: int, attempts: seq<Attempt>)
    requires IsFirstTicket(ts, ticketId, i) && !ts[i].isAvailable
    ensures ReserveAll(ts, ticketId, attempts).1 == 0
    decreases |attempts|
  {
    if |attempts| > 0 {
      ClaimedStaysClaimed(ts, ticketId, i, attempts[0].reservationId, attempts[0].customerId);
      NoneSucceedOnClaimed(ts, ticketId, i, attempts[1..]);
    }
  }

  /** N callers reserving one existing, available ticket: exactly one wins; on a
      missing or already claimed ticket nobody does. */
  lemma {:induction false} ExactlyOneWinner(ts: seq<Ticket>, ticketId: string, attempts: seq<Attempt>)
    ensures ReserveAll(ts, ticketId, attempts).1 <= 1
    ensures ReserveAll(ts, ticketId, attempts).1 == 1 <==> |attempts| > 0 && IsTicketAvailable(ts, ticketId)
    decreases |attempts|
  {
    if |attempts| > 0 {
      var a := attempts[0];
      var first := Reserve(ts, ticketId, a.reservationId, a.customerId);
      if first.ok {
        var i :| IsFirstTicket(ts, ticketId, i) && ts[i].isAvailable;
        assert IsFirstTicket(first.tickets, ticketId, i) && !first.tickets[i].isAvailable;
        NoneSucceedOnClaimed(first.tickets, ticketId, i, attempts[1..]);
      } else {
        assert first.tickets == ts;
        ExactlyOneWinner(ts, ticketId, attempts[1..]);
        if |attempts[1..]| > 0 {
          assert !IsTicketAvailable(ts, ticketId);
        }
      }
    }
  }

  /** The ticket store of one process: a list fixed at construction whose tickets
      change only through ReserveTicket and ReleaseTicket. */
  class InMemoryTicketRepository {
    var tickets: seq<Ticket>

    ghost predicate Valid()
      reads this
    {
      TicketsValid(tickets)
    }

    constructor ()
      ensures Valid()
      ensures tickets == SeedTickets()
    {
      tickets := SeedTickets();
    }

    method ReserveTicket(ticketId: string, reservationId: string, customerId: string) returns (ok: bool)
      requires Valid()
      modifies this
      ensures Valid()
      ensures ClaimResult(tickets, ok) == Reserve(old(tickets), ticketId, reservationId, customerId)
    {
      ReservePreservesValid(tickets, ticketId, reservationId, customerId);
      var found := FindTicket(tickets, ticketId);
      if found.None? {
        return false;
      }
      var i := found.value;
      if !tickets[i].isAvailable {
        return false;
      }
      tickets := tickets[i := Claim(tickets[i], reservationId, customerId)];
      return true;
    }

    method ReleaseTicket(ticketId: string, reservationId: string) returns (ok: bool)
      requires Valid()
      modifies this
      ensures Valid()
      ensures ClaimResult(tickets, ok) == Release(old(tickets), ticketId, reservationId)
    {
      ReleasePreservesValid(tickets, ticketId, reservationId);
      var found := FindTicket(tickets, ticketId);
      if found.None? {
        return false;
      }
      var i := found.value;
      if tickets[i].isAvailable {
        return false;
      }
      if tickets[i].reservationId != Some(reservationId) {
        return false;
      }
      tickets := tickets[i := Unclaim(tickets[i])];
      return true;
    }
  }
}
