/** The reservation log: reservations are appended with a fresh id, never removed,
    and afterwards only their status changes. */
module ReservationStore {
  import opened Wrappers
  import opened Search
  import Decimal

  /** The four statuses the service ever writes. */
  datatype Status = Reserved | Paid | Cancelled | Failed

  /** One reservation, with the ticket's event, date, venue and price copied in at
      reservation time. `createdAt` is the clock reading the store stamps. */
  datatype Reservation = Reservation(
    id: string,
    customerId: string,
    customerName: string,
    customerEmail: string,
    ticketId: string,
    eventName: string,
    eventDate: string,
    venue: string,
    price: real,
    status: Status,
    createdAt: string)

  /** The counter's starting value; the first id handed out is one past it. */
  const InitialLastId: nat := 1000

  /** The id the store builds from counter value `n`: "R" followed by its decimal digits. */
  function ReservationIdOf(n: nat): (id: string)
    ensures |id| >= 2 && id[0] == 'R'
  {
    "R" + Decimal.NatToString(n)
  }

  /** After the "R", an id is the decimal numeral whose value is the counter value. */
  lemma ReservationIdOfDigits(n: nat)
    ensures Decimal.AllDigits(ReservationIdOf(n)[1..])
    ensures Decimal.DigitsValue(ReservationIdOf(n)[1..]) == n
  {
    assert ReservationIdOf(n)[1..] == Decimal.NatToString(n);
    Decimal.DigitsValueOfNatToString(n);
  }

  lemma ReservationIdOfInjective(a: nat, b: nat)
    ensures ReservationIdOf(a) == ReservationIdOf(b) ==> a == b
  {
    if ReservationIdOf(a) == ReservationIdOf(b) {
      assert ReservationIdOf(a)[1..] == Decimal.NatToString(a);
      assert ReservationIdOf(b)[1..] == Decimal.NatToString(b);
      Decimal.NatToStringInjective(a, b);
    }
  }

  /** The counter starts at 1000 and is advanced before use, so the first id is R1001. */
  lemma FirstIdIsR1001()
    ensures ReservationIdOf(InitialLastId + 1) == "R1001"
  {
    assert Decimal.NatToString(1) == "1";
    assert Decimal.NatToString(10) == "10";
    assert Decimal.NatToString(100) == "100";
    assert Decimal.NatToString(1001) == "1001";
  }

  /** The store's id discipline: the k-th stored reservation carries the id of counter
      value 1001 + k, and the counter has advanced once per stored reservation. */
  ghost predicate IdsAssigned(rs: seq<Reservation>, lastId: nat) {
    && lastId == InitialLastId + |rs|
    && forall k :: 0 <= k < |rs| ==> rs[k].id == ReservationIdOf(InitialLastId + 1 + k)
  }

  predicate UniqueReservationIds(rs: seq<Reservation>) {
    forall i, j :: 0 <= i < j < |rs| ==> rs[i].id != rs[j].id
  }

  /** Ids handed out by the counter are pairwise distinct. */
  lemma AssignedIdsUnique(rs: seq<Reservation>, lastId: nat)
    requires IdsAssigned(rs, lastId)
    ensures UniqueReservationIds(rs)
  {
    forall i, j | 0 <= i < j < |rs| ensures rs[i].id != rs[j].id {
      ReservationIdOfInjective(InitialLastId + 1 + i, InitialLastId + 1 + j);
    }
  }

  /** The next id differs from every id already stored. */
  lemma NextIdFresh(rs: seq<Reservation>, lastId: nat)
    requires IdsAssigned(rs, lastId)
    ensures forall k :: 0 <= k < |rs| ==> rs[k].id != ReservationIdOf(lastId + 1)
  {
    forall k | 0 <= k < |rs| ensures rs[k].id != ReservationIdOf(lastId + 1) {
      ReservationIdOfInjective(InitialLastId + 1 + k, lastId + 1);
    }
  }

  /** `i` is the reservation `FirstOrDefault(r => r.Id == id)` picks. */
  predicate IsFirstReservation(rs: seq<Reservation>, id: string, i: int) {
    0 <= i < |rs| && rs[i].id == id && forall k :: 0 <= k < i ==> rs[k].id != id
  }

  lemma FirstReservationIsUnique(rs: seq<Reservation>, id: string, i: int)
    requires UniqueReservationIds(rs)
    ensures IsFirstReservation(rs, id, i) <==> 0 <= i < |rs| && rs[i].id == id
  {
  }

  /** At most one position is the first with a given id. */
  lemma FirstReservationIsFunctional(rs: seq<Reservation>, id: string, i: int, j: int)
    requires IsFirstReservation(rs, id, i) && IsFirstReservation(rs, id, j)
    ensures i == j
  {
  }

  function FindReservation(rs: seq<Reservation>, id: string): (r: Option<nat>)
    ensures r.Some? ==> IsFirstReservation(rs, id, r.value)
    ensures r.None? ==> forall k :: 0 <= k < |rs| ==> rs[k].id != id
  {
    IndexOfFirst(rs, (x: Reservation) => x.id == id)
  }

  /** GetReservationById: the first stored reservation with that id, or None. */
  function GetReservationById(rs: seq<Reservation>, id: string): (r: Option<Reservation>)
    ensures r.None? <==> forall k :: 0 <= k < |rs| ==> rs[k].id != id
    ensures r.Some? ==> exists i :: IsFirstReservation(rs, id, i) && r.value == rs[i]
  {
    match FindReservation(rs, id)
    case None => None
    case Some(i) => Some(rs[i])
  }

  /** GetReservationsByCustomerId: the stored reservations of that customer, in the
      order they were stored. */
  function GetReservationsByCustomerId(rs: seq<Reservation>, customerId: string): (r: seq<Reservation>)
    ensures |r| <= |rs|
    ensures forall x :: x in r ==> x in rs && x.customerId == customerId
    ensures forall x :: x in rs && x.customerId == customerId ==> x in r
  {
    if |rs| == 0 then []
    else (if rs[0].customerId == customerId then [rs[0]] else []) + GetReservationsByCustomerId(rs[1..], customerId)
  }

  /** Appending one reservation extends each customer's list at its end, and only the
      list of that reservation's customer: the query keeps insertion order. */
  lemma {:induction false} GetReservationsByCustomerIdAppend(rs: seq<Reservation>, x: Reservation, customerId: string)
    ensures GetReservationsByCustomerId(rs + [x], customerId)
            == GetReservationsByCustomerId(rs, customerId) + (if x.customerId == customerId then [x] else [])
  {
    if |rs| == 0 {
      assert rs + [x] == [x];
    } else {
      assert (rs + [x])[0] == rs[0];
      assert (rs + [x])[1..] == rs[1..] + [x];
      GetReservationsByCustomerIdAppend(rs[1..], x, customerId);
    }
  }

  /** The log, the counter and the stored copy after CreateReservation. */
  datatype Created = Created(reservations: seq<Reservation>, lastId: nat, reservation: Reservation)

  /** CreateReservation: the counter advances by one, the caller's reservation is
      stored under the id built from the new counter value with the clock reading
      `now`, appended after every existing entry, and returned. */
  function Create(rs: seq<Reservation>, lastId: nat, reservation: Reservation, now: string): (r: Created)
    ensures r.lastId == lastId + 1
    ensures r.reservation.id == ReservationIdOf(lastId + 1) && r.reservation.createdAt == now
    ensures r.reservation.(id := reservation.id, createdAt := reservation.createdAt) == reservation
    ensures r.reservations == rs + [r.reservation]
  {
    var stored := reservation.(id := ReservationIdOf(lastId + 1), createdAt := now);
    Created(rs + [stored], lastId + 1, stored)
  }

  /** Under the id discipline, the id Create hands out is new to the log, and the
      discipline still holds afterwards. */
  lemma CreateAssignsFreshId(rs: seq<Reservation>, lastId: nat, reservation: Reservation, now: string)
    requires IdsAssigned(rs, lastId)
    ensures IdsAssigned(Create(rs, lastId, reservation, now).reservations, lastId + 1)
    ensures forall k :: 0 <= k < |rs| ==> rs[k].id != Create(rs, lastId, reservation, now).reservation.id
  {
    NextIdFresh(rs, lastId);
  }

  /** The log after UpdateReservationStatus, and the boolean it returned. */
  datatype Updated = Updated(reservations: seq<Reservation>, ok: bool)

  /** UpdateReservationStatus: false and no change for an unknown id; otherwise the
      status of that reservation becomes `status`, whatever it was, and nothing else changes. */
  function UpdateStatus(rs: seq<Reservation>, id: string, status: Status): (r: Updated)
    ensures |r.reservations| == |rs|
    ensures r.ok <==> exists i :: 0 <= i < |rs| && rs[i].id == id
    ensures forall i :: 0 <= i < |rs| ==>
      r.reservations[i] == if r.ok && IsFirstReservation(rs, id, i) then rs[i].(status := status) else rs[i]
  {
    match FindReservation(rs, id)
    case None => Updated(rs, false)
    case Some(i) => Updated(rs[i := rs[i].(status := status)], true)
  }

  /** A status update keeps every id, so the id discipline survives it. */
  lemma UpdateStatusKeepsIds(rs: seq<Reservation>, lastId: nat, id: string, status: Status)
    requires IdsAssigned(rs, lastId)
    ensures IdsAssigned(UpdateStatus(rs, id, status).reservations, lastId)
  {
  }

  /** The reservation store of one process. */
  class InMemoryReservationRepository {
    var reservations: seq<Reservation>
    var lastId: nat

    ghost predicate Valid()
      reads this
    {
      IdsAssigned(reservations, lastId)
    }

    constructor ()
      ensures Valid()
      ensures reservations == [] && lastId == InitialLastId
    {
      reservations := [];
      lastId := InitialLastId;
    }

    method CreateReservation(reservation: Reservation, now: string) returns (created: Reservation)
      requires Valid()
      modifies this
      ensures Valid()
      ensures Created(reservations, lastId, created) == Create(old(reservations), old(lastId), reservation, now)
    {
      CreateAssignsFreshId(reservations, lastId, reservation, now);
      lastId := lastId + 1;
      created := reservation.(id := ReservationIdOf(lastId), createdAt := now);
      reservations := reservations + [created];
    }

    method UpdateReservationStatus(reservationId: string, status: Status) returns (ok: bool)
      requires Valid()
      modifies this
      ensures Valid()
      ensures lastId == old(lastId)
      ensures Updated(reservations, ok) == UpdateStatus(old(reservations), reservationId, status)
    {
      UpdateStatusKeepsIds(reservations, lastId, reservationId, status);
      var found := FindReservation(reservations, reservationId);
      if found.None? {
        return false;
      }
      var i := found.value;
      reservations := reservations[i := reservations[i].(status := status)];
      return true;
    }
  }
}
