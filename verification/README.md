# Ticket reservation: a verified model

The system sells seats for events through two services.

- **Ticket service.** It keeps a fixed, seeded list of tickets. Each ticket is available or is claimed by exactly one reservation id and customer id.
- **Reservation service.** It keeps an append-only log of reservations. Each id is built from a counter (`R1001`, `R1002`, …), and afterwards only a reservation's status (`Reserved`, `Paid`, `Cancelled`, `Failed`) changes.
- **Orchestrator.** The reservation service's manager runs three operations as a saga across the two services, with no shared transaction:
  - **create:** pre-check availability, fetch the ticket, store a `Reserved` row, then claim the ticket remotely. When the claim fails it marks the row `Failed`.
  - **cancel:** release the ticket remotely, then mark the row `Cancelled`.
  - **confirm payment:** local status guards only.

The model's modules:

- `TicketStore` holds the ticket store.
  - `Reserve` and `Release` are functions on the ticket list.
  - The seed's five tickets are transcribed with their literal event data.
  - The class `InMemoryTicketRepository` updates its `tickets` field in place. Its methods are proved equal to those functions, and they keep the invariant "available ⇔ no claimant" with unique ticket ids.
- `ReservationStore` holds the reservation store.
  - `Create` and `UpdateStatus` are functions on the log and counter.
  - The class `InMemoryReservationRepository` updates `reservations` and `lastId`. It keeps the id discipline (row k carries id `R(1001+k)`), from which id freshness and uniqueness follow.
- `TicketFacade` is the reservation service's client for the ticket service. Each remote call carries a `Delivery`:
  - `Delivered`;
  - `RequestLost` (the store never saw the call);
  - `ResponseLost` (the store ran the call but the reply was lost).

  The client's translation rules hold for transport failures: availability becomes `false`, reserve and release become `(false, "Error: " + error)`, and the lookup raises. A delivered reserve or release carries the ticket service's own message ("Ticket X successfully reserved", "Failed to reserve ticket X", and the same for release).
- `ReservationManager` holds the orchestrator.
  - `CreateReservationStep`, `CancelReservationStep` and `ConfirmPaymentStep` are functions from the state of both stores (`World`) to the new state and the response.
  - The class `ReservationManagerService` runs the same steps against the two store objects, and each method is proved equal to its step function.
  - All three keep `Coherent`, the cross-store invariant: every claimed ticket is held by a stored, not cancelled reservation for that ticket and customer.
  - The check-then-claim race is part of the model. A `CreateEnv` may carry a competing create that runs to completion after this create's availability pre-check and before its ticket lookup. Since the lookup, row creation and claim then follow with nothing in between, the competitor always runs before this create's row is stored.
  - `Coherent` is a closed-world invariant: it holds when the only writers are the operations of this one reservation service process (see "## Left out").
- `SagaProperties` holds the saga's guarantees and their limits:
  - the branches of create, and the race loser;
  - release-before-cancel and safe retry;
  - the stranded row left by a lost release reply;
  - the payment guards;
  - the status machine over any run of operations.
- `Search`, `Decimal` and `Wrappers` are helpers: LINQ's `FirstOrDefault`, decimal rendering of the counter with its inverse, and `Option`/`Result`.

Within the operations and interleavings it covers (listed under "## Left out"), the model follows the code, including where it is more permissive than the status names suggest:

- `ConfirmPayment` accepts a `Failed` row and moves it to `Paid`, because its guards only reject `Cancelled` and `Paid`.
- `Failed` is a status the code writes, although the comment on `Reservation.Status` lists only the other three.

## Model

| member | source | states |
|---|---|---|
| Search.IndexOfFirst | TicketService/Repositories/InMemoryTicketRepository.cs:113 | the index of the first element that matches, or None exactly when no element matches |
| Decimal.NatToString | ReservationService/Repositories/InMemoryReservationRepository.cs:28 | a counter renders as at least one decimal digit, with no leading zero |
| Decimal.DigitsValueOfNatToString | ReservationService/Repositories/InMemoryReservationRepository.cs:28 | reading a rendered counter back gives the counter |
| Decimal.NatToStringInjective | ReservationService/Repositories/InMemoryReservationRepository.cs:28 | distinct counter values render differently |
| TicketStore.NewTicket | TicketService/Models/Ticket.cs:10-15 | a new ticket is available and has no reservation id or customer id |
| TicketStore.SeedTickets | TicketService/Repositories/InMemoryTicketRepository.cs:19-75 | the seed is five tickets with distinct ids, all available and unclaimed |
| TicketStore.FindTicket | TicketService/Repositories/InMemoryTicketRepository.cs:113 | the position a lookup finds is the first ticket with that id, or no ticket has it |
| TicketStore.GetTicketById | TicketService/Repositories/InMemoryTicketRepository.cs:84-89 | None exactly for an unknown id; otherwise the first ticket with that id |
| TicketStore.IsTicketAvailable | TicketService/Repositories/InMemoryTicketRepository.cs:91-104 | true exactly when the first ticket with that id exists and is available (false for an unknown id) |
| TicketStore.Reserve | TicketService/Repositories/InMemoryTicketRepository.cs:106-136 | same ids and length; ok exactly when the ticket exists and is available; on ok only that ticket changes, to unavailable with the given reservation and customer; otherwise nothing changes |
| TicketStore.Release | TicketService/Repositories/InMemoryTicketRepository.cs:138-173 | ok exactly when the ticket exists, is claimed and is claimed by this reservation id; on ok only that ticket changes, to available with both claimant fields cleared; otherwise nothing changes |
| TicketStore.Claim | TicketService/Repositories/InMemoryTicketRepository.cs:127-129 | the claimed ticket is unavailable and names the reservation and customer; every other field, the id and the event data included, is unchanged |
| TicketStore.Unclaim | TicketService/Repositories/InMemoryTicketRepository.cs:165-167 | the released ticket is available and names no reservation or customer; every other field, the id and the event data included, is unchanged |
| TicketStore.FirstTicketIsUnique | TicketService/Repositories/InMemoryTicketRepository.cs:113 | with unique ids, the first ticket with an id is the only ticket with that id |
| TicketStore.ReservePreservesValid | TicketService/Repositories/InMemoryTicketRepository.cs:127-129 | reserve keeps ids unique and keeps "available ⇔ no claimant" |
| TicketStore.ReleasePreservesValid | TicketService/Repositories/InMemoryTicketRepository.cs:165-167 | release keeps ids unique and keeps "available ⇔ no claimant" |
| TicketStore.ReserveThenReleaseRestores | TicketService/Repositories/InMemoryTicketRepository.cs:106-173 | a successful reserve followed by a release with the same reservation id succeeds and restores the list exactly |
| TicketStore.ReserveIsExclusive | TicketService/Repositories/InMemoryTicketRepository.cs:121-125 | two reserves of one ticket with no release between them cannot both succeed |
| TicketStore.ClaimedStaysClaimed | TicketService/Repositories/InMemoryTicketRepository.cs:121-125 | reserving a claimed ticket fails and changes nothing |
| TicketStore.NoneSucceedOnClaimed | TicketService/Repositories/InMemoryTicketRepository.cs:121-125 | any sequence of reserves on a claimed ticket has no winner |
| TicketStore.ReserveAll | TicketService/Repositories/InMemoryTicketRepository.cs:111-135 | serialised reserves keep the ticket ids and win at most once per attempt |
| TicketStore.ExactlyOneWinner | TicketService/Repositories/InMemoryTicketRepository.cs:111-135 | of N serialised reserves of one ticket at most one wins, and exactly one wins iff N > 0 and the ticket exists and is available |
| TicketStore.InMemoryTicketRepository.constructor | TicketService/Repositories/InMemoryTicketRepository.cs:13-75 | the store starts with the seeded list, valid |
| TicketStore.InMemoryTicketRepository.ReserveTicket | TicketService/Repositories/InMemoryTicketRepository.cs:106-136 | the in-place update leaves exactly the list and result of `Reserve`, and keeps the store valid |
| TicketStore.InMemoryTicketRepository.ReleaseTicket | TicketService/Repositories/InMemoryTicketRepository.cs:138-173 | the in-place update leaves exactly the list and result of `Release`, and keeps the store valid |
| ReservationStore.ReservationIdOf | ReservationService/Repositories/InMemoryReservationRepository.cs:28 | an id is "R" plus at least one more character; `ReservationIdOfDigits` proves the rest are the counter's decimal digits |
| ReservationStore.ReservationIdOfDigits | ReservationService/Repositories/InMemoryReservationRepository.cs:28 | after the "R", an id is all decimal digits whose value is the counter value it was built from |
| ReservationStore.ReservationIdOfInjective | ReservationService/Repositories/InMemoryReservationRepository.cs:28 | distinct counter values give distinct ids |
| ReservationStore.FirstIdIsR1001 | ReservationService/Repositories/InMemoryReservationRepository.cs:12 | with the counter at 1000 and advanced before use, the first id is R1001 |
| ReservationStore.AssignedIdsUnique | ReservationService/Repositories/InMemoryReservationRepository.cs:28-31 | ids handed out by the counter are pairwise distinct |
| ReservationStore.NextIdFresh | ReservationService/Repositories/InMemoryReservationRepository.cs:28 | the next id differs from every stored id |
| ReservationStore.FirstReservationIsUnique | ReservationService/Repositories/InMemoryReservationRepository.cs:44 | with unique ids, the first reservation with an id is the only one with it |
| ReservationStore.FirstReservationIsFunctional | ReservationService/Repositories/InMemoryReservationRepository.cs:44 | at most one position is the first with a given id |
| ReservationStore.FindReservation | ReservationService/Repositories/InMemoryReservationRepository.cs:62 | the position found is the first with that id, or none has it |
| ReservationStore.GetReservationById | ReservationService/Repositories/InMemoryReservationRepository.cs:39-45 | None exactly when no stored reservation has the id; otherwise the first one that has it |
| ReservationStore.GetReservationsByCustomerId | ReservationService/Repositories/InMemoryReservationRepository.cs:47-53 | exactly the stored reservations of that customer: every one returned is stored and is theirs, and every stored one of theirs is returned |
| ReservationStore.GetReservationsByCustomerIdAppend | ReservationService/Repositories/InMemoryReservationRepository.cs:52 | appending a reservation extends only its customer's list, at the end: insertion order is kept |
| ReservationStore.Create | ReservationService/Repositories/InMemoryReservationRepository.cs:20-37 | the counter advances by one; the stored and returned reservation has id R(lastId+1), the clock reading and the caller's other fields; it is appended after the unchanged existing entries |
| ReservationStore.CreateAssignsFreshId | ReservationService/Repositories/InMemoryReservationRepository.cs:28-31 | the new id is absent from the log, and the id discipline still holds after the append |
| ReservationStore.UpdateStatus | ReservationService/Repositories/InMemoryReservationRepository.cs:55-77 | ok exactly when some reservation has the id; then only the first such reservation's status changes, to any requested value with no transition check; otherwise nothing changes |
| ReservationStore.UpdateStatusKeepsIds | ReservationService/Repositories/InMemoryReservationRepository.cs:70 | a status update keeps the id discipline |
| ReservationStore.InMemoryReservationRepository.constructor | ReservationService/Repositories/InMemoryReservationRepository.cs:9-12 | an empty log with the counter at 1000 |
| ReservationStore.InMemoryReservationRepository.CreateReservation | ReservationService/Repositories/InMemoryReservationRepository.cs:20-37 | the new log, counter and returned reservation are those of `Create`, and the id discipline is kept |
| ReservationStore.InMemoryReservationRepository.UpdateReservationStatus | ReservationService/Repositories/InMemoryReservationRepository.cs:55-77 | the new log and result are those of `UpdateStatus`, and the counter is unchanged |
| TicketFacade.DetailsOf | TicketService/Services/TicketManagerService.cs:57-68 | the details carry every field of the ticket: id, event name, date, venue, price, availability, section, row and seat |
| TicketFacade.AvailabilityReply | ReservationService/Services/TicketServiceClient.cs:97-112 | true exactly when the call is delivered and the ticket exists and is available; a transport failure reads as false |
| TicketFacade.FetchReply | ReservationService/Services/TicketServiceClient.cs:81-95 | succeeds exactly when delivered and the ticket exists, with that ticket's details; otherwise it raises |
| TicketFacade.ReserveReply | ReservationService/Services/TicketServiceClient.cs:114-136 | success exactly when delivered and the store granted the claim; a lost request leaves the store as it was, a lost reply leaves it as the store's reserve left it; a transport failure reads "Error: " + error, a delivered call "Ticket X successfully reserved" or "Failed to reserve ticket X" |
| TicketFacade.ReleaseReply | ReservationService/Services/TicketServiceClient.cs:138-159 | the same for release, with "Ticket X successfully released" or "Failed to release ticket X" |
| TicketFacade.TicketServiceFacade.constructor | ReservationService/Services/TicketServiceClient.cs:56-63 | the client reaches the given ticket store |
| TicketFacade.TicketServiceFacade.CheckAvailabilityAsync | ReservationService/Services/TicketServiceClient.cs:97-112 | returns `AvailabilityReply` for the store's current tickets |
| TicketFacade.TicketServiceFacade.GetTicketByIdAsync | ReservationService/Services/TicketServiceClient.cs:81-95 | returns `FetchReply` for the store's current tickets |
| TicketFacade.TicketServiceFacade.ReserveTicketAsync | ReservationService/Services/TicketServiceClient.cs:114-136 | leaves the store and returns the pair exactly as `ReserveReply` says, keeping the store valid |
| TicketFacade.TicketServiceFacade.ReleaseTicketAsync | ReservationService/Services/TicketServiceClient.cs:138-159 | leaves the store and returns the pair exactly as `ReleaseReply` says, keeping the store valid |
| ReservationManager.MapToReservationDetailsInjective | ReservationService/Services/ReservationManagerService.cs:254-270 | the details are a field-for-field copy: equal details mean equal reservations |
| ReservationManager.MapToReservationDetails | ReservationService/Services/ReservationManagerService.cs:254-270 | the details carry every stored field unchanged, the id as `reservationId` |
| ReservationManager.NewReservation | ReservationService/Services/ReservationManagerService.cs:50-61 | the row handed to the store is Reserved, carries the request's customer and ticket and the fetched event, date, venue and price |
| ReservationManager.AfterRival | ReservationService/Services/ReservationManagerService.cs:32-47 | a competing create, if any, runs after the pre-check: the tickets keep their ids, the log only grows, and the counter stays in step with it |
| ReservationManager.CreateReservationStep | ReservationService/Services/ReservationManagerService.cs:26-108 | the tickets keep their ids, the log only grows and the counter stays in step with it; a success carries the details of a Reserved row for the requested ticket and customer under the response's id, a failure carries no id and no details |
| ReservationManager.CreateAfterCheck | ReservationService/Services/ReservationManagerService.cs:44-107 | after the pre-check at most one row is appended, with the counter advanced in step; the response shape is that of `CreateReservationStep` |
| ReservationManager.CancelReservationStep | ReservationService/Services/ReservationManagerService.cs:149-203 | the tickets keep their ids, the log keeps its length and the counter its value; success needs a delivered release |
| ReservationManager.ConfirmPaymentStep | ReservationService/Services/ReservationManagerService.cs:205-252 | the tickets and the counter are untouched and the log keeps its length |
| ReservationManager.InitialWorldCoherent | TicketService/Repositories/InMemoryTicketRepository.cs:19-75 | the seeded tickets and the empty log are coherent |
| ReservationManager.BackedAfterAppend | ReservationService/Services/ReservationManagerService.cs:64 | appending a row keeps every claim backed |
| ReservationManager.BackedAfterLiveUpdate | ReservationService/Services/ReservationManagerService.cs:76 | a status change to anything but Cancelled keeps every claim backed |
| ReservationManager.BackedAfterCancel | ReservationService/Services/ReservationManagerService.cs:194 | cancelling a row keeps every claim backed when no ticket names that row |
| ReservationManager.HolderIsTicketOfReservation | ReservationService/Services/ReservationManagerService.cs:177-179 | in a coherent state, a ticket naming a stored reservation is the ticket that reservation was made for |
| ReservationManager.ReleaseClearsHolder | ReservationService/Services/ReservationManagerService.cs:177-191 | after a successful release under a reservation's id, no ticket names that id |
| ReservationManager.ReserveBackedByNewRow | ReservationService/Services/ReservationManagerService.cs:64-70 | after the row is stored and the claim is made, every claimed ticket is backed, the claimed one by the new row |
| ReservationManager.CreateAfterCheckPreservesCoherent | ReservationService/Services/ReservationManagerService.cs:44-107 | fetch, store, claim and compensation keep the stores coherent |
| ReservationManager.CreatePreservesCoherent | ReservationService/Services/ReservationManagerService.cs:26-108 | CreateReservation keeps the stores coherent, including any competing create that runs inside it |
| ReservationManager.CancelPreservesCoherent | ReservationService/Services/ReservationManagerService.cs:149-203 | CancelReservation keeps the stores coherent on every network outcome |
| ReservationManager.PaymentPreservesCoherent | ReservationService/Services/ReservationManagerService.cs:205-252 | ConfirmPayment keeps the stores coherent |
| ReservationManager.ReservationManagerService.constructor | ReservationService/Services/ReservationManagerService.cs:18-24 | the service holds the two given stores, in a coherent state |
| ReservationManager.ReservationManagerService.CreateReservation | ReservationService/Services/ReservationManagerService.cs:26-108 | the new state of both stores and the response are those of `CreateReservationStep`, and coherence is kept |
| ReservationManager.ReservationManagerService.CompleteReservation | ReservationService/Services/ReservationManagerService.cs:44-107 | after the pre-check: the new state and the response are those of `CreateAfterCheck`, and coherence is kept |
| ReservationManager.ReservationManagerService.GetReservation | ReservationService/Services/ReservationManagerService.cs:110-128 | NotFound with the service's message exactly when no reservation has the id; otherwise the details of the first reservation with it |
| ReservationManager.ReservationManagerService.GetCustomerReservations | ReservationService/Services/ReservationManagerService.cs:130-147 | element by element, the details of the customer's reservations in store order, all of that customer |
| ReservationManager.ReservationManagerService.CancelReservation | ReservationService/Services/ReservationManagerService.cs:149-203 | the new state and the response are those of `CancelReservationStep`, and coherence is kept |
| ReservationManager.ReservationManagerService.ConfirmPayment | ReservationService/Services/ReservationManagerService.cs:205-252 | the new state and the response are those of `ConfirmPaymentStep`, and coherence is kept |
| SagaProperties.CreatePrecheckRejects | ReservationService/Services/ReservationManagerService.cs:32-42 | a lost check, an unknown ticket or a taken ticket gives `Success=false` with the "not available" message, and no row |
| SagaProperties.CreateFetchErrorAddsNoRow | ReservationService/Services/ReservationManagerService.cs:47 | tickets are never removed, so even after a competing create the lookup of a pre-checked ticket fails only in transport; that raise becomes "Error creating reservation: " + error, and this request stores no row |
| SagaProperties.CreateAppendsOneRow | ReservationService/Services/ReservationManagerService.cs:47-83 | once the lookup succeeds, exactly one row is appended and no stored row changes; the row has the next id, the request's customer and ticket, the ticket's event snapshot and the clock reading, and ends Reserved on success and Failed otherwise |
| SagaProperties.CreateReturnsStoredRow | ReservationService/Services/ReservationManagerService.cs:85-92 | on success, the response's details are exactly those of the row just stored: every field, customer name and email, event, date, venue, price and clock reading included |
| SagaProperties.CreateClaimOutcome | ReservationService/Services/ReservationManagerService.cs:64-96 | success exactly when the reserve call is delivered and the ticket is still available; then the ticket names the new id and customer and the response carries that id with status Reserved; a failure leaves the tickets unchanged unless the reply was lost |
| SagaProperties.CreateClaimMessage | ReservationService/Services/ReservationManagerService.cs:72-92 | the message is "Reservation created successfully" on success, otherwise "Failed to reserve ticket: " followed by the ticket service's refusal or "Error: " + the transport error |
| SagaProperties.LostReserveReplyLeavesFailedHolder | ReservationService/Services/ReservationManagerService.cs:72-83 | a lost reserve reply after the store granted the claim yields a Failed row that still holds the ticket |
| SagaProperties.CreateSuccessTakesTicket | ReservationService/Services/ReservationManagerService.cs:86-96 | after a successful create the ticket is unavailable |
| SagaProperties.RaceLoserFails | ReservationService/Services/ReservationManagerService.cs:32-70 | when a competing create for the same ticket succeeds after this create's pre-check and before its lookup, this create fails |
| SagaProperties.CancelRejectsWithoutRelease | ReservationService/Services/ReservationManagerService.cs:154-174 | an unknown or already cancelled reservation fails with no change to either store, with "Reservation with ID X not found" or "Reservation is already cancelled" |
| SagaProperties.CancelReleasesFirst | ReservationService/Services/ReservationManagerService.cs:177-202 | success exactly when the release is delivered and granted; only then does the row become Cancelled and the ticket become free; a failure leaves every row as it was |
| SagaProperties.CancelReleaseMessage | ReservationService/Services/ReservationManagerService.cs:181-200 | the message is "Reservation cancelled successfully" on success, otherwise "Failed to cancel reservation: " followed by the ticket service's refusal or "Error: " + the transport error |
| SagaProperties.CancelRetryAfterLostRequest | ReservationService/Services/ReservationManagerService.cs:177-191 | a retry after a lost release request behaves exactly like a first attempt |
| SagaProperties.LostReleaseReplyStrandsRow | ReservationService/Services/ReservationManagerService.cs:177-191 | a lost release reply frees the ticket but keeps the row live; a cancel retried right after fails on any network, and payment is still accepted unless the row is already Paid |
| SagaProperties.LostReleaseReplyClearsHolder | ReservationService/Services/ReservationManagerService.cs:177-191 | after a lost release reply the stores are coherent, the log is unchanged and no ticket names the row |
| SagaProperties.LostReleaseReplyStrandsRowForever | ReservationService/Services/ReservationManagerService.cs:149-252 | after a lost release reply, no sequence of further creates, cancels and payments lets a cancel of that row succeed |
| SagaProperties.ConfirmPaymentGuards | ReservationService/Services/ReservationManagerService.cs:210-251 | no change to the tickets; success exactly for a Reserved or Failed reservation, setting only its status to Paid; otherwise no change; the messages are "Reservation with ID X not found", "Cannot confirm payment for cancelled reservation", "Reservation is already paid" and "Payment confirmed successfully" |
| SagaProperties.EvolvesTransitive | ReservationService/Services/ReservationManagerService.cs:194 | allowed status changes compose: the cancel write here, then the payment write at line 243, in any order and number |
| SagaProperties.ExtendsTransitive | ReservationService/Repositories/InMemoryReservationRepository.cs:31 | append-only growth composes |
| SagaProperties.CreateAfterCheckExtends | ReservationService/Services/ReservationManagerService.cs:44-107 | after the pre-check, create only appends Reserved or Failed rows |
| SagaProperties.CreateOnlyAppends | ReservationService/Services/ReservationManagerService.cs:26-108 | create, with any competing creates, never touches a stored row and only appends Reserved or Failed rows |
| SagaProperties.ExtendsEvolves | ReservationService/Repositories/InMemoryReservationRepository.cs:31 | append-only growth makes no status change |
| SagaProperties.Apply | ReservationService/Services/ReservationManagerService.cs:26-252 | one operation keeps the ticket ids, only grows the log and keeps the counter in step with it |
| SagaProperties.CancelEvolves | ReservationService/Services/ReservationManagerService.cs:194 | the log is unchanged, or only the first row with that id changes, from a live status to Cancelled |
| SagaProperties.PaymentEvolves | ReservationService/Services/ReservationManagerService.cs:243 | the log is unchanged, or only the first row with that id changes, from Reserved or Failed to Paid |
| SagaProperties.ApplyEvolves | ReservationService/Services/ReservationManagerService.cs:26-252 | each operation keeps coherence and changes statuses only along Reserved→{Paid, Cancelled}, Failed→{Paid, Cancelled}, Paid→Cancelled; a row is Failed only from its creation |
| SagaProperties.RunEvolves | ReservationService/Services/ReservationManagerService.cs:26-252 | any sequence of operations keeps coherence and moves every row only along that status machine |
| SagaProperties.Run | ReservationService/Services/ReservationManagerService.cs:26-252 | the same for any sequence of operations |
| SagaProperties.ReachableCoherent | ReservationService/Services/ReservationManagerService.cs:26-252 | from the seeded start, in every reachable state each claimed ticket is held by a live reservation for that ticket and customer |
| SagaProperties.CancelledIsFinal | ReservationService/Services/ReservationManagerService.cs:166-174 | no sequence of operations changes a cancelled row |
| SagaProperties.CancelWithoutHolderFails | ReservationService/Services/ReservationManagerService.cs:177-191 | a cancel of an id no ticket names fails, and no ticket names it afterwards |
| SagaProperties.CancelKeepsNoHolder | ReservationService/Services/ReservationManagerService.cs:177-200 | a cancel of any reservation makes no ticket name an id that no ticket named |
| SagaProperties.CreateAfterCheckKeepsNoHolder | ReservationService/Services/ReservationManagerService.cs:64-70 | after the pre-check, a create claims only under its fresh id, so no ticket comes to name a stored row |
| SagaProperties.CreateKeepsNoHolder | ReservationService/Services/ReservationManagerService.cs:26-108 | the same for a whole create, with any competing creates |
| SagaProperties.RunKeepsNoHolder | ReservationService/Services/ReservationManagerService.cs:26-252 | once no ticket names a stored row, no sequence of operations makes one name it, and the row keeps its id |
| SagaProperties.StrandedRowNeverCancels | ReservationService/Services/ReservationManagerService.cs:149-203 | a stored row that no ticket names can never be cancelled, after any sequence of operations |

## Left out

- Logging, `lock` blocks and `async`/`await`. Each locked region is one atomic method, and each awaited call is an ordinary call.
- Concurrency in general. Only the check-then-claim race is represented: a competing create of the same service may run after the pre-check and before the lookup. Interleavings at other points are not modelled, in particular a competitor that runs after this create's row is stored (ReservationManagerService.cs:64) and before its claim (line 67); there the competitor would take the higher id and could win the ticket, which the race lemmas do not cover.
- Direct calls to the ticket service's public `ReserveTicket` and `ReleaseTicket` endpoints (TicketService/Services/TicketManagerService.cs:88-131) by any client other than this reservation service are not operations of the model. Such a call can claim a ticket under an id the log does not hold, or free a ticket a live row still holds, so `Coherent` and `SagaProperties.ReachableCoherent` hold only when this service is the tickets' sole writer.
- A restart of the reservation service alone. Its log is in memory and its counter restarts at 1000 (InMemoryReservationRepository.cs:12) while the ticket service keeps its claims, so after such a restart old claims name ids the new log does not hold and new ids repeat old ones. The model's `World` holds both stores together and never resets one of them.
- The gRPC transport. Each remote call has one of three fates (`Delivered`, `RequestLost`, `ResponseLost`), and the caller sees the error text of the exception.
- TicketFacade.FetchReply: the exception message is the status detail (for example "Ticket with ID X not found") rather than the full text that the gRPC runtime formats around it.
- `GetAllTickets` and the client's `GetAllTicketsAsync`: read-only listings that the saga never calls.
- The interactive console client and service hosting: I/O only.
- `DateTime.UtcNow`: the clock reading is a parameter (`now`) of create.
- Prices: `double` values that are only copied. The model gives them as `real`.
- `paymentMethod` in `ConfirmPayment`: only logged, so it has no effect in the model.
- ReservationStore.InMemoryReservationRepository.CreateReservation: the counter is unbounded, so the 32-bit wrap-around of `_lastId` after 2^31 − 1001 reservations is not modelled.
- Object aliasing. The store returns and mutates the same `Reservation` object the caller holds. The model gives reservations as values and routes every change through the store, which is the only place the code mutates them.
- Exceptions after the row is created. The store calls and the client's reserve and release calls cannot raise in the model, because the client turns transport exceptions into `(false, message)`. So only the lookup reaches the catch block.
