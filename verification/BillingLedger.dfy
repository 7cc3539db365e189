/**
 The usage ledger of one tenant: counters per feature and month, the append-only event
 log, and reservations. Every query and every unique constraint of the billing tables
 names the tenant, so the tables are kept tenant by tenant.
 */
module BillingLedger {
  import opened Common

  const POS_SALES: string := "pos_sales"
  const RESERVATION_PREFIX: string := "reservation:"

  /** A moment: the calendar month (months since year 0) and the second within it. */
  datatype Instant = Instant(month: int, second: nat) {
    predicate Before(other: Instant) {
      month < other.month || (month == other.month && second < other.second)
    }
  }

  type Amount = a: nat | a >= 1 witness 1

  datatype Slot = Slot(feature: string, month: int)

  datatype Counter = Counter(used: int, limit: Option<int>)

  datatype Event = Event(feature: string, key: string, amount: Amount, month: int)

  /** What the request hash covers; the hash is taken as injective. */
  datatype Payload = Payload(amount: Amount, externalId: Option<string>, metadata: string)

  datatype ReservationStatus = Active | Committed | Released

  /** A reservation of `pos_sales`, the only feature that has reservations. */
  datatype Reservation = Reservation(
    id: string, key: string, hash: Payload, amount: Amount, month: int, limit: Option<int>, status: ReservationStatus)

  datatype Ledger = Ledger(counters: map<Slot, Counter>, events: seq<Event>, reservations: seq<Reservation>)

  const EMPTY: Ledger := Ledger(map[], [], [])

  // ----- Reading -----

  function Used(l: Ledger, slot: Slot): int {
    if slot in l.counters then l.counters[slot].used else 0
  }

  function ActiveReserved(rs: seq<Reservation>, month: int): nat {
    if rs == [] then 0
    else
      var r := rs[|rs| - 1];
      ActiveReserved(rs[..|rs| - 1], month) + Weight(r, month)
  }

  /** What a reservation holds of a month. */
  function Weight(r: Reservation, month: int): nat {
    if r.status.Active? && r.month == month then r.amount else 0
  }

  function Reserved(l: Ledger, slot: Slot): nat {
    if slot.feature == POS_SALES then ActiveReserved(l.reservations, slot.month) else 0
  }

  /** What counts against a limit: consumed and actively reserved. */
  function Load(l: Ledger, slot: Slot): int {
    Used(l, slot) + Reserved(l, slot)
  }

  function SumEvents(events: seq<Event>, slot: Slot): nat {
    if events == [] then 0
    else
      var e := events[|events| - 1];
      SumEvents(events[..|events| - 1], slot) + if Slot(e.feature, e.month) == slot then e.amount else 0
  }

  predicate HasEvent(events: seq<Event>, feature: string, key: string) {
    exists i :: 0 <= i < |events| && events[i].feature == feature && events[i].key == key
  }

  /** The position of the reservation with this idempotency key. */
  function FindReservation(rs: seq<Reservation>, key: string): (i: Option<nat>)
    ensures i.Some? ==> i.value < |rs| && rs[i.value].key == key
    ensures i.None? ==> forall j :: 0 <= j < |rs| ==> rs[j].key != key
  {
    if rs == [] then None
    else if rs[|rs| - 1].key == key then Some(|rs| - 1)
    else FindReservation(rs[..|rs| - 1], key)
  }

  predicate HasPrefix(s: string, p: string) {
    |p| <= |s| && s[..|p|] == p
  }

  function EventKey(r: Reservation): string {
    RESERVATION_PREFIX + r.id
  }

  // ----- Writing: what one transaction may commit -----

  datatype Intent =
    | Nothing
    | AddReservation(row: Reservation)
    | Reactivate(index: nat, month: int, limit: Option<int>)
    | Settle(index: nat, counter: Counter)
    | Free(index: nat)
    | Record(counter: Counter, event: Event)

  predicate Fits(l: Ledger, intent: Intent) {
    match intent
    case Reactivate(i, _, _) => i < |l.reservations|
    case Settle(i, _) => i < |l.reservations|
    case Free(i) => i < |l.reservations|
    case _ => true
  }

  function SettlementOf(r: Reservation): Event {
    Event(POS_SALES, EventKey(r), r.amount, r.month)
  }

  /** A unique constraint refuses the write: the reservation's key, or the event's, is taken. */
  predicate Violates(l: Ledger, intent: Intent)
    requires Fits(l, intent)
  {
    match intent
    case AddReservation(row) => FindReservation(l.reservations, row.key).Some?
    case Settle(i, _) => HasEvent(l.events, POS_SALES, EventKey(l.reservations[i]))
    case Record(_, e) => HasEvent(l.events, e.feature, e.key)
    case _ => false
  }

  function Written(l: Ledger, intent: Intent): Ledger
    requires Fits(l, intent)
  {
    match intent
    case Nothing => l
    case AddReservation(row) => l.(reservations := l.reservations + [row])
    case Reactivate(i, month, limit) =>
      l.(reservations := l.reservations[i := l.reservations[i].(status := Active, month := month, limit := limit)])
    case Settle(i, counter) =>
      var r := l.reservations[i];
      Ledger(l.counters[Slot(POS_SALES, r.month) := counter],
             l.events + [SettlementOf(r)],
             l.reservations[i := r.(status := Committed)])
    case Free(i) => l.(reservations := l.reservations[i := l.reservations[i].(status := Released)])
    case Record(counter, e) =>
      l.(counters := l.counters[Slot(e.feature, e.month) := counter], events := l.events + [e])
  }

  /** The commit; a violated unique constraint rolls everything back. */
  function Effect(l: Ledger, intent: Intent): Ledger
    requires Fits(l, intent)
  {
    if Violates(l, intent) then l else Written(l, intent)
  }

  // ----- The invariant -----

  /** Every counter is the sum of its events. */
  ghost predicate Conserved(l: Ledger) {
    forall slot :: Used(l, slot) == SumEvents(l.events, slot)
  }

  ghost predicate UniqueRows(l: Ledger) {
    && (forall i, j :: 0 <= i < j < |l.reservations| ==>
          l.reservations[i].key != l.reservations[j].key && l.reservations[i].id != l.reservations[j].id)
    && (forall i, j :: 0 <= i < j < |l.events| ==>
          l.events[i].feature != l.events[j].feature || l.events[i].key != l.events[j].key)
  }

  /** Committed reservations are exactly those with an event of their own, same amount and month. */
  ghost predicate Settled(l: Ledger) {
    && (forall i :: 0 <= i < |l.reservations| ==>
          if l.reservations[i].status.Committed? then SettlementOf(l.reservations[i]) in l.events
          else !HasEvent(l.events, POS_SALES, EventKey(l.reservations[i])))
    && (forall j ::
          0 <= j < |l.events| && l.events[j].feature == POS_SALES && HasPrefix(l.events[j].key, RESERVATION_PREFIX) ==>
          exists i :: 0 <= i < |l.reservations| && l.events[j] == SettlementOf(l.reservations[i]))
  }

  ghost predicate LedgerOk(l: Ledger) {
    && Conserved(l) && UniqueRows(l) && Settled(l)
    && (forall i :: 0 <= i < |l.reservations| ==> l.reservations[i].hash.amount == l.reservations[i].amount)
  }

  lemma EmptyOk()
    ensures LedgerOk(EMPTY)
  {
  }

  // ----- Sums -----

  lemma {:induction false} ActiveReservedUpdate(rs: seq<Reservation>, i: nat, r: Reservation, month: int)
    requires i < |rs|
    ensures ActiveReserved(rs[i := r], month)
      == ActiveReserved(rs, month) - Weight(rs[i], month) + Weight(r, month)
  {
    var k := |rs| - 1;
    if i == k {
      assert rs[i := r][..k] == rs[..k];
    } else {
      ActiveReservedUpdate(rs[..k], i, r, month);
      assert rs[i := r][..k] == rs[..k][i := r];
    }
  }

  lemma ActiveReservedAppend(rs: seq<Reservation>, r: Reservation, month: int)
    ensures ActiveReserved(rs + [r], month) == ActiveReserved(rs, month) + Weight(r, month)
  {
    assert (rs + [r])[..|rs|] == rs;
  }

  lemma SumEventsAppend(events: seq<Event>, e: Event, slot: Slot)
    ensures SumEvents(events + [e], slot)
      == SumEvents(events, slot) + if Slot(e.feature, e.month) == slot then e.amount else 0
  {
    assert (events + [e])[..|events|] == events;
  }

  lemma FindUnique(l: Ledger, i: nat)
    requires UniqueRows(l) && i < |l.reservations|
    ensures FindReservation(l.reservations, l.reservations[i].key) == Some(i)
  {
  }
}
