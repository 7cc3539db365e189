/** Plans, entitlement checks, and what each billing operation decides to write. */
module BillingRules {
  import opened Common
  import opened BillingLedger

  datatype FeatureType = BooleanFeature | MonthlyUsage | ResourceLimit | OtherType

  datatype PlanFeature = PlanFeature(enabled: bool, limit: Option<int>)

  datatype Subscription = Subscription(plan: nat, status: string, endsAt: Instant)

  /** Latest subscription per tenant, features by key, and features per plan. */
  datatype Catalog = Catalog(
    subscriptions: map<string, Subscription>, features: map<string, FeatureType>,
    planFeatures: map<(nat, string), PlanFeature>)
  {
    function Subscription(tenant: string): Option<Subscription> {
      if tenant in subscriptions then Some(subscriptions[tenant]) else None
    }

    function Feature(key: string): Option<FeatureType> {
      if key in features then Some(features[key]) else None
    }

    /** The feature in the plan; the join drops plan rows of unknown features. */
    function PlanFeature(plan: nat, key: string): Option<PlanFeature> {
      if key in features && (plan, key) in planFeatures then Some(planFeatures[(plan, key)]) else None
    }
  }

  datatype Reason =
    | Allowed | SubscriptionNotFound | SubscriptionExpired | SubscriptionCancelled | PaymentRequired
    | SubscriptionInactive | FeatureNotFound | FeatureNotEnabled | QuotaExceeded | ResourceLimitExceeded

  function LowerChar(c: char): char {
    if 'A' <= c <= 'Z' then (c as int + 32) as char else c
  }

  function Lower(s: string): string {
    seq(|s|, i requires 0 <= i < |s| => LowerChar(s[i]))
  }

  predicate IsActiveStatus(status: string) {
    status == "trialing" || status == "active"
  }

  function DenialReason(sub: Subscription, now: Instant): Option<Reason> {
    var status := Lower(sub.status);
    if sub.endsAt.Before(now) then Some(SubscriptionExpired)
    else if status == "cancelled" || status == "canceled" then Some(SubscriptionCancelled)
    else if status == "past_due" || status == "unpaid" || status == "payment_failed" then Some(PaymentRequired)
    else if !IsActiveStatus(status) then Some(SubscriptionInactive)
    else None
  }

  function Remaining(limit: Option<int>, used: int): Option<int> {
    if limit.None? then None else Some(Max(limit.value - used, 0))
  }

  predicate Exceeds(limit: Option<int>, load: int, amount: int) {
    limit.Some? && load + amount > limit.value
  }

  /** The answer of the entitlement check: the reason and the numbers that come with it. */
  datatype Answer = Answer(reason: Reason, limit: Option<int>, used: Option<int>, remaining: Option<int>)

  function Bare(reason: Reason): Answer {
    Answer(reason, None, None, None)
  }

  /** `_check_entitlement` for the given month. */
  function CheckAnswer(l: Ledger, cat: Catalog, tenant: string, feature: string, amount: Amount,
                       resources: Option<nat>, month: int, now: Instant): Answer
  {
    if cat.Subscription(tenant).None? then Bare(SubscriptionNotFound)
    else
      var sub := cat.Subscription(tenant).value;
      var denial := DenialReason(sub, now);
      var planFeature := cat.PlanFeature(sub.plan, feature);
      if denial.Some? then Bare(denial.value)
      else if cat.Feature(feature).None? then Bare(FeatureNotFound)
      else if planFeature.None? then Answer(FeatureNotEnabled, None, Some(0), None)
      else if !planFeature.value.enabled then Answer(FeatureNotEnabled, planFeature.value.limit, Some(0), None)
      else
        var limit := planFeature.value.limit;
        match cat.Feature(feature).value
        case BooleanFeature => Bare(Allowed)
        case MonthlyUsage =>
          var slot := Slot(feature, month);
          Answer(if Exceeds(limit, Load(l, slot), amount) then QuotaExceeded else Allowed,
                 limit, Some(Used(l, slot)), Remaining(limit, Load(l, slot)))
        case ResourceLimit =>
          if limit.Some? && resources.None? then Answer(ResourceLimitExceeded, limit, None, None)
          else
            var count := if resources.Some? then resources.value else 0;
            Answer(if limit.Some? && count > limit.value then ResourceLimitExceeded else Allowed,
                   limit, if resources.Some? then Some(count) else None, Remaining(limit, count))
        case OtherType => Bare(FeatureNotFound)
  }

  function CheckEntitlement(l: Ledger, cat: Catalog, tenant: string, feature: string, amount: Amount,
                            resources: Option<nat>, month: int, now: Instant): Reason
  {
    CheckAnswer(l, cat, tenant, feature, amount, resources, month, now).reason
  }

  /** The numbers in the answer about a reservation. */
  datatype Numbers = Numbers(month: int, used: int, reserved: nat, limit: Option<int>, remaining: Option<int>)

  function SlotNumbers(l: Ledger, month: int, limit: Option<int>): Numbers {
    var slot := Slot(POS_SALES, month);
    Numbers(month, Used(l, slot), Reserved(l, slot), limit, Remaining(limit, Load(l, slot)))
  }

  /** The limit written on a counter: `_current_monthly_limit`. */
  function CounterLimit(cat: Catalog, tenant: string, feature: string): Option<int> {
    var sub := cat.Subscription(tenant);
    if sub.None? || !IsActiveStatus(sub.value.status) then None
    else
      var planFeature := cat.PlanFeature(sub.value.plan, feature);
      if planFeature.None? || cat.Feature(feature) != Some(MonthlyUsage) then None else planFeature.value.limit
  }

  datatype Request =
    | Reserve(key: string, payload: Payload)
    | Commit(key: string)
    | Release(key: string)
    | CheckAndConsume(feature: string, key: string, amount: Amount, occurred: Option<Instant>, resources: Option<nat>)

  datatype Reply =
    | Granted
    | AlreadyApplied
    | Denied(reason: Reason)
    | IdempotencyConflict | ReservationNotFound | ReservationReleased | ReservationCommitted

  datatype Decision = Decision(intent: Intent, reply: Reply)

  /** What a transaction that has read `l` and `cat` will write; `newId` is the id of a new reservation. */
  function Decide(l: Ledger, cat: Catalog, tenant: string, req: Request, newId: string, now: Instant,
                  later: Instant): Decision {
    match req
    case Reserve(key, payload) => DecideReserve(l, cat, tenant, key, payload, newId, now)
    case Commit(key) => DecideCommit(l, key)
    case Release(key) => DecideRelease(l, key)
    case CheckAndConsume(feature, key, amount, occurred, resources) =>
      DecideConsume(l, cat, tenant, feature, key, amount, occurred, resources, now, later)
  }

  function DecideReserve(l: Ledger, cat: Catalog, tenant: string, key: string, payload: Payload, newId: string,
                         now: Instant): Decision {
    if cat.Subscription(tenant).None? then Decision(Nothing, Denied(SubscriptionNotFound))
    else
      var sub := cat.Subscription(tenant).value;
      var found := FindReservation(l.reservations, key);
      var denial := DenialReason(sub, now);
      var planFeature := cat.PlanFeature(sub.plan, POS_SALES);
      if found.Some? && l.reservations[found.value].hash != payload then Decision(Nothing, IdempotencyConflict)
      else if found.Some? && !l.reservations[found.value].status.Released? then Decision(Nothing, AlreadyApplied)
      else if denial.Some? then Decision(Nothing, Denied(denial.value))
      else if planFeature.None? || !planFeature.value.enabled || cat.Feature(POS_SALES) != Some(MonthlyUsage) then
        Decision(Nothing, Denied(FeatureNotEnabled))
      else if Exceeds(planFeature.value.limit, Load(l, Slot(POS_SALES, now.month)), payload.amount) then
        Decision(Nothing, Denied(QuotaExceeded))
      else if found.Some? then Decision(Reactivate(found.value, now.month, planFeature.value.limit), Granted)
      else
        var row := Reservation(newId, key, payload, payload.amount, now.month, planFeature.value.limit, Active);
        Decision(AddReservation(row), Granted)
  }

  /** The limit of sales in the tenant's plan, for a reservation that got as far as comparing it. */
  function SalesLimit(cat: Catalog, tenant: string): Option<int> {
    var sub := cat.Subscription(tenant);
    if sub.None? || cat.PlanFeature(sub.value.plan, POS_SALES).None? then None
    else cat.PlanFeature(sub.value.plan, POS_SALES).value.limit
  }

  /** The numbers a reservation is answered with: those of its row once written, or those that denied it. */
  function ReserveNumbers(before: Ledger, after: Ledger, cat: Catalog, tenant: string, key: string, now: Instant,
                          reply: Reply): Option<Numbers> {
    match reply
    case Denied(QuotaExceeded) => Some(SlotNumbers(before, now.month, SalesLimit(cat, tenant)))
    case Denied(_) => None
    case IdempotencyConflict => None
    case _ =>
      var found := FindReservation(after.reservations, key);
      if found.None? then None
      else
        var r := after.reservations[found.value];
        Some(SlotNumbers(after, r.month, r.limit))
  }

  function DecideCommit(l: Ledger, key: string): Decision {
    var found := FindReservation(l.reservations, key);
    if found.None? then Decision(Nothing, ReservationNotFound)
    else
      var r := l.reservations[found.value];
      match r.status
      case Released => Decision(Nothing, ReservationReleased)
      case Committed => Decision(Nothing, AlreadyApplied)
      case Active =>
        var counter := Counter(Used(l, Slot(POS_SALES, r.month)) + r.amount, r.limit);
        Decision(Settle(found.value, counter), Granted)
  }

  function DecideRelease(l: Ledger, key: string): Decision {
    var found := FindReservation(l.reservations, key);
    if found.None? then Decision(Nothing, ReservationNotFound)
    else
      match l.reservations[found.value].status
      case Committed => Decision(Nothing, ReservationCommitted)
      case Released => Decision(Nothing, AlreadyApplied)
      case Active => Decision(Free(found.value), Granted)
  }

  /** The check uses the month of one clock reading, the record that of a later one. */
  function DecideConsume(l: Ledger, cat: Catalog, tenant: string, feature: string, key: string, amount: Amount,
                         occurred: Option<Instant>, resources: Option<nat>, now: Instant, later: Instant): Decision
  {
    if HasEvent(l.events, feature, key) then Decision(Nothing, AlreadyApplied)
    else
      var checkedMonth := if occurred.Some? then occurred.value.month else now.month;
      var reason := CheckEntitlement(l, cat, tenant, feature, amount, resources, checkedMonth, now);
      if reason != Allowed then Decision(Nothing, Denied(reason))
      else
        var month := if occurred.Some? then occurred.value.month else later.month;
        Decision(RecordUsage(l, cat, tenant, feature, key, amount, month), Granted)
  }

  /** `_record_usage`. */
  function RecordUsage(l: Ledger, cat: Catalog, tenant: string, feature: string, key: string, amount: Amount,
                       month: int): Intent {
    Record(Counter(Used(l, Slot(feature, month)) + amount, CounterLimit(cat, tenant, feature)),
        Event(feature, key, amount, month))
  }

  /** `consume_usage`: no check and no lock. */
  function DecideUnchecked(l: Ledger, cat: Catalog, tenant: string, feature: string, key: string, amount: Amount,
                           month: int): Intent {
    if HasEvent(l.events, feature, key) then Nothing else RecordUsage(l, cat, tenant, feature, key, amount, month)
  }

  // ----- Hypotheses -----

  /** A client's usage keys do not imitate those of reservations, and a new id is new. */
  predicate Proper(l: Ledger, req: Request, newId: string) {
    && (req.CheckAndConsume? ==> !HasPrefix(req.key, RESERVATION_PREFIX))
    && (req.Reserve? ==> FreshId(l, newId))
  }

  predicate FreshId(l: Ledger, newId: string) {
    && (forall i :: 0 <= i < |l.reservations| ==> l.reservations[i].id != newId)
    && !HasEvent(l.events, POS_SALES, RESERVATION_PREFIX + newId)
  }

  lemma DecisionFits(l: Ledger, cat: Catalog, tenant: string, req: Request, newId: string, now: Instant, later: Instant)
    ensures Fits(l, Decide(l, cat, tenant, req, newId, now, later).intent)
  {
  }

  // ----- Conservation -----

  /** The writes that keep the books: each adds to a counter what it adds to the log. */
  ghost predicate Balanced(l: Ledger, intent: Intent) {
    match intent
    case Settle(i, counter) =>
      i < |l.reservations| && l.reservations[i].status.Active?
      && counter.used == Used(l, Slot(POS_SALES, l.reservations[i].month)) + l.reservations[i].amount
    case Record(counter, e) =>
      counter.used == Used(l, Slot(e.feature, e.month)) + e.amount && !HasPrefix(e.key, RESERVATION_PREFIX)
    case AddReservation(row) => FreshId(l, row.id) && row.hash.amount == row.amount && row.status.Active?
    case Reactivate(i, _, _) => i < |l.reservations| && l.reservations[i].status.Released?
    case Free(i) => i < |l.reservations| && l.reservations[i].status.Active?
    case Nothing => true
  }

  lemma DecisionBalanced(l: Ledger, cat: Catalog, tenant: string, req: Request, newId: string, now: Instant,
                         later: Instant)
    requires Proper(l, req, newId)
    ensures Balanced(l, Decide(l, cat, tenant, req, newId, now, later).intent)
  {
  }

  /** Counting an event keeps a counter equal to its events. */
  lemma Counted(l: Ledger, l': Ledger, counter: Counter, e: Event, slot: Slot)
    requires Used(l, slot) == SumEvents(l.events, slot)
    requires counter.used == Used(l, Slot(e.feature, e.month)) + e.amount
    requires l'.counters == l.counters[Slot(e.feature, e.month) := counter] && l'.events == l.events + [e]
    ensures Used(l', slot) == SumEvents(l'.events, slot)
  {
    SumEventsAppend(l.events, e, slot);
  }

  lemma WrittenConserves(l: Ledger, intent: Intent, slot: Slot)
    requires Conserved(l) && Fits(l, intent) && Balanced(l, intent)
    ensures Used(Written(l, intent), slot) == SumEvents(Written(l, intent).events, slot)
  {
    assert Used(l, slot) == SumEvents(l.events, slot);
    if intent.Settle? {
      Counted(l, Written(l, intent), intent.counter, SettlementOf(l.reservations[intent.index]), slot);
    } else if intent.Record? {
      Counted(l, Written(l, intent), intent.counter, intent.event, slot);
    }
  }

  lemma EffectConserves(l: Ledger, intent: Intent)
    requires Conserved(l) && Fits(l, intent) && Balanced(l, intent)
    ensures Conserved(Effect(l, intent))
  {
    if !Violates(l, intent) {
      forall slot ensures Used(Written(l, intent), slot) == SumEvents(Written(l, intent).events, slot) {
        WrittenConserves(l, intent, slot);
      }
    }
  }

  lemma EffectUnique(l: Ledger, intent: Intent)
    requires UniqueRows(l) && Fits(l, intent) && Balanced(l, intent)
    ensures UniqueRows(Effect(l, intent))
  {
  }

  lemma EventKeysDiffer(a: Reservation, b: Reservation)
    requires a.id != b.id
    ensures EventKey(a) != EventKey(b)
  {
    assert EventKey(a)[|RESERVATION_PREFIX|..] == a.id && EventKey(b)[|RESERVATION_PREFIX|..] == b.id;
  }

  lemma EventKeyHasPrefix(id: string)
    ensures HasPrefix(RESERVATION_PREFIX + id, RESERVATION_PREFIX)
  {
  }

  lemma EffectSettled(l: Ledger, intent: Intent)
    requires UniqueRows(l) && Settled(l) && Fits(l, intent) && Balanced(l, intent)
    ensures Settled(Effect(l, intent))
  {
    var l' := Effect(l, intent);
    match intent
    case Settle(i, _) =>
      forall j | 0 <= j < |l.reservations| && j != i
        ensures EventKey(l.reservations[j]) != EventKey(l.reservations[i])
      {
        EventKeysDiffer(l.reservations[j], l.reservations[i]);
      }
      EventKeyHasPrefix(l.reservations[i].id);
      SettleKeeps(l, i, l');
    case Record(_, e) => RecordKeeps(l, e, l');
    case AddReservation(row) => ReservationsKeep(l, l');
    case Reactivate(_, _, _) => ReservationsKeep(l, l');
    case Free(_) => ReservationsKeep(l, l');
    case Nothing =>
  }

  lemma SettleKeeps(l: Ledger, i: nat, l': Ledger)
    requires Settled(l) && i < |l.reservations| && l.reservations[i].status.Active?
    requires forall j :: 0 <= j < |l.reservations| && j != i ==>
      EventKey(l.reservations[j]) != EventKey(l.reservations[i])
    requires l'.events == l.events + [SettlementOf(l.reservations[i])]
    requires l'.reservations == l.reservations[i := l.reservations[i].(status := Committed)]
    ensures Settled(l')
  {
    var e := SettlementOf(l.reservations[i]);
    forall j | 0 <= j < |l'.reservations|
      ensures if l'.reservations[j].status.Committed? then SettlementOf(l'.reservations[j]) in l'.events
              else !HasEvent(l'.events, POS_SALES, EventKey(l'.reservations[j]))
    {
      if j == i {
        assert l'.events[|l.events|] == e;
      } else {
        assert l'.reservations[j] == l.reservations[j];
        AppendedEvent(l.events, e, POS_SALES, EventKey(l.reservations[j]));
      }
    }
    forall j | 0 <= j < |l'.events| && l'.events[j].feature == POS_SALES
        && HasPrefix(l'.events[j].key, RESERVATION_PREFIX)
      ensures exists k :: 0 <= k < |l'.reservations| && l'.events[j] == SettlementOf(l'.reservations[k])
    {
      if j == |l.events| {
        assert l'.events[j] == SettlementOf(l'.reservations[i]);
      } else {
        var k :| 0 <= k < |l.reservations| && l.events[j] == SettlementOf(l.reservations[k]);
        assert l'.events[j] == SettlementOf(l'.reservations[k]);
      }
    }
  }

  lemma AppendedEvent(events: seq<Event>, e: Event, feature: string, key: string)
    ensures HasEvent(events + [e], feature, key) <==>
      HasEvent(events, feature, key) || (e.feature == feature && e.key == key)
  {
    if HasEvent(events, feature, key) {
      var i :| 0 <= i < |events| && events[i].feature == feature && events[i].key == key;
      assert (events + [e])[i] == events[i];
    }
    if e.feature == feature && e.key == key { assert (events + [e])[|events|] == e; }
  }

  lemma RecordKeeps(l: Ledger, e: Event, l': Ledger)
    requires Settled(l) && !HasPrefix(e.key, RESERVATION_PREFIX)
    requires l'.reservations == l.reservations && (l'.events == l.events || l'.events == l.events + [e])
    ensures Settled(l')
  {
    forall i | 0 <= i < |l'.reservations|
      ensures if l'.reservations[i].status.Committed? then SettlementOf(l'.reservations[i]) in l'.events
              else !HasEvent(l'.events, POS_SALES, EventKey(l'.reservations[i]))
    {
      EventKeyHasPrefix(l.reservations[i].id);
      AppendedEvent(l.events, e, POS_SALES, EventKey(l.reservations[i]));
    }
  }

  /** Changes of reservations that commit nothing. */
  lemma ReservationsKeep(l: Ledger, l': Ledger)
    requires Settled(l) && l'.events == l.events && |l.reservations| <= |l'.reservations|
    requires forall i :: 0 <= i < |l.reservations| ==>
      l'.reservations[i] == l.reservations[i]
      || (!l.reservations[i].status.Committed? && !l'.reservations[i].status.Committed?
          && l'.reservations[i].id == l.reservations[i].id)
    requires forall i :: |l.reservations| <= i < |l'.reservations| ==>
      !l'.reservations[i].status.Committed? && !HasEvent(l.events, POS_SALES, EventKey(l'.reservations[i]))
    ensures Settled(l')
  {
    forall j | 0 <= j < |l'.events| && l'.events[j].feature == POS_SALES
        && HasPrefix(l'.events[j].key, RESERVATION_PREFIX)
      ensures exists k :: 0 <= k < |l'.reservations| && l'.events[j] == SettlementOf(l'.reservations[k])
    {
      var k :| 0 <= k < |l.reservations| && l.events[j] == SettlementOf(l.reservations[k]);
      assert HasEvent(l.events, POS_SALES, EventKey(l.reservations[k]));
      assert l'.reservations[k] == l.reservations[k];
    }
  }

  /** Every write that keeps the books keeps the whole ledger invariant. */
  lemma EffectKeepsLedger(l: Ledger, intent: Intent)
    requires LedgerOk(l) && Fits(l, intent) && Balanced(l, intent)
    ensures LedgerOk(Effect(l, intent))
  {
    EffectConserves(l, intent);
    EffectUnique(l, intent);
    EffectSettled(l, intent);
  }
}
