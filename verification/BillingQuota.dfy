/** What one billing transaction can do to the load of a month, and when the limit is respected. */
module BillingQuota {
  import opened Common
  import opened BillingLedger
  import opened BillingRules

  /** The monthly limit that applies to a feature, if any. */
  function LimitInForce(cat: Catalog, tenant: string, feature: string): Option<int> {
    var sub := cat.Subscription(tenant);
    if sub.None? || cat.Feature(feature) != Some(MonthlyUsage) then None
    else
      var planFeature := cat.PlanFeature(sub.value.plan, feature);
      if planFeature.None? then None else planFeature.value.limit
  }

  /** The load of a slot does not rise, or is within the limit. */
  predicate Respects(l: Ledger, l': Ledger, slot: Slot, limit: Option<int>) {
    Load(l', slot) <= Load(l, slot) || limit.None? || Load(l', slot) <= limit.value
  }

  /** Both clock readings of the transaction fall in the month it records in. */
  predicate OneMonth(req: Request, now: Instant, later: Instant) {
    req.CheckAndConsume? && req.occurred.None? ==> now.month == later.month
  }

  /** What an unrefused write adds to what is consumed of a slot. */
  function Consumed(l: Ledger, intent: Intent, slot: Slot): int
    requires Fits(l, intent)
  {
    match intent
    case Settle(i, _) =>
      var r := l.reservations[i];
      if slot == Slot(POS_SALES, r.month) then r.amount else 0
    case Record(_, e) => if slot == Slot(e.feature, e.month) then e.amount else 0
    case _ => 0
  }

  /** What an unrefused write adds to what is actively reserved of a slot. */
  function Held(l: Ledger, intent: Intent, slot: Slot): int
    requires Fits(l, intent)
  {
    if slot.feature != POS_SALES then 0
    else
      match intent
      case AddReservation(row) => if row.month == slot.month then row.amount else 0
      case Reactivate(i, month, _) => if month == slot.month then l.reservations[i].amount else 0
      case Settle(i, _) => if l.reservations[i].month == slot.month then 0 - l.reservations[i].amount else 0
      case Free(i) => if l.reservations[i].month == slot.month then 0 - l.reservations[i].amount else 0
      case _ => 0
  }

  lemma UsedAfter(l: Ledger, intent: Intent, slot: Slot)
    requires Fits(l, intent) && Balanced(l, intent)
    ensures Used(Written(l, intent), slot) == Used(l, slot) + Consumed(l, intent, slot)
  {
  }

  lemma ReservedAfter(l: Ledger, intent: Intent, slot: Slot)
    requires Fits(l, intent) && Balanced(l, intent)
    ensures Reserved(Written(l, intent), slot) == Reserved(l, slot) + Held(l, intent, slot)
  {
    match intent
    case AddReservation(row) => ActiveReservedAppend(l.reservations, row, slot.month);
    case Reactivate(i, month, limit) =>
      ActiveReservedUpdate(l.reservations, i, l.reservations[i].(status := Active, month := month, limit := limit),
          slot.month);
    case Settle(i, _) => ActiveReservedUpdate(l.reservations, i, l.reservations[i].(status := Committed), slot.month);
    case Free(i) => ActiveReservedUpdate(l.reservations, i, l.reservations[i].(status := Released), slot.month);
    case Record(_, _) =>
    case Nothing =>
  }

  /**
   How each write moves the load of a slot: reserving, reactivating and recording add their
   amount to their month, releasing takes it away, and committing only moves it from reserved
   to consumed. A refused write moves nothing.
   */
  lemma LoadAfter(l: Ledger, intent: Intent, slot: Slot)
    requires Fits(l, intent) && Balanced(l, intent)
    ensures var l' := Effect(l, intent);
      if Violates(l, intent) then l' == l
      else
        && Used(l', slot) == Used(l, slot) + Consumed(l, intent, slot)
        && Reserved(l', slot) == Reserved(l, slot) + Held(l, intent, slot)
        && Load(l', slot) == Load(l, slot) + Consumed(l, intent, slot) + Held(l, intent, slot)
        && (intent.Settle? ==> Load(l', slot) == Load(l, slot))
  {
    UsedAfter(l, intent, slot);
    ReservedAfter(l, intent, slot);
  }

  /** A reservation is granted only within the limit of the month. */
  lemma ReserveRespects(l: Ledger, cat: Catalog, tenant: string, key: string, payload: Payload, newId: string,
                        now: Instant, slot: Slot)
    requires LedgerOk(l) && FreshId(l, newId)
    ensures var d := DecideReserve(l, cat, tenant, key, payload, newId, now);
      Fits(l, d.intent) && Respects(l, Effect(l, d.intent), slot, LimitInForce(cat, tenant, slot.feature))
  {
    LoadAfter(l, DecideReserve(l, cat, tenant, key, payload, newId, now).intent, slot);
  }

  lemma ConsumeRespects(l: Ledger, cat: Catalog, tenant: string, feature: string, key: string, amount: Amount,
                        occurred: Option<Instant>, resources: Option<nat>, now: Instant, later: Instant, slot: Slot)
    requires !HasPrefix(key, RESERVATION_PREFIX) && (occurred.None? ==> now.month == later.month)
    ensures var d := DecideConsume(l, cat, tenant, feature, key, amount, occurred, resources, now, later);
      Fits(l, d.intent) && Respects(l, Effect(l, d.intent), slot, LimitInForce(cat, tenant, slot.feature))
  {
    LoadAfter(l, DecideConsume(l, cat, tenant, feature, key, amount, occurred, resources, now, later).intent, slot);
  }

  /**
   The quota of one transaction: for every feature and month it either does not raise
   consumed plus reserved or leaves it within the limit of the plan it read.
   */
  lemma TransactionRespectsQuota(l: Ledger, cat: Catalog, tenant: string, req: Request, newId: string,
                                 now: Instant, later: Instant, slot: Slot)
    requires LedgerOk(l) && Proper(l, req, newId) && OneMonth(req, now, later)
    ensures var d := Decide(l, cat, tenant, req, newId, now, later);
      Fits(l, d.intent) && Respects(l, Effect(l, d.intent), slot, LimitInForce(cat, tenant, slot.feature))
  {
    match req
    case Reserve(key, payload) => ReserveRespects(l, cat, tenant, key, payload, newId, now, slot);
    case Commit(key) => LoadAfter(l, DecideCommit(l, key).intent, slot);
    case Release(key) => LoadAfter(l, DecideRelease(l, key).intent, slot);
    case CheckAndConsume(feature, key, amount, occurred, resources) =>
      ConsumeRespects(l, cat, tenant, feature, key, amount, occurred, resources, now, later, slot);
  }

  /** Whatever the ledger and the plan, the transaction respects the quota. */
  ghost predicate AlwaysRespects(req: Request, now: Instant, later: Instant) {
    forall l: Ledger, cat: Catalog, tenant: string, newId: string, slot: Slot ::
      LedgerOk(l) && Proper(l, req, newId) ==>
        RespectsIn(l, cat, tenant, req, newId, now, later, slot)
  }

  predicate RespectsIn(l: Ledger, cat: Catalog, tenant: string, req: Request, newId: string, now: Instant,
                       later: Instant, slot: Slot) {
    var intent := Decide(l, cat, tenant, req, newId, now, later).intent;
    Fits(l, intent) ==> Respects(l, Effect(l, intent), slot, LimitInForce(cat, tenant, slot.feature))
  }

  /** A tenant on a plan that allows `limit` units of the feature a month, until `end`. */
  function OnePlan(feature: string, limit: int, end: Instant): Catalog {
    Catalog(map["tenant" := Subscription(0, "active", end)], map[feature := MonthlyUsage],
            map[(0, feature) := PlanFeature(true, Some(limit))])
  }

  /** A ledger whose only content is one event. */
  function OneEvent(e: Event): Ledger {
    Ledger(map[Slot(e.feature, e.month) := Counter(e.amount, None)], [e], [])
  }

  lemma OneEventOk(e: Event)
    requires !HasPrefix(e.key, RESERVATION_PREFIX)
    ensures LedgerOk(OneEvent(e))
  {
    var l := OneEvent(e);
    forall slot ensures Used(l, slot) == SumEvents(l.events, slot) {
      SumEventsAppend([], e, slot);
      assert [] + [e] == [e];
    }
  }

  /**
   The month boundary. A check-and-consume that was checked in one month and recorded in
   the next can exceed the new month's limit: the quota is guaranteed for every ledger and
   plan if and only if both clock readings fall in the same month (or the caller supplies
   the time of the usage).
   */
  lemma QuotaNeedsOneMonth(req: Request, now: Instant, later: Instant)
    requires req.CheckAndConsume? ==> !HasPrefix(req.key, RESERVATION_PREFIX)
    ensures AlwaysRespects(req, now, later) <==> OneMonth(req, now, later)
  {
    if OneMonth(req, now, later) {
      forall l: Ledger, cat: Catalog, tenant: string, newId: string, slot: Slot | LedgerOk(l) && Proper(l, req, newId)
        ensures RespectsIn(l, cat, tenant, req, newId, now, later, slot)
      {
        TransactionRespectsQuota(l, cat, tenant, req, newId, now, later, slot);
      }
    } else {
      BoundaryExceeds(req, now, later);
    }
  }

  /** The later month already holds as much as the limit; the earlier one is empty. */
  lemma BoundaryExceeds(req: Request, now: Instant, later: Instant)
    requires req.CheckAndConsume? && req.occurred.None? && now.month != later.month
      && !HasPrefix(req.key, RESERVATION_PREFIX)
    ensures !AlwaysRespects(req, now, later)
  {
    var e := Event(req.feature, if req.key == "x" then "y" else "x", req.amount, later.month);
    var l := OneEvent(e);
    var cat := OnePlan(req.feature, req.amount, now);
    var slot := Slot(req.feature, later.month);
    OneEventOk(e);
    assert !HasEvent(l.events, req.feature, req.key);
    assert Load(l, Slot(req.feature, now.month)) == 0 && Load(l, slot) == req.amount;
    LowerActive();
    assert DecideConsume(l, cat, "tenant", req.feature, req.key, req.amount, None, req.resources, now, later).intent
        == RecordUsage(l, cat, "tenant", req.feature, req.key, req.amount, later.month);
    assert LimitInForce(cat, "tenant", slot.feature) == Some(req.amount);
    assert !RespectsIn(l, cat, "tenant", req, "", now, later, slot);
  }

  lemma LowerActive()
    ensures Lower("active") == "active"
  {
  }
}
