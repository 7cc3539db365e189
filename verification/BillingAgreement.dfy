/**
 Four ways to ask whether a tenant may register more sales: the entitlement check, a
 reservation, a check-and-consume and the tenant status. They share no code beyond the
 queries, so their agreement is a theorem.
 */
module BillingAgreement {
  import opened Common
  import opened BillingLedger
  import opened BillingRules

  datatype FeatureStatus = FeatureStatus(enabled: bool, limit: Option<int>, used: Option<int>, remaining: Option<int>)

  /** `effective_subscription_status` is active: no denial, and the stored text is an active status. */
  predicate EffectivelyActive(sub: Subscription, now: Instant) {
    DenialReason(sub, now).None? && IsActiveStatus(sub.status)
  }

  /** The entry for one feature in the tenant status; none without a subscription or outside the plan. */
  function StatusOf(l: Ledger, cat: Catalog, tenant: string, feature: string, now: Instant): Option<FeatureStatus> {
    if cat.Subscription(tenant).None? then None
    else
      var sub := cat.Subscription(tenant).value;
      var planFeature := cat.PlanFeature(sub.plan, feature);
      if planFeature.None? then None
      else
        var enabled := planFeature.value.enabled && EffectivelyActive(sub, now);
        var limit := planFeature.value.limit;
        var slot := Slot(feature, now.month);
        if cat.Feature(feature) == Some(MonthlyUsage) then
          Some(FeatureStatus(enabled, limit, Some(Used(l, slot)), Remaining(limit, Load(l, slot))))
        else Some(FeatureStatus(enabled, limit, None, None))
  }

  /** What a client concludes from the status: enabled, and unlimited or enough left. */
  predicate Offers(status: Option<FeatureStatus>, amount: Amount) {
    && status.Some? && status.value.enabled
    && (status.value.limit.None? || (status.value.remaining.Some? && status.value.remaining.value >= amount))
  }

  function ReplyFor(reason: Reason): Reply {
    if reason == Allowed then Granted else Denied(reason)
  }

  /** The key is new, or belongs to a released reservation of the same request. */
  predicate ReservableKey(l: Ledger, key: string, payload: Payload) {
    var found := FindReservation(l.reservations, key);
    found.None? || (l.reservations[found.value].status.Released? && l.reservations[found.value].hash == payload)
  }

  /**
   At one instant, reserving sales grants exactly what the entitlement check allows and
   denies with its reason. When `pos_sales` is not a monthly feature the reservation is
   denied even where the check allows it.
   */
  lemma ReserveAgreesWithCheck(l: Ledger, cat: Catalog, tenant: string, key: string, payload: Payload, newId: string,
                               resources: Option<nat>, now: Instant)
    requires ReservableKey(l, key, payload)
    ensures var check := CheckEntitlement(l, cat, tenant, POS_SALES, payload.amount, resources, now.month, now);
      var reply := DecideReserve(l, cat, tenant, key, payload, newId, now).reply;
      && (cat.Feature(POS_SALES) == Some(MonthlyUsage) ==> reply == ReplyFor(check))
      && (reply == Granted <==> check == Allowed && cat.Feature(POS_SALES) == Some(MonthlyUsage))
  {
    var sub := cat.Subscription(tenant);
    if sub.Some? {
      assert cat.Feature(POS_SALES).None? ==> cat.PlanFeature(sub.value.plan, POS_SALES).None?;
    }
  }

  /** Check-and-consume in the current month answers what the check answers, for every feature and type. */
  lemma ConsumeAgreesWithCheck(l: Ledger, cat: Catalog, tenant: string, feature: string, key: string, amount: Amount,
                               resources: Option<nat>, now: Instant, occurred: Option<Instant>, later: Instant)
    requires !HasEvent(l.events, feature, key) && (occurred.Some? ==> occurred.value.month == now.month)
    ensures DecideConsume(l, cat, tenant, feature, key, amount, occurred, resources, now, later).reply
         == ReplyFor(CheckEntitlement(l, cat, tenant, feature, amount, resources, now.month, now))
  {
  }

  /** The status offers exactly what the check allows to a subscription stored in lower case. */
  lemma StatusAgreesWithCheck(l: Ledger, cat: Catalog, tenant: string, feature: string, amount: Amount,
                              resources: Option<nat>, now: Instant)
    requires cat.Feature(feature) == Some(MonthlyUsage)
    ensures Offers(StatusOf(l, cat, tenant, feature, now), amount) <==>
      CheckEntitlement(l, cat, tenant, feature, amount, resources, now.month, now) == Allowed
      && IsActiveStatus(cat.Subscription(tenant).value.status)
  {
    var sub := cat.Subscription(tenant);
    if sub.Some? && cat.PlanFeature(sub.value.plan, feature).Some? {
      var limit := cat.PlanFeature(sub.value.plan, feature).value.limit;
      RemainingIsRoom(limit, Load(l, Slot(feature, now.month)), amount);
    }
  }

  /** Clamping what remains at zero hides nothing from a request of at least one unit. */
  lemma RemainingIsRoom(limit: Option<int>, load: int, amount: Amount)
    ensures limit.Some? ==> (Remaining(limit, load).value >= amount <==> !Exceeds(limit, load, amount))
  {
  }

  /**
   The four answers coincide: for monthly `pos_sales`, a reservable key not yet consumed, at
   one instant, and a subscription whose status is stored in lower case.
   */
  lemma DecisionsAgree(l: Ledger, cat: Catalog, tenant: string, reserveKey: string, consumeKey: string,
                       payload: Payload, newId: string, resources: Option<nat>, now: Instant)
    requires cat.Feature(POS_SALES) == Some(MonthlyUsage)
    requires ReservableKey(l, reserveKey, payload) && !HasEvent(l.events, POS_SALES, consumeKey)
    requires cat.Subscription(tenant).Some? ==>
      Lower(cat.Subscription(tenant).value.status) == cat.Subscription(tenant).value.status
    ensures var allowed :=
      CheckEntitlement(l, cat, tenant, POS_SALES, payload.amount, resources, now.month, now) == Allowed;
      && (DecideReserve(l, cat, tenant, reserveKey, payload, newId, now).reply == Granted <==> allowed)
      && (DecideConsume(l, cat, tenant, POS_SALES, consumeKey, payload.amount, None, resources, now, now).reply
          == ReplyFor(CheckEntitlement(l, cat, tenant, POS_SALES, payload.amount, resources, now.month, now)))
      && (Offers(StatusOf(l, cat, tenant, POS_SALES, now), payload.amount) <==> allowed)
  {
    ReserveAgreesWithCheck(l, cat, tenant, reserveKey, payload, newId, resources, now);
    ConsumeAgreesWithCheck(l, cat, tenant, POS_SALES, consumeKey, payload.amount, resources, now, None, now);
    StatusAgreesWithCheck(l, cat, tenant, POS_SALES, payload.amount, resources, now);
  }

  // ----- What the reported numbers mean -----

  /**
   The remaining number of the check is exact: whatever amount was asked for, an amount would
   be allowed if and only if it is at most what is reported to remain (or nothing limits it).
   */
  lemma CheckedRemainingIsExact(l: Ledger, cat: Catalog, tenant: string, feature: string, amount: Amount, other: Amount,
                                resources: Option<nat>, month: int, now: Instant)
    requires cat.Feature(feature) == Some(MonthlyUsage)
    requires CheckEntitlement(l, cat, tenant, feature, amount, resources, month, now) in {Allowed, QuotaExceeded}
    ensures var remaining := CheckAnswer(l, cat, tenant, feature, amount, resources, month, now).remaining;
      CheckEntitlement(l, cat, tenant, feature, other, resources, month, now) == Allowed <==>
      (remaining.None? || other <= remaining.value)
  {
    var limit := cat.PlanFeature(cat.Subscription(tenant).value.plan, feature).value.limit;
    RemainingIsRoom(limit, Load(l, Slot(feature, month)), other);
  }

  /** Everything but the quota lets the tenant reserve sales. */
  predicate MaySell(cat: Catalog, tenant: string, now: Instant) {
    var sub := cat.Subscription(tenant);
    && sub.Some? && DenialReason(sub.value, now).None? && cat.Feature(POS_SALES) == Some(MonthlyUsage)
    && var planFeature := cat.PlanFeature(sub.value.plan, POS_SALES);
      planFeature.Some? && planFeature.value.enabled
  }

  lemma RoomDecides(l: Ledger, cat: Catalog, tenant: string, key: string, payload: Payload, newId: string, now: Instant)
    requires MaySell(cat, tenant, now) && ReservableKey(l, key, payload)
    ensures var remaining := SlotNumbers(l, now.month, SalesLimit(cat, tenant)).remaining;
      DecideReserve(l, cat, tenant, key, payload, newId, now).reply == Granted <==>
      (remaining.None? || payload.amount <= remaining.value)
  {
    RemainingIsRoom(SalesLimit(cat, tenant), Load(l, Slot(POS_SALES, now.month)), payload.amount);
  }

  /** A granted reservation is in the current month, under the plan's limit. */
  lemma GrantedNumbers(l: Ledger, cat: Catalog, tenant: string, key: string, payload: Payload, newId: string,
                       now: Instant)
    requires LedgerOk(l) && FreshId(l, newId)
    requires DecideReserve(l, cat, tenant, key, payload, newId, now).reply in {Granted, Denied(QuotaExceeded)}
    ensures var d := DecideReserve(l, cat, tenant, key, payload, newId, now);
      && Fits(l, d.intent) && MaySell(cat, tenant, now)
      && ReserveNumbers(l, Effect(l, d.intent), cat, tenant, key, now, d.reply)
        == Some(SlotNumbers(Effect(l, d.intent), now.month, SalesLimit(cat, tenant)))
  {
    var d := DecideReserve(l, cat, tenant, key, payload, newId, now);
    EffectUnique(l, d.intent);
    if d.intent.Reactivate? { FindUnique(Effect(l, d.intent), d.intent.index); }
  }

  /**
   So is that of a reservation. After one is granted, another is granted at the same instant
   if and only if its amount is at most what was reported to remain; and when one is denied
   for its quota, an amount would have been granted if and only if it is at most that.
   */
  lemma ReservedRemainingIsExact(l: Ledger, cat: Catalog, tenant: string, key: string, payload: Payload, newId: string,
                                 now: Instant, otherKey: string, other: Payload, otherId: string)
    requires LedgerOk(l) && FreshId(l, newId)
    requires DecideReserve(l, cat, tenant, key, payload, newId, now).reply in {Granted, Denied(QuotaExceeded)}
    ensures var d := DecideReserve(l, cat, tenant, key, payload, newId, now);
      && Fits(l, d.intent)
      && var numbers := ReserveNumbers(l, Effect(l, d.intent), cat, tenant, key, now, d.reply);
        && numbers.Some?
        && (ReservableKey(Effect(l, d.intent), otherKey, other) ==>
              (DecideReserve(Effect(l, d.intent), cat, tenant, otherKey, other, otherId, now).reply == Granted <==>
               (numbers.value.remaining.None? || other.amount <= numbers.value.remaining.value)))
  {
    GrantedNumbers(l, cat, tenant, key, payload, newId, now);
    var after := Effect(l, DecideReserve(l, cat, tenant, key, payload, newId, now).intent);
    if ReservableKey(after, otherKey, other) {
      RoomDecides(after, cat, tenant, otherKey, other, otherId, now);
    }
  }

  // ----- Letter case -----

  /** The status and the check agree about this feature for every sound ledger and amount. */
  ghost predicate StatusAlwaysAgrees(cat: Catalog, tenant: string, feature: string, now: Instant) {
    forall l: Ledger, amount: Amount | LedgerOk(l) ::
      Offers(StatusOf(l, cat, tenant, feature, now), amount)
      <==> CheckEntitlement(l, cat, tenant, feature, amount, None, now.month, now) == Allowed
  }

  /** The tenant's plan sells at least one unit of the feature. */
  predicate Sells(cat: Catalog, tenant: string, feature: string) {
    var sub := cat.Subscription(tenant);
    && sub.Some?
    && var planFeature := cat.PlanFeature(sub.value.plan, feature);
      && planFeature.Some? && planFeature.value.enabled
      && (planFeature.value.limit.None? || planFeature.value.limit.value >= 1)
  }

  /**
   The check lowers the stored status before comparing, the status endpoint does not: they
   agree exactly when the plan sells nothing, the subscription is denied anyway, or its
   status is stored in lower case. A status such as `ACTIVE` is allowed to sell but shown
   as disabled.
   */
  lemma StatusAgreesIffLowerCase(cat: Catalog, tenant: string, feature: string, now: Instant)
    requires cat.Feature(feature) == Some(MonthlyUsage)
    ensures StatusAlwaysAgrees(cat, tenant, feature, now) <==>
      !Sells(cat, tenant, feature)
      || DenialReason(cat.Subscription(tenant).value, now).Some?
      || IsActiveStatus(cat.Subscription(tenant).value.status)
  {
    var one: Amount := 1;
    if Sells(cat, tenant, feature) && DenialReason(cat.Subscription(tenant).value, now).None? {
      EmptyOk();
      StatusAgreesWithCheck(EMPTY, cat, tenant, feature, one, None, now);
      assert CheckEntitlement(EMPTY, cat, tenant, feature, one, None, now.month, now) == Allowed;
    }
    if !Sells(cat, tenant, feature) || DenialReason(cat.Subscription(tenant).value, now).Some?
      || IsActiveStatus(cat.Subscription(tenant).value.status)
    {
      forall l: Ledger, amount: Amount | LedgerOk(l)
        ensures Offers(StatusOf(l, cat, tenant, feature, now), amount)
          <==> CheckEntitlement(l, cat, tenant, feature, amount, None, now.month, now) == Allowed
      {
        var slot := Slot(feature, now.month);
        assert Used(l, slot) == SumEvents(l.events, slot);
        StatusAgreesWithCheck(l, cat, tenant, feature, amount, None, now);
      }
    }
  }

  lemma UpperCaseIsShownDisabled(now: Instant)
    ensures exists cat: Catalog, tenant: string ::
      cat.Feature(POS_SALES) == Some(MonthlyUsage) && !StatusAlwaysAgrees(cat, tenant, POS_SALES, now)
  {
    var cat := Catalog(map["tenant" := Subscription(0, "ACTIVE", now)], map[POS_SALES := MonthlyUsage],
                       map[(0, POS_SALES) := PlanFeature(true, None)]);
    assert Lower("ACTIVE") == "active";
    StatusAgreesIffLowerCase(cat, "tenant", POS_SALES, now);
  }
}
