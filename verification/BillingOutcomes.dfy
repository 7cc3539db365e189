/**
 What each billing operation comes to, told from the columns: which subscriptions are in
 force, what a check allows, and what every reservation and record does to the tables.
 */
module BillingOutcomes {
  import opened Common
  import opened BillingLedger
  import opened BillingRules
  import opened BillingQuota
  import opened BillingAgreement

  // ----- The subscription -----

  /** `s` is the lower-case text `w` in any letter case. */
  predicate Spells(s: string, w: string) {
    && |s| == |w|
    && forall i :: 0 <= i < |s| ==> s[i] == w[i] || ('a' <= w[i] <= 'z' && s[i] as int + 32 == w[i] as int)
  }

  lemma LowerSpells(s: string, w: string)
    requires forall i :: 0 <= i < |w| ==> !('A' <= w[i] <= 'Z')
    ensures Lower(s) == w <==> Spells(s, w)
  {
    if Lower(s) == w {
      forall i | 0 <= i < |s| ensures s[i] == w[i] || ('a' <= w[i] <= 'z' && s[i] as int + 32 == w[i] as int) {
        assert w[i] == LowerChar(s[i]);
      }
    }
  }

  predicate Ended(sub: Subscription, now: Instant) {
    sub.endsAt.month < now.month || (sub.endsAt.month == now.month && sub.endsAt.second < now.second)
  }

  predicate Paying(sub: Subscription) {
    Spells(sub.status, "active") || Spells(sub.status, "trialing")
  }

  predicate CalledOff(sub: Subscription) {
    Spells(sub.status, "cancelled") || Spells(sub.status, "canceled")
  }

  predicate Owing(sub: Subscription) {
    Spells(sub.status, "past_due") || Spells(sub.status, "unpaid") || Spells(sub.status, "payment_failed")
  }

  predicate InForce(cat: Catalog, tenant: string, now: Instant) {
    tenant in cat.subscriptions && !Ended(cat.subscriptions[tenant], now) && Paying(cat.subscriptions[tenant])
  }

  lemma StatusSpelled(sub: Subscription)
    ensures IsActiveStatus(Lower(sub.status)) <==> Paying(sub)
    ensures Lower(sub.status) == "cancelled" || Lower(sub.status) == "canceled" <==> CalledOff(sub)
    ensures Lower(sub.status) == "past_due" || Lower(sub.status) == "unpaid" || Lower(sub.status) == "payment_failed"
      <==> Owing(sub)
  {
    LowerSpells(sub.status, "active");
    LowerSpells(sub.status, "trialing");
    LowerSpells(sub.status, "cancelled");
    LowerSpells(sub.status, "canceled");
    LowerSpells(sub.status, "past_due");
    LowerSpells(sub.status, "unpaid");
    LowerSpells(sub.status, "payment_failed");
  }

  /** Which subscription is denied, and why: that it ended comes first, then the text of its status. */
  predicate DeniedFor(sub: Subscription, now: Instant, reason: Reason) {
    match reason
    case SubscriptionExpired => Ended(sub, now)
    case SubscriptionCancelled => !Ended(sub, now) && CalledOff(sub)
    case PaymentRequired => !Ended(sub, now) && Owing(sub)
    case SubscriptionInactive => !Ended(sub, now) && !Paying(sub) && !CalledOff(sub) && !Owing(sub)
    case _ => false
  }

  lemma DenialExactly(sub: Subscription, now: Instant, reason: Reason)
    ensures DenialReason(sub, now) == Some(reason) <==> DeniedFor(sub, now, reason)
    ensures DenialReason(sub, now).None? <==> !Ended(sub, now) && Paying(sub)
  {
    StatusSpelled(sub);
    TextsDiffer(sub);
  }

  /** No status is spelled in two ways that matter. */
  lemma TextsDiffer(sub: Subscription)
    ensures !(Paying(sub) && CalledOff(sub)) && !(Paying(sub) && Owing(sub)) && !(CalledOff(sub) && Owing(sub))
  {
    StatusSpelled(sub);
  }

  predicate AboutSubscription(reason: Reason) {
    reason in {SubscriptionNotFound, SubscriptionExpired, SubscriptionCancelled, PaymentRequired, SubscriptionInactive}
  }

  /** `denied` says which of the subscription's reasons an answer gave: exactly the one that applies. */
  ghost predicate SeesSubscription(cat: Catalog, tenant: string, now: Instant, denied: Option<Reason>) {
    && (denied.Some? && AboutSubscription(denied.value) <==> !InForce(cat, tenant, now))
    && (denied == Some(SubscriptionNotFound) <==> tenant !in cat.subscriptions)
    && (tenant in cat.subscriptions ==>
          forall why :: AboutSubscription(why) && why != SubscriptionNotFound ==>
            (denied == Some(why) <==> DeniedFor(cat.subscriptions[tenant], now, why)))
  }

  lemma SubscriptionSeen(cat: Catalog, tenant: string, now: Instant, denied: Option<Reason>)
    requires tenant in cat.subscriptions
    requires var denial := DenialReason(cat.subscriptions[tenant], now);
      if denial.Some? then denied == denial else denied.Some? ==> !AboutSubscription(denied.value)
    ensures SeesSubscription(cat, tenant, now, denied)
  {
    forall why | AboutSubscription(why) && why != SubscriptionNotFound
      ensures denied == Some(why) <==> DeniedFor(cat.subscriptions[tenant], now, why)
    {
      DenialExactly(cat.subscriptions[tenant], now, why);
    }
    DenialExactly(cat.subscriptions[tenant], now, SubscriptionExpired);
  }

  /**
   The check answers one of the subscription's reasons exactly when the subscription is
   missing, has ended, or has a status other than active or trialing in any letter case; and
   the end date and the status text decide which reason.
   */
  lemma CheckSeesSubscription(l: Ledger, cat: Catalog, tenant: string, feature: string, amount: Amount,
                              resources: Option<nat>, month: int, now: Instant)
    ensures SeesSubscription(cat, tenant, now,
              Some(CheckEntitlement(l, cat, tenant, feature, amount, resources, month, now)))
  {
    if tenant in cat.subscriptions {
      var reason := CheckEntitlement(l, cat, tenant, feature, amount, resources, month, now);
      SubscriptionSeen(cat, tenant, now, Some(reason));
    }
  }

  function DenialOf(reply: Reply): Option<Reason> {
    if reply.Denied? then Some(reply.reason) else None
  }

  /** So does a reservation whose key is free or released. */
  lemma ReserveSeesSubscription(l: Ledger, cat: Catalog, tenant: string, key: string, payload: Payload, newId: string,
                                now: Instant)
    requires ReservableKey(l, key, payload)
    ensures SeesSubscription(cat, tenant, now,
              DenialOf(DecideReserve(l, cat, tenant, key, payload, newId, now).reply))
  {
    if tenant in cat.subscriptions {
      SubscriptionSeen(cat, tenant, now, DenialOf(DecideReserve(l, cat, tenant, key, payload, newId, now).reply));
    }
  }

  // ----- The feature and its limit -----

  /** The tenant's plan has the feature, switched on. */
  predicate Includes(cat: Catalog, tenant: string, feature: string) {
    && tenant in cat.subscriptions && feature in cat.features
    && (cat.subscriptions[tenant].plan, feature) in cat.planFeatures
    && cat.planFeatures[(cat.subscriptions[tenant].plan, feature)].enabled
  }

  function LimitOf(cat: Catalog, tenant: string, feature: string): Option<int>
    requires Includes(cat, tenant, feature)
  {
    cat.planFeatures[(cat.subscriptions[tenant].plan, feature)].limit
  }

  /** The limit of the feature, if it has one, leaves room for the amount. */
  predicate Room(l: Ledger, cat: Catalog, tenant: string, feature: string, amount: Amount, resources: Option<nat>,
                 month: int)
    requires Includes(cat, tenant, feature)
  {
    var limit, slot := LimitOf(cat, tenant, feature), Slot(feature, month);
    match cat.features[feature]
    case BooleanFeature => true
    case MonthlyUsage => limit.Some? ==> Used(l, slot) + Reserved(l, slot) + amount <= limit.value
    case ResourceLimit => limit.Some? ==> resources.Some? && resources.value <= limit.value
    case OtherType => false
  }

  /**
   The check allows exactly what the subscription in force, the plan and the room under the
   limit allow, and each refusal has its reason.
   */
  lemma CheckAllowsExactly(l: Ledger, cat: Catalog, tenant: string, feature: string, amount: Amount,
                           resources: Option<nat>, month: int, now: Instant)
    ensures var reason := CheckEntitlement(l, cat, tenant, feature, amount, resources, month, now);
      InForce(cat, tenant, now) ==>
        && (reason == FeatureNotFound <==>
              feature !in cat.features || (Includes(cat, tenant, feature) && cat.features[feature].OtherType?))
        && (reason == FeatureNotEnabled <==> feature in cat.features && !Includes(cat, tenant, feature))
        && (reason == QuotaExceeded <==>
              Includes(cat, tenant, feature) && cat.features[feature].MonthlyUsage?
              && !Room(l, cat, tenant, feature, amount, resources, month))
        && (reason == ResourceLimitExceeded <==>
              Includes(cat, tenant, feature) && cat.features[feature].ResourceLimit?
              && !Room(l, cat, tenant, feature, amount, resources, month))
    ensures CheckEntitlement(l, cat, tenant, feature, amount, resources, month, now) == Allowed <==>
      InForce(cat, tenant, now) && Includes(cat, tenant, feature)
      && Room(l, cat, tenant, feature, amount, resources, month)
  {
    if tenant in cat.subscriptions { DenialExactly(cat.subscriptions[tenant], now, SubscriptionExpired); }
  }

  /** What a limit leaves after the load: never negative, and no number without a limit. */
  predicate Leaves(limit: Option<int>, load: int, remaining: Option<int>) {
    if limit.None? then remaining.None?
    else remaining.Some? && remaining.value == if load <= limit.value then limit.value - load else 0
  }

  /** The numbers that come with the answer about a feature the plan includes. */
  lemma CheckNumbers(l: Ledger, cat: Catalog, tenant: string, feature: string, amount: Amount,
                     resources: Option<nat>, month: int, now: Instant)
    requires InForce(cat, tenant, now) && Includes(cat, tenant, feature)
    ensures var a, limit := CheckAnswer(l, cat, tenant, feature, amount, resources, month, now),
                            LimitOf(cat, tenant, feature);
      match cat.features[feature]
      case MonthlyUsage =>
        var slot := Slot(feature, month);
        && a.limit == limit && a.used == Some(Used(l, slot))
        && Leaves(limit, Used(l, slot) + Reserved(l, slot), a.remaining)
      case ResourceLimit =>
        && a.limit == limit
        && a.used == (if resources.Some? then Some(resources.value) else None)
        && (if limit.Some? && resources.None? then a.remaining.None?
            else Leaves(limit, if resources.Some? then resources.value else 0, a.remaining))
      case _ => a.limit.None? && a.used.None? && a.remaining.None?
  {
    DenialExactly(cat.subscriptions[tenant], now, SubscriptionExpired);
  }

  /** A refusal that comes before any limit has no numbers, but for the plan's limit of a feature switched off. */
  lemma RefusalNumbers(l: Ledger, cat: Catalog, tenant: string, feature: string, amount: Amount,
                       resources: Option<nat>, month: int, now: Instant)
    requires !InForce(cat, tenant, now) || !Includes(cat, tenant, feature)
    ensures var a := CheckAnswer(l, cat, tenant, feature, amount, resources, month, now);
      && a.remaining.None?
      && (if a.reason == FeatureNotEnabled then
            && a.used == Some(0)
            && var row := (cat.subscriptions[tenant].plan, feature);
              a.limit == if row in cat.planFeatures then cat.planFeatures[row].limit else None
          else a.used.None? && a.limit.None?)
  {
    if tenant in cat.subscriptions { DenialExactly(cat.subscriptions[tenant], now, SubscriptionExpired); }
  }

  /**
   The tenant status shows a feature exactly when it is in the plan, enabled exactly when the
   plan switches it on and the subscription is in force with its status stored in lower case.
   A monthly feature has the very numbers of the check.
   */
  lemma StatusNumbers(l: Ledger, cat: Catalog, tenant: string, feature: string, amount: Amount, now: Instant)
    ensures StatusOf(l, cat, tenant, feature, now).Some? <==>
      && tenant in cat.subscriptions && feature in cat.features
      && (cat.subscriptions[tenant].plan, feature) in cat.planFeatures
    ensures StatusOf(l, cat, tenant, feature, now).Some? ==>
      var status, stored := StatusOf(l, cat, tenant, feature, now).value, cat.subscriptions[tenant].status;
      && (status.enabled <==>
            && Includes(cat, tenant, feature) && !Ended(cat.subscriptions[tenant], now)
            && (stored == "active" || stored == "trialing"))
      && status.limit == cat.planFeatures[(cat.subscriptions[tenant].plan, feature)].limit
      && (cat.features[feature].MonthlyUsage? && InForce(cat, tenant, now) && Includes(cat, tenant, feature) ==>
            var a := CheckAnswer(l, cat, tenant, feature, amount, None, now.month, now);
            status.limit == a.limit && status.used == a.used && status.remaining == a.remaining)
      && (if cat.features[feature].MonthlyUsage? then
            var slot := Slot(feature, now.month);
            && status.used == Some(Used(l, slot))
            && Leaves(status.limit, Used(l, slot) + Reserved(l, slot), status.remaining)
          else status.used.None? && status.remaining.None?)
  {
    if tenant in cat.subscriptions {
      var sub := cat.subscriptions[tenant];
      DenialExactly(sub, now, SubscriptionExpired);
      if sub.status == "active" || sub.status == "trialing" { assert Spells(sub.status, sub.status); }
    }
  }

  // ----- Reserving -----

  /** The one reservation with the key. */
  predicate At(l: Ledger, i: nat, key: string) {
    i < |l.reservations| && l.reservations[i].key == key
  }

  lemma FoundAt(l: Ledger, i: nat, key: string)
    requires UniqueRows(l) && At(l, i, key)
    ensures FindReservation(l.reservations, key) == Some(i) && forall j: nat :: At(l, j, key) ==> j == i
  {
    FindUnique(l, i);
  }

  /** The row a granted reservation leaves under its key. */
  predicate HeldRow(r: Reservation, key: string, payload: Payload, now: Instant, limit: Option<int>) {
    && r.key == key && r.hash == payload && r.amount == payload.amount && r.month == now.month
    && r.limit == limit && r.status.Active?
  }

  /**
   A granted reservation adds its amount to what is reserved of the current month, and to
   nothing else: a new row, or the released one of the same request made active again.
   */
  lemma ReserveSucceeds(l: Ledger, cat: Catalog, tenant: string, key: string, payload: Payload, newId: string,
                        now: Instant, slot: Slot)
    requires LedgerOk(l) && FreshId(l, newId)
    requires DecideReserve(l, cat, tenant, key, payload, newId, now).reply == Granted
    ensures Fits(l, DecideReserve(l, cat, tenant, key, payload, newId, now).intent)
    ensures Includes(cat, tenant, POS_SALES)
    ensures var l' := Effect(l, DecideReserve(l, cat, tenant, key, payload, newId, now).intent);
      && l'.events == l.events && l'.counters == l.counters
      && Reserved(l', slot) ==
           Reserved(l, slot) + (if slot == Slot("pos_sales", now.month) then payload.amount else 0)
      && exists i: nat ::
           && i < |l'.reservations|
           && HeldRow(l'.reservations[i], key, payload, now, LimitOf(cat, tenant, POS_SALES))
           && (if i == |l.reservations| then l'.reservations == l.reservations + [l'.reservations[i]]
                 && l'.reservations[i].id == newId && !exists j: nat :: At(l, j, key)
               else
                 && i < |l.reservations| && l.reservations[i].status.Released? && At(l, i, key)
                 && l'.reservations == l.reservations[i := l'.reservations[i]]
                 && l'.reservations[i].id == l.reservations[i].id)
  {
    var d := DecideReserve(l, cat, tenant, key, payload, newId, now);
    LoadAfter(l, d.intent, slot);
    var l' := Effect(l, d.intent);
    var i := if d.intent.Reactivate? then d.intent.index else |l.reservations|;
    assert HeldRow(l'.reservations[i], key, payload, now, LimitOf(cat, tenant, POS_SALES));
  }

  /**
   What a reservation answers. A key used for another request conflicts, and one whose
   reservation is active or committed is answered again; neither these nor a denial write.
   */
  lemma ReserveReplies(l: Ledger, cat: Catalog, tenant: string, key: string, payload: Payload, newId: string,
                       now: Instant)
    requires UniqueRows(l)
    ensures var d := DecideReserve(l, cat, tenant, key, payload, newId, now);
      && (d.reply == IdempotencyConflict <==>
            tenant in cat.subscriptions && exists i: nat :: At(l, i, key) && l.reservations[i].hash != payload)
      && (d.reply == AlreadyApplied <==>
            tenant in cat.subscriptions
            && exists i: nat ::
                 At(l, i, key) && l.reservations[i].hash == payload && !l.reservations[i].status.Released?)
      && (d.reply == Granted <==>
            && ReservableKey(l, key, payload) && InForce(cat, tenant, now) && Includes(cat, tenant, POS_SALES)
            && cat.features[POS_SALES].MonthlyUsage?
            && Room(l, cat, tenant, POS_SALES, payload.amount, None, now.month))
      && (d.reply != Granted ==> d.intent == Nothing)
  {
    var found := FindReservation(l.reservations, key);
    if found.Some? { FoundAt(l, found.value, key); }
    if tenant in cat.subscriptions { DenialExactly(cat.subscriptions[tenant], now, SubscriptionExpired); }
  }

  /** Consumed and reserved sales of a month, under a limit, and what it leaves. */
  predicate Tells(l: Ledger, month: int, limit: Option<int>, n: Numbers) {
    var slot := Slot("pos_sales", month);
    && n.month == month && n.used == Used(l, slot) && n.reserved == Reserved(l, slot) && n.limit == limit
    && Leaves(limit, n.used + n.reserved, n.remaining)
  }

  /**
   The numbers in the answer: those of the reservation's own month and limit once it is held,
   those of the current month and the plan's limit when the quota denied it, else none.
   */
  lemma NumbersTell(l: Ledger, cat: Catalog, tenant: string, key: string, payload: Payload, newId: string,
                    now: Instant, i: nat)
    requires LedgerOk(l) && FreshId(l, newId)
    ensures var d := DecideReserve(l, cat, tenant, key, payload, newId, now);
      && Fits(l, d.intent)
      && var after := Effect(l, d.intent);
         var numbers := ReserveNumbers(l, after, cat, tenant, key, now, d.reply);
        if d.reply == Granted || d.reply == AlreadyApplied then
          At(after, i, key) ==>
            && numbers.Some?
            && Tells(after, after.reservations[i].month, after.reservations[i].limit, numbers.value)
        else if d.reply == Denied(QuotaExceeded) then
          && Includes(cat, tenant, POS_SALES) && numbers.Some?
          && Tells(l, now.month, LimitOf(cat, tenant, POS_SALES), numbers.value)
        else numbers.None?
  {
    var d := DecideReserve(l, cat, tenant, key, payload, newId, now);
    EffectUnique(l, d.intent);
    var after := Effect(l, d.intent);
    if At(after, i, key) {
      FoundAt(after, i, key);
      SlotTells(after, after.reservations[i].month, after.reservations[i].limit);
    }
    SlotTells(l, now.month, SalesLimit(cat, tenant));
  }

  lemma SlotTells(l: Ledger, month: int, limit: Option<int>)
    ensures Tells(l, month, limit, SlotNumbers(l, month, limit))
  {
  }

  // ----- Committing and releasing -----

  /** The status of the reservation decides what a commit and a release answer; a refusal writes nothing. */
  lemma ActionReplies(l: Ledger, key: string)
    requires UniqueRows(l)
    ensures var commit, release := DecideCommit(l, key), DecideRelease(l, key);
      && (commit.reply == ReservationNotFound <==> !exists i: nat :: At(l, i, key))
      && (release.reply == ReservationNotFound <==> !exists i: nat :: At(l, i, key))
      && (commit.reply != Granted ==> commit.intent == Nothing)
      && (release.reply != Granted ==> release.intent == Nothing)
    ensures forall i: nat :: At(l, i, key) ==>
      var commit, release := DecideCommit(l, key).reply, DecideRelease(l, key).reply;
      match l.reservations[i].status
      case Active => commit == Granted && release == Granted
      case Committed => commit == AlreadyApplied && release == ReservationCommitted
      case Released => commit == ReservationReleased && release == AlreadyApplied
  {
    var found := FindReservation(l.reservations, key);
    if found.Some? {
      assert At(l, found.value, key);
      FoundAt(l, found.value, key);
    }
  }

  /** Committing an active reservation succeeds, whatever the plan says by then. */
  lemma CommitSucceeds(l: Ledger, k: nat, slot: Slot)
    requires LedgerOk(l) && k < |l.reservations| && l.reservations[k].status.Active?
    ensures var r := l.reservations[k]; var d := DecideCommit(l, r.key);
      && d.reply == Granted && Fits(l, d.intent)
      && var l', own := Effect(l, d.intent), Slot("pos_sales", r.month);
        && l'.reservations == l.reservations[k := r.(status := Committed)]
        && l'.events == l.events + [Event("pos_sales", "reservation:" + r.id, r.amount, r.month)]
        && Used(l', slot) == Used(l, slot) + (if slot == own then r.amount else 0)
        && own in l'.counters && l'.counters[own].limit == r.limit
        && Load(l', slot) == Load(l, slot)
  {
    FindUnique(l, k);
    LoadAfter(l, DecideCommit(l, l.reservations[k].key).intent, slot);
  }

  /** Releasing one succeeds and gives its amount back to its own month, and to no other. */
  lemma ReleaseSucceeds(l: Ledger, k: nat, slot: Slot)
    requires LedgerOk(l) && k < |l.reservations| && l.reservations[k].status.Active?
    ensures var r := l.reservations[k]; var d := DecideRelease(l, r.key);
      && d.reply == Granted && Fits(l, d.intent)
      && var l' := Effect(l, d.intent);
        && l'.reservations == l.reservations[k := r.(status := Released)]
        && l'.events == l.events && l'.counters == l.counters && Used(l', slot) == Used(l, slot)
        && Load(l', slot) == Load(l, slot) - if slot == Slot("pos_sales", r.month) then r.amount else 0
  {
    FindUnique(l, k);
    LoadAfter(l, DecideRelease(l, l.reservations[k].key).intent, slot);
  }

  /** `l'` is `l` with this reservation released and its amount given back to its month. */
  ghost predicate Freed(l: Ledger, l': Ledger, k: nat)
    requires k < |l.reservations|
  {
    var r := l.reservations[k];
    && l'.counters == l.counters && l'.events == l.events
    && l'.reservations == l.reservations[k := r.(status := Released)]
    && forall slot: Slot ::
         Load(l', slot) == Load(l, slot) - if slot == Slot("pos_sales", r.month) then r.amount else 0
  }

  lemma ReleaseFrees(l: Ledger, k: nat)
    requires LedgerOk(l) && k < |l.reservations| && l.reservations[k].status.Active?
    ensures var d := DecideRelease(l, l.reservations[k].key);
      d.reply == Granted && Fits(l, d.intent) && Freed(l, Effect(l, d.intent), k)
  {
    var d := DecideRelease(l, l.reservations[k].key);
    FindUnique(l, k);
    forall slot: Slot
      ensures Load(Effect(l, d.intent), slot) == Load(l, slot)
        - if slot == Slot("pos_sales", l.reservations[k].month) then l.reservations[k].amount else 0
    {
      ReleaseSucceeds(l, k, slot);
    }
  }

  lemma HeldAfter(l: Ledger, cat: Catalog, tenant: string, key: string, payload: Payload, newId: string,
                  now: Instant, slot: Slot) returns (i: nat)
    requires LedgerOk(l) && FreshId(l, newId)
    requires DecideReserve(l, cat, tenant, key, payload, newId, now).reply == Granted
    ensures Fits(l, DecideReserve(l, cat, tenant, key, payload, newId, now).intent) && Includes(cat, tenant, POS_SALES)
    ensures var held := Effect(l, DecideReserve(l, cat, tenant, key, payload, newId, now).intent);
      && LedgerOk(held) && held.events == l.events && held.counters == l.counters && i < |held.reservations|
      && HeldRow(held.reservations[i], key, payload, now, LimitOf(cat, tenant, POS_SALES))
      && Load(held, slot) == Load(l, slot) + if slot == Slot("pos_sales", now.month) then payload.amount else 0
  {
    ReserveSucceeds(l, cat, tenant, key, payload, newId, now, slot);
    var held := Effect(l, DecideReserve(l, cat, tenant, key, payload, newId, now).intent);
    EffectKeepsLedger(l, DecideReserve(l, cat, tenant, key, payload, newId, now).intent);
    i :| i < |held.reservations|
      && HeldRow(held.reservations[i], key, payload, now, LimitOf(cat, tenant, POS_SALES));
  }

  lemma FreedAfter(held: Ledger, i: nat, slot: Slot)
    requires LedgerOk(held) && i < |held.reservations| && held.reservations[i].status.Active?
    ensures var r := held.reservations[i];
      && Fits(held, DecideRelease(held, r.key).intent)
      && var freed := Effect(held, DecideRelease(held, r.key).intent);
        && LedgerOk(freed) && freed.events == held.events && freed.counters == held.counters
        && At(freed, i, r.key) && freed.reservations[i] == r.(status := Released)
        && Load(freed, slot) == Load(held, slot) - if slot == Slot("pos_sales", r.month) then r.amount else 0
  {
    ReleaseSucceeds(held, i, slot);
    EffectKeepsLedger(held, DecideRelease(held, held.reservations[i].key).intent);
  }

  /** What a release freed can be reserved again: without it the same request is granted as before. */
  lemma ReleaseUndoesReserve(l: Ledger, cat: Catalog, tenant: string, key: string, payload: Payload, newId: string,
                             now: Instant)
    requires LedgerOk(l) && FreshId(l, newId)
    requires DecideReserve(l, cat, tenant, key, payload, newId, now).reply == Granted
    ensures Fits(l, DecideReserve(l, cat, tenant, key, payload, newId, now).intent)
    ensures var held := Effect(l, DecideReserve(l, cat, tenant, key, payload, newId, now).intent);
      && Fits(held, DecideRelease(held, key).intent)
      && var freed := Effect(held, DecideRelease(held, key).intent);
        && freed.events == l.events && freed.counters == l.counters
        && (forall slot: Slot :: Load(freed, slot) == Load(l, slot))
        && DecideReserve(freed, cat, tenant, key, payload, newId, now).reply == Granted
  {
    var sales := Slot(POS_SALES, now.month);
    var held := Effect(l, DecideReserve(l, cat, tenant, key, payload, newId, now).intent);
    var i := HeldAfter(l, cat, tenant, key, payload, newId, now, sales);
    FreedAfter(held, i, sales);
    var freed := Effect(held, DecideRelease(held, key).intent);
    forall slot: Slot ensures Load(freed, slot) == Load(l, slot) {
      var _ := HeldAfter(l, cat, tenant, key, payload, newId, now, slot);
      FreedAfter(held, i, slot);
    }
    GrantedAgain(l, freed, cat, tenant, key, payload, newId, now, i);
  }

  lemma GrantedAgain(l: Ledger, freed: Ledger, cat: Catalog, tenant: string, key: string, payload: Payload,
                     newId: string, now: Instant, i: nat)
    requires UniqueRows(l) && DecideReserve(l, cat, tenant, key, payload, newId, now).reply == Granted
    requires UniqueRows(freed) && At(freed, i, key) && freed.reservations[i].hash == payload
      && freed.reservations[i].status.Released?
    requires Load(freed, Slot(POS_SALES, now.month)) == Load(l, Slot(POS_SALES, now.month))
    ensures DecideReserve(freed, cat, tenant, key, payload, newId, now).reply == Granted
  {
    FoundAt(freed, i, key);
    ReserveReplies(l, cat, tenant, key, payload, newId, now);
    ReserveReplies(freed, cat, tenant, key, payload, newId, now);
  }

  // ----- Recording usage -----

  /** The limit shown on a counter: that of the plan, while the stored status is an active one. */
  function ShownLimit(cat: Catalog, tenant: string, feature: string): Option<int> {
    if tenant in cat.subscriptions && cat.subscriptions[tenant].status in {"active", "trialing"}
      && feature in cat.features && cat.features[feature].MonthlyUsage?
      && (cat.subscriptions[tenant].plan, feature) in cat.planFeatures
    then cat.planFeatures[(cat.subscriptions[tenant].plan, feature)].limit
    else None
  }

  /** `l'` is `l` with this one event, counted in its month. */
  predicate Recorded(l: Ledger, l': Ledger, e: Event, limit: Option<int>) {
    && l'.events == l.events + [e] && l'.reservations == l.reservations
    && l'.counters.Keys == l.counters.Keys + {Slot(e.feature, e.month)}
    && l'.counters[Slot(e.feature, e.month)].limit == limit
    && Used(l', Slot(e.feature, e.month)) == Used(l, Slot(e.feature, e.month)) + e.amount
    && forall slot :: slot in l.counters && slot != Slot(e.feature, e.month) ==> l'.counters[slot] == l.counters[slot]
  }

  /** Exactly the amount asked for is recorded, once per key; a check-and-consume that is denied writes nothing. */
  lemma ConsumeRecords(l: Ledger, cat: Catalog, tenant: string, feature: string, key: string, amount: Amount,
                       occurred: Option<Instant>, resources: Option<nat>, now: Instant, later: Instant)
    ensures var d := DecideConsume(l, cat, tenant, feature, key, amount, occurred, resources, now, later);
      && (d.reply == AlreadyApplied <==> HasEvent(l.events, feature, key))
      && (d.reply != Granted ==> d.intent == Nothing)
      && (d.reply == Granted ==>
            && Fits(l, d.intent)
            && Recorded(l, Effect(l, d.intent),
                        Event(feature, key, amount, (if occurred.Some? then occurred.value else later).month),
                        ShownLimit(cat, tenant, feature)))
  {
  }

  lemma UncheckedRecords(l: Ledger, cat: Catalog, tenant: string, feature: string, key: string, amount: Amount,
                         month: int)
    ensures var l' := Effect(l, DecideUnchecked(l, cat, tenant, feature, key, amount, month));
      if HasEvent(l.events, feature, key) then l' == l
      else Recorded(l, l', Event(feature, key, amount, month), ShownLimit(cat, tenant, feature))
  {
  }
}
