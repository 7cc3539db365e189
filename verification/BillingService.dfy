/**
 The billing operations on the tables they update. Each is proved to write exactly what
 `BillingRules.Decide` decides for what it read, so that the interleaving, quota and
 conservation results hold of these bodies.
 */
module BillingService {
  import opened Common
  import opened BillingLedger
  import opened BillingRules
  import opened BillingQuota
  import opened BillingAgreement
  import opened BillingOutcomes

  /** What an admitted reservation comes to: only the quota is left to decide. */
  lemma AdmittedDecision(l: Ledger, cat: Catalog, tenant: string, key: string, payload: Payload, newId: string,
                         now: Instant)
    requires MaySell(cat, tenant, now) && ReservableKey(l, key, payload)
    ensures var limit, found := SalesLimit(cat, tenant), FindReservation(l.reservations, key);
      DecideReserve(l, cat, tenant, key, payload, newId, now) ==
        if Exceeds(limit, Load(l, Slot(POS_SALES, now.month)), payload.amount) then
          Decision(Nothing, Denied(QuotaExceeded))
        else if found.Some? then Decision(Reactivate(found.value, now.month, limit), Granted)
        else
          Decision(AddReservation(Reservation(newId, key, payload, payload.amount, now.month, limit, Active)), Granted)
  {
  }

  /** Committing an active reservation settles it in full: its event's key is free. */
  lemma CommitWrites(l: Ledger, key: string)
    requires LedgerOk(l) && FindReservation(l.reservations, key).Some?
    requires l.reservations[FindReservation(l.reservations, key).value].status.Active?
    ensures var d := DecideCommit(l, key);
      && d.intent.Settle? && Fits(l, d.intent) && Effect(l, d.intent) == Written(l, d.intent)
      && LedgerOk(Written(l, d.intent)) && d.reply == Granted
      && forall slot: Slot :: Load(Written(l, d.intent), slot) <= Load(l, slot)
  {
    var d := DecideCommit(l, key);
    EffectKeepsLedger(l, d.intent);
    forall slot: Slot ensures Load(Effect(l, d.intent), slot) <= Load(l, slot) { LoadAfter(l, d.intent, slot); }
  }

  /** The billing tables of one tenant, seen inside a transaction that holds its subscription lock. */
  class UsageBooks {
    const tenant: string
    var counters: map<Slot, Counter>
    var events: seq<Event>
    var reservations: seq<Reservation>
    var catalog: Catalog

    constructor (tenant: string, catalog: Catalog)
      ensures this.tenant == tenant && this.catalog == catalog && L() == EMPTY && Valid()
    {
      this.tenant, this.catalog := tenant, catalog;
      counters, events, reservations := map[], [], [];
      new;
      EmptyOk();
    }

    function L(): Ledger
      reads this
    {
      Ledger(counters, events, reservations)
    }

    /** The books balance. */
    ghost predicate Valid()
      reads this
    {
      LedgerOk(L())
    }

    /** No feature and month is loaded beyond the plan's limit by the change from `before`. */
    ghost predicate WithinQuota(before: Ledger)
      reads this
    {
      forall slot: Slot :: Respects(before, L(), slot, LimitInForce(catalog, tenant, slot.feature))
    }

    /** What holds of the books after the decided write. */
    lemma Kept(req: Request, newId: string, now: Instant, later: Instant)
      requires Valid() && Proper(L(), req, newId)
      ensures var intent := Decide(L(), catalog, tenant, req, newId, now, later).intent;
        && Fits(L(), intent) && LedgerOk(Effect(L(), intent))
        && (OneMonth(req, now, later) ==>
              forall slot: Slot ::
                  Respects(L(), Effect(L(), intent), slot, LimitInForce(catalog, tenant, slot.feature)))
    {
      DecisionFits(L(), catalog, tenant, req, newId, now, later);
      DecisionBalanced(L(), catalog, tenant, req, newId, now, later);
      EffectKeepsLedger(L(), Decide(L(), catalog, tenant, req, newId, now, later).intent);
      if OneMonth(req, now, later) {
        forall slot: Slot
          ensures Respects(L(), Effect(L(), Decide(L(), catalog, tenant, req, newId, now, later).intent), slot,
                           LimitInForce(catalog, tenant, slot.feature))
        {
          TransactionRespectsQuota(L(), catalog, tenant, req, newId, now, later, slot);
        }
      }
    }

    /** `_check_entitlement`: the first failing test decides the reason. */
    method Check(feature: string, amount: Amount, resources: Option<nat>, month: int, now: Instant) returns (a: Answer)
      ensures a == CheckAnswer(L(), catalog, tenant, feature, amount, resources, month, now)
    {
      var subscription := catalog.Subscription(tenant);
      if subscription.None? {
        return Bare(SubscriptionNotFound);
      }
      var denial := DenialReason(subscription.value, now);
      if denial.Some? {
        return Bare(denial.value);
      }
      var kind := catalog.Feature(feature);
      if kind.None? {
        return Bare(FeatureNotFound);
      }
      var planFeature := catalog.PlanFeature(subscription.value.plan, feature);
      if planFeature.None? || !planFeature.value.enabled {
        return Answer(FeatureNotEnabled, if planFeature.Some? then planFeature.value.limit else None, Some(0), None);
      }
      var limit := planFeature.value.limit;
      match kind.value {
        case BooleanFeature =>
          return Bare(Allowed);
        case MonthlyUsage =>
          var slot := Slot(feature, month);
          var used := if slot in counters then counters[slot].used else 0;
          var reserved := if feature == POS_SALES then ActiveReserved(reservations, month) else 0;
          var remaining := Remaining(limit, used + reserved);
          if limit.Some? && used + reserved + amount > limit.value {
            return Answer(QuotaExceeded, limit, Some(used), remaining);
          }
          return Answer(Allowed, limit, Some(used), remaining);
        case ResourceLimit =>
          if limit.Some? {
            if resources.None? {
              return Answer(ResourceLimitExceeded, limit, None, None);
            }
            if resources.value > limit.value {
              return Answer(ResourceLimitExceeded, limit, Some(resources.value), Remaining(limit, resources.value));
            }
          }
          return Answer(Allowed, limit, if resources.Some? then Some(resources.value) else None,
                        Remaining(limit, if resources.Some? then resources.value else 0));
        case OtherType =>
          return Bare(FeatureNotFound);
      }
    }

    /** `_reservation_response`: the numbers of a reservation's own month and limit. */
    method Respond(key: string) returns (n: Option<Numbers>)
      requires exists i :: 0 <= i < |reservations| && reservations[i].key == key
      ensures var found := FindReservation(reservations, key);
        && found.Some?
        && var r := reservations[found.value];
          n == Some(SlotNumbers(L(), r.month, r.limit))
    {
      var r := reservations[FindReservation(reservations, key).value];
      var slot := Slot(POS_SALES, r.month);
      var used := if slot in counters then counters[slot].used else 0;
      var reserved := ActiveReserved(reservations, r.month);
      return Some(Numbers(r.month, used, reserved, r.limit,
                          if r.limit.None? then None else Some(Max(r.limit.value - used - reserved, 0))));
    }

    /** `reserve_usage`: a released reservation of the same request is reactivated in the current month. */
    method Reserve(key: string, payload: Payload, newId: string, now: Instant)
      returns (reply: Reply, numbers: Option<Numbers>)
      requires Valid() && FreshId(L(), newId)
      modifies this
      ensures Valid() && catalog == old(catalog) && WithinQuota(old(L()))
      ensures var d := DecideReserve(old(L()), catalog, tenant, key, payload, newId, now);
        reply == d.reply && L() == Effect(old(L()), d.intent)
      ensures numbers == ReserveNumbers(old(L()), L(), catalog, tenant, key, now, reply)
    {
      Kept(BillingRules.Reserve(key, payload), newId, now, now);
      ghost var before := L();
      reply, numbers := Grant(key, payload, newId, now);
      assert L() == Effect(before, DecideReserve(before, catalog, tenant, key, payload, newId, now).intent);
    }

    /** The tests that come before the quota. */
    method Admit(key: string, payload: Payload, ghost newId: string, now: Instant)
      returns (refusal: Option<Reply>, existing: Option<nat>, limit: Option<int>)
      ensures refusal.Some? ==>
        DecideReserve(L(), catalog, tenant, key, payload, newId, now) == Decision(Nothing, refusal.value)
      ensures refusal.Some? ==> !refusal.value.Granted? && refusal.value != Denied(QuotaExceeded)
      ensures refusal == Some(AlreadyApplied) ==> existing.Some?
      ensures existing.Some? ==> existing.value < |reservations| && reservations[existing.value].key == key
      ensures refusal.None? ==>
        && existing == FindReservation(reservations, key) && ReservableKey(L(), key, payload)
        && MaySell(catalog, tenant, now) && limit == SalesLimit(catalog, tenant)
    {
      existing, limit := None, None;
      var subscription := catalog.Subscription(tenant);
      if subscription.None? {
        return Some(Denied(SubscriptionNotFound)), existing, limit;
      }
      existing := FindReservation(reservations, key);
      if existing.Some? {
        if reservations[existing.value].hash != payload {
          return Some(IdempotencyConflict), existing, limit;
        }
        if !reservations[existing.value].status.Released? {
          return Some(AlreadyApplied), existing, limit;
        }
      }
      var denial := DenialReason(subscription.value, now);
      if denial.Some? {
        return Some(Denied(denial.value)), existing, limit;
      }
      var planFeature := catalog.PlanFeature(subscription.value.plan, POS_SALES);
      if planFeature.None? || !planFeature.value.enabled || catalog.Feature(POS_SALES) != Some(MonthlyUsage) {
        return Some(Denied(FeatureNotEnabled)), existing, limit;
      }
      return None, existing, planFeature.value.limit;
    }

    /** The tests in order, and the write if all are passed. */
    method Grant(key: string, payload: Payload, newId: string, now: Instant)
      returns (reply: Reply, numbers: Option<Numbers>)
      modifies this`reservations
      ensures var d := DecideReserve(old(L()), catalog, tenant, key, payload, newId, now);
        reply == d.reply && L() == Effect(old(L()), d.intent)
      ensures numbers == ReserveNumbers(old(L()), L(), catalog, tenant, key, now, reply)
    {
      var refusal, existing, limit := Admit(key, payload, newId, now);
      if refusal.Some? {
        numbers := None;
        if refusal.value.AlreadyApplied? { numbers := Respond(key); }
        return refusal.value, numbers;
      }
      AdmittedDecision(L(), catalog, tenant, key, payload, newId, now);
      var row := Reservation(newId, key, payload, payload.amount, now.month, limit, Active);
      reply, numbers := HoldWithin(existing, row);
    }

    /** The quota decides: the reservation is held if it fits in what the limit leaves. */
    method HoldWithin(existing: Option<nat>, row: Reservation) returns (reply: Reply, numbers: Option<Numbers>)
      requires existing == FindReservation(reservations, row.key)
      modifies this`reservations
      ensures var fits := !Exceeds(row.limit, Load(old(L()), Slot(POS_SALES, row.month)), row.amount);
        var intent :=
          if !fits then Nothing
          else if existing.Some? then Reactivate(existing.value, row.month, row.limit)
          else AddReservation(row);
        && reply == (if fits then Granted else Denied(QuotaExceeded)) && L() == Effect(old(L()), intent)
      ensures reply.Granted? ==>
        var found := FindReservation(reservations, row.key);
        && found.Some?
        && var r := reservations[found.value];
          numbers == Some(SlotNumbers(L(), r.month, r.limit))
      ensures !reply.Granted? ==> numbers == Some(SlotNumbers(L(), row.month, row.limit))
    {
      var slot := Slot(POS_SALES, row.month);
      var used := if slot in counters then counters[slot].used else 0;
      var reserved := ActiveReserved(reservations, row.month);
      if row.limit.Some? && used + reserved + row.amount > row.limit.value {
        return Denied(QuotaExceeded),
               Some(Numbers(row.month, used, reserved, row.limit, Some(Max(row.limit.value - used - reserved, 0))));
      }
      numbers := Hold(existing, row);
      return Granted, numbers;
    }

    /** Reactivates the reservation found, or inserts the new one, and answers for it. */
    method Hold(existing: Option<nat>, row: Reservation) returns (numbers: Option<Numbers>)
      requires existing.Some? ==> existing.value < |reservations| && reservations[existing.value].key == row.key
      modifies this`reservations
      ensures reservations ==
        if existing.None? then old(reservations) + [row]
        else
          var found := old(reservations)[existing.value];
          old(reservations)[existing.value := found.(status := Active, month := row.month, limit := row.limit)]
      ensures var found := FindReservation(reservations, row.key);
        && found.Some?
        && var r := reservations[found.value];
          numbers == Some(SlotNumbers(L(), r.month, r.limit))
    {
      if existing.Some? {
        var found := reservations[existing.value].(status := Active, month := row.month, limit := row.limit);
        reservations := reservations[existing.value := found];
        assert reservations[existing.value].key == row.key;
      } else {
        reservations := reservations + [row];
        assert reservations[|reservations| - 1].key == row.key;
      }
      numbers := Respond(row.key);
    }

    /** `commit_reservation`; a violated constraint on the event's key rolls everything back. */
    method Commit(key: string) returns (reply: Reply)
      requires Valid()
      modifies this
      ensures Valid() && catalog == old(catalog) && WithinQuota(old(L()))
      ensures var d := DecideCommit(old(L()), key);
        reply == d.reply && Fits(old(L()), d.intent) && L() == Effect(old(L()), d.intent)
    {
      var found := FindReservation(reservations, key);
      if found.None? {
        return ReservationNotFound;
      }
      var reservation := reservations[found.value];
      if reservation.status.Released? {
        return ReservationReleased;
      }
      if reservation.status.Committed? {
        return AlreadyApplied;
      }
      var slot := Slot(POS_SALES, reservation.month);
      CommitWrites(L(), key);
      var counter := if slot in counters then counters[slot] else Counter(0, reservation.limit);
      counters := counters[slot := counter.(used := counter.used + reservation.amount, limit := reservation.limit)];
      events := events + [Event(POS_SALES, RESERVATION_PREFIX + reservation.id, reservation.amount, reservation.month)];
      reservations := reservations[found.value := reservation.(status := Committed)];
      assert L() == Written(old(L()), DecideCommit(old(L()), key).intent);
      return Granted;
    }

    /** `release_reservation`. */
    method Release(key: string) returns (reply: Reply)
      requires Valid()
      modifies this
      ensures Valid() && catalog == old(catalog) && WithinQuota(old(L()))
      ensures var d := DecideRelease(old(L()), key);
        reply == d.reply && Fits(old(L()), d.intent) && L() == Effect(old(L()), d.intent)
      ensures reply != Granted ==> L() == old(L())
      ensures forall k: nat :: At(old(L()), k, key) && old(reservations)[k].status.Active? ==>
        reply == Granted && Freed(old(L()), L(), k)
    {
      Kept(BillingRules.Release(key), "", Instant(0, 0), Instant(0, 0));
      var found := FindReservation(reservations, key);
      if found.None? {
        return ReservationNotFound;
      }
      var reservation := reservations[found.value];
      FoundAt(L(), found.value, key);
      if reservation.status.Committed? {
        return ReservationCommitted;
      }
      if reservation.status.Released? {
        return AlreadyApplied;
      }
      ReleaseFrees(L(), found.value);
      reservations := reservations[found.value := reservation.(status := Released)];
      return Granted;
    }

    /** `_record_usage`: one counter and one event, together. */
    method Record(feature: string, key: string, amount: Amount, month: int)
      requires !HasEvent(events, feature, key)
      modifies this
      ensures catalog == old(catalog)
      ensures L() == Effect(old(L()), RecordUsage(old(L()), catalog, tenant, feature, key, amount, month))
    {
      var limit := CounterLimit(catalog, tenant, feature);
      var slot := Slot(feature, month);
      if slot !in counters {
        counters := counters[slot := Counter(0, limit)];
      } else {
        counters := counters[slot := counters[slot].(limit := limit)];
      }
      events := events + [Event(feature, key, amount, month)];
      counters := counters[slot := counters[slot].(used := counters[slot].used + amount)];
    }

    /** `consume_usage`: an event is recorded once per key, with no check. */
    method Consume(feature: string, key: string, amount: Amount, occurred: Option<Instant>, now: Instant)
      returns (recorded: bool)
      requires Valid() && !HasPrefix(key, RESERVATION_PREFIX)
      modifies this
      ensures Valid() && catalog == old(catalog)
      ensures var month := (if occurred.Some? then occurred.value else now).month;
        L() == Effect(old(L()), DecideUnchecked(old(L()), catalog, tenant, feature, key, amount, month))
      ensures recorded <==> !HasEvent(old(events), feature, key)
      ensures !recorded ==> L() == old(L())
      ensures recorded ==>
        Recorded(old(L()), L(), Event(feature, key, amount, (if occurred.Some? then occurred.value else now).month),
                 ShownLimit(catalog, tenant, feature))
    {
      var month := (if occurred.Some? then occurred.value else now).month;
      EffectKeepsLedger(L(), DecideUnchecked(L(), catalog, tenant, feature, key, amount, month));
      UncheckedRecords(L(), catalog, tenant, feature, key, amount, month);
      if HasEvent(events, feature, key) {
        return false;
      }
      Record(feature, key, amount, month);
      return true;
    }

    /** `check_and_consume_usage`: the record reads the clock again. */
    method CheckAndConsume(feature: string, key: string, amount: Amount, occurred: Option<Instant>,
                           resources: Option<nat>,
                           now: Instant, later: Instant) returns (reply: Reply)
      requires Valid() && !HasPrefix(key, RESERVATION_PREFIX)
      modifies this
      ensures Valid() && catalog == old(catalog)
      ensures occurred.Some? || now.month == later.month ==> WithinQuota(old(L()))
      ensures var d := DecideConsume(old(L()), catalog, tenant, feature, key, amount, occurred, resources, now, later);
        reply == d.reply && L() == Effect(old(L()), d.intent)
      ensures reply.AlreadyApplied? <==> HasEvent(old(events), feature, key)
      ensures !reply.Granted? ==> L() == old(L())
      ensures reply.Granted? ==>
        Recorded(old(L()), L(), Event(feature, key, amount, (if occurred.Some? then occurred.value else later).month),
                 ShownLimit(catalog, tenant, feature))
    {
      ConsumeRecords(L(), catalog, tenant, feature, key, amount, occurred, resources, now, later);
      Kept(BillingRules.CheckAndConsume(feature, key, amount, occurred, resources), "", now, later);
      if HasEvent(events, feature, key) {
        return AlreadyApplied;
      }
      var checkedMonth := (if occurred.Some? then occurred.value else now).month;
      var check := Check(feature, amount, resources, checkedMonth, now);
      if check.reason != Allowed {
        return Denied(check.reason);
      }
      Record(feature, key, amount, (if occurred.Some? then occurred.value else later).month);
      return Granted;
    }
  }
}
