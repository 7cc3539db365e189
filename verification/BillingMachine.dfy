/**
 Billing transactions of many tenants interleaved step by step. A transaction takes the
 subscription lock of its tenant, reads and decides, and later writes the absolute values
 it decided on; other tenants, unchecked consumption and plan changes come in between.
 */
module BillingMachine {
  import opened Common
  import opened Traces
  import opened BillingLedger
  import opened BillingRules
  import opened BillingQuota
  import opened BillingOutcomes

  datatype Tx =
    | Open(req: Request, newId: string)
    | Decided(req: Request, newId: string, cat: Catalog, now: Instant, later: Instant, intent: Intent)

  /** `locks` holds the transaction that has each tenant's subscription locked. */
  datatype State = State(ledgers: map<string, Ledger>, cat: Catalog, locks: map<string, Tx>) {
    function Of(tenant: string): Ledger {
      if tenant in ledgers then ledgers[tenant] else EMPTY
    }
  }

  datatype Step =
    | Begin(tenant: string, req: Request, newId: string)
    | Read(tenant: string, now: Instant, later: Instant)
    | Write(tenant: string)
    | Abort(tenant: string)
    | Consume(tenant: string, feature: string, key: string, amount: Amount, month: int)
    | SetCatalog(cat: Catalog)

  ghost predicate Init(s: State) {
    s.ledgers == map[] && s.locks == map[]
  }

  /** Unchecked consumption takes no lock; it is one step, between transactions of its tenant. */
  predicate Enabled(s: State, st: Step) {
    match st
    case Begin(tenant, req, newId) => tenant !in s.locks && Proper(s.Of(tenant), req, newId)
    case Read(tenant, _, _) => tenant in s.locks && s.locks[tenant].Open?
    case Write(tenant) => tenant in s.locks && s.locks[tenant].Decided? && Fits(s.Of(tenant), s.locks[tenant].intent)
    case Abort(tenant) => tenant in s.locks
    case Consume(tenant, _, key, _, _) => tenant !in s.locks && !HasPrefix(key, RESERVATION_PREFIX)
    case SetCatalog(_) => true
  }

  function Apply(s: State, st: Step): State
    requires Enabled(s, st)
  {
    match st
    case Begin(tenant, req, newId) => s.(locks := s.locks[tenant := Open(req, newId)])
    case Read(tenant, now, later) =>
      var tx := s.locks[tenant];
      var intent := Decide(s.Of(tenant), s.cat, tenant, tx.req, tx.newId, now, later).intent;
      s.(locks := s.locks[tenant := Decided(tx.req, tx.newId, s.cat, now, later, intent)])
    case Write(tenant) =>
      s.(ledgers := s.ledgers[tenant := Effect(s.Of(tenant), s.locks[tenant].intent)], locks := s.locks - {tenant})
    case Abort(tenant) => s.(locks := s.locks - {tenant})
    case Consume(tenant, feature, key, amount, month) =>
      var intent := DecideUnchecked(s.Of(tenant), s.cat, tenant, feature, key, amount, month);
      s.(ledgers := s.ledgers[tenant := Effect(s.Of(tenant), intent)])
    case SetCatalog(cat) => s.(cat := cat)
  }

  predicate Next(s: State, st: Step, t: State) {
    Enabled(s, st) && t == Apply(s, st)
  }

  // ----- The lock makes stale reads current -----

  /** What a transaction read under the lock is still what the ledger holds. */
  predicate TxOk(l: Ledger, tenant: string, tx: Tx) {
    && Proper(l, tx.req, tx.newId)
    && (tx.Decided? ==> tx.intent == Decide(l, tx.cat, tenant, tx.req, tx.newId, tx.now, tx.later).intent)
  }

  ghost predicate Inv(s: State) {
    && (forall tenant :: LedgerOk(s.Of(tenant)))
    && (forall tenant :: tenant in s.locks ==> TxOk(s.Of(tenant), tenant, s.locks[tenant]))
  }

  lemma WriteKeepsLedger(s: State, tenant: string)
    requires LedgerOk(s.Of(tenant)) && tenant in s.locks && TxOk(s.Of(tenant), tenant, s.locks[tenant])
      && s.locks[tenant].Decided?
    ensures Fits(s.Of(tenant), s.locks[tenant].intent) && Balanced(s.Of(tenant), s.locks[tenant].intent)
    ensures LedgerOk(Effect(s.Of(tenant), s.locks[tenant].intent))
  {
    var l, tx := s.Of(tenant), s.locks[tenant];
    DecisionFits(l, tx.cat, tenant, tx.req, tx.newId, tx.now, tx.later);
    DecisionBalanced(l, tx.cat, tenant, tx.req, tx.newId, tx.now, tx.later);
    EffectKeepsLedger(l, tx.intent);
  }

  lemma ConsumeKeepsLedger(l: Ledger, cat: Catalog, tenant: string, feature: string, key: string, amount: Amount,
                           month: int)
    requires LedgerOk(l) && !HasPrefix(key, RESERVATION_PREFIX)
    ensures var intent := DecideUnchecked(l, cat, tenant, feature, key, amount, month);
      Fits(l, intent) && LedgerOk(Effect(l, intent))
  {
    EffectKeepsLedger(l, DecideUnchecked(l, cat, tenant, feature, key, amount, month));
  }

  lemma StepKeepsLedger(s: State, st: Step, t: State, tenant: string)
    requires Inv(s) && Next(s, st, t)
    ensures LedgerOk(t.Of(tenant))
  {
    assert LedgerOk(s.Of(tenant));
    match st
    case Write(writer) => WriteKeepsLedger(s, writer);
    case Consume(user, feature, key, amount, month) =>
      ConsumeKeepsLedger(s.Of(user), s.cat, user, feature, key, amount, month);
    case _ =>
  }

  lemma StepKeepsInv(s: State, st: Step, t: State)
    requires Inv(s) && Next(s, st, t)
    ensures Inv(t)
  {
    forall tenant ensures LedgerOk(t.Of(tenant)) {
      assert LedgerOk(s.Of(tenant));
      StepKeepsLedger(s, st, t, tenant);
    }
  }

  ghost predicate IsRun(states: seq<State>, steps: seq<Step>) {
    IsTrace(Next, states, steps) && Init(states[0])
  }

  ghost predicate IsSoundRun(states: seq<State>, steps: seq<Step>) {
    IsTrace(Next, states, steps) && forall i :: 0 <= i < |states| ==> Inv(states[i])
  }

  lemma RunsAreSound(states: seq<State>, steps: seq<Step>)
    requires IsRun(states, steps)
    ensures IsSoundRun(states, steps)
  {
    EmptyOk();
    forall s, st, t | Inv(s) && Next(s, st, t) ensures Inv(t) { StepKeepsInv(s, st, t); }
    InvariantHolds(Next, Inv, states, steps);
  }

  /**
   Conservation. In every state of every interleaving, each tenant's counters equal the
   sums of their events, keys and ids are unique, and committed reservations correspond one
   to one with events of their own key, amount and month.
   */
  lemma BooksBalance(states: seq<State>, steps: seq<Step>, i: nat, tenant: string)
    requires IsRun(states, steps) && i < |states|
    ensures LedgerOk(states[i].Of(tenant))
  {
    RunsAreSound(states, steps);
    assert Inv(states[i]);
  }

  /** Under the lock no unique constraint refuses what a transaction decided. */
  lemma DecisionIsNotRefused(l: Ledger, cat: Catalog, tenant: string, req: Request, newId: string, now: Instant,
                             later: Instant)
    requires LedgerOk(l)
    ensures var intent := Decide(l, cat, tenant, req, newId, now, later).intent;
      Fits(l, intent) && !Violates(l, intent)
  {
  }

  /**
   A transaction never fails to write: in every interleaving, what it decided still fits when
   it writes, no unique constraint rolls it back, and all of it takes effect.
   */
  lemma WritesTakeEffect(states: seq<State>, steps: seq<Step>, i: nat, tenant: string)
    requires IsRun(states, steps) && i < |states| && tenant in states[i].locks && states[i].locks[tenant].Decided?
    ensures Enabled(states[i], Write(tenant))
    ensures var intent := states[i].locks[tenant].intent;
      Apply(states[i], Write(tenant)).Of(tenant) == Written(states[i].Of(tenant), intent)
  {
    RunsAreSound(states, steps);
    assert Inv(states[i]);
    var tx := states[i].locks[tenant];
    DecisionIsNotRefused(states[i].Of(tenant), tx.cat, tenant, tx.req, tx.newId, tx.now, tx.later);
  }

  /**
   The quota under interleaving. Every committed write of a transaction whose clock readings
   fall in one month leaves each feature and month either no more loaded than just before
   the write, or within the limit of the plan the transaction read.
   */
  lemma WriteRespectsQuota(states: seq<State>, steps: seq<Step>, i: nat, tenant: string, slot: Slot)
    requires IsRun(states, steps) && i < |steps| && steps[i] == Write(tenant)
    requires tenant in states[i].locks && states[i].locks[tenant].Decided?
    requires var tx := states[i].locks[tenant]; OneMonth(tx.req, tx.now, tx.later)
    ensures Respects(states[i].Of(tenant), states[i + 1].Of(tenant), slot,
                     LimitInForce(states[i].locks[tenant].cat, tenant, slot.feature))
  {
    RunsAreSound(states, steps);
    assert Next(states[i], steps[i], states[i + 1]) && Inv(states[i]);
    var tx := states[i].locks[tenant];
    TransactionRespectsQuota(states[i].Of(tenant), tx.cat, tenant, tx.req, tx.newId, tx.now, tx.later, slot);
  }

  // ----- With a fixed limit -----

  /**
   The plan always limits the slot's feature to `limit`, nobody consumes it unchecked, and no
   transaction straddles months.
   */
  ghost predicate FixedLimit(states: seq<State>, steps: seq<Step>, tenant: string, slot: Slot, limit: int) {
    && (forall i :: 0 <= i < |states| ==> LimitInForce(states[i].cat, tenant, slot.feature) == Some(limit))
    && (forall i :: 0 <= i < |steps| ==> QuietStep(steps[i], tenant, slot))
  }

  predicate QuietStep(st: Step, tenant: string, slot: Slot) {
    && !(st.Consume? && st.tenant == tenant && st.feature == slot.feature && st.month == slot.month)
    && (st.Read? ==> st.now.month == st.later.month)
  }

  predicate Bounded(s: State, tenant: string, slot: Slot, limit: int) {
    && Load(s.Of(tenant), slot) <= Max(limit, 0)
    && (tenant in s.locks && s.locks[tenant].Decided? ==>
          && LimitInForce(s.locks[tenant].cat, tenant, slot.feature) == Some(limit)
          && s.locks[tenant].now.month == s.locks[tenant].later.month)
  }

  lemma StepKeepsBound(s: State, st: Step, t: State, tenant: string, slot: Slot, limit: int)
    requires Inv(s) && Next(s, st, t) && QuietStep(st, tenant, slot) && Bounded(s, tenant, slot, limit)
    requires LimitInForce(s.cat, tenant, slot.feature) == Some(limit)
    ensures Bounded(t, tenant, slot, limit)
  {
    match st
    case Write(other) =>
      if other == tenant {
        var tx := s.locks[tenant];
        TransactionRespectsQuota(s.Of(tenant), tx.cat, tenant, tx.req, tx.newId, tx.now, tx.later, slot);
      }
    case Consume(other, feature, key, amount, month) =>
      if other == tenant {
        LoadAfter(s.Of(tenant), DecideUnchecked(s.Of(tenant), s.cat, tenant, feature, key, amount, month), slot);
      }
    case _ =>
  }

  /**
   With a fixed limit, consumed plus reserved never exceeds it in any month, in any run.
   */
  lemma {:induction false} FixedLimitHolds(states: seq<State>, steps: seq<Step>, tenant: string, slot: Slot,
                                           limit: int, i: nat)
    requires IsRun(states, steps) && FixedLimit(states, steps, tenant, slot, limit) && i < |states|
    ensures Bounded(states[i], tenant, slot, limit)
  {
    RunsAreSound(states, steps);
    if i > 0 {
      FixedLimitHolds(states, steps, tenant, slot, limit, i - 1);
      assert Next(states[i - 1], steps[i - 1], states[i]) && Inv(states[i - 1]);
      StepKeepsBound(states[i - 1], steps[i - 1], states[i], tenant, slot, limit);
    }
  }

  // ----- Reserved capacity -----

  /** The tenant holds this active reservation. */
  predicate Holds(s: State, tenant: string, i: nat, r: Reservation) {
    i < |s.Of(tenant).reservations| && s.Of(tenant).reservations[i] == r && r.status.Active?
  }

  /** The step commits or releases the reservation with this key. */
  predicate Closes(s: State, st: Step, tenant: string, key: string) {
    st.Write? && st.tenant == tenant && tenant in s.locks
    && (s.locks[tenant].req == Commit(key) || s.locks[tenant].req == Release(key))
  }

  lemma EffectKeepsReservation(l: Ledger, cat: Catalog, tenant: string, req: Request, newId: string,
                               now: Instant, later: Instant, i: nat)
    requires LedgerOk(l) && i < |l.reservations| && l.reservations[i].status.Active?
    requires req != Commit(l.reservations[i].key) && req != Release(l.reservations[i].key)
    ensures var intent := Decide(l, cat, tenant, req, newId, now, later).intent;
      Fits(l, intent) && i < |Effect(l, intent).reservations| && Effect(l, intent).reservations[i] == l.reservations[i]
  {
    FindUnique(l, i);
  }

  lemma StepKeepsReservation(s: State, st: Step, t: State, tenant: string, i: nat, r: Reservation)
    requires Inv(s) && Next(s, st, t) && Holds(s, tenant, i, r) && !Closes(s, st, tenant, r.key)
    ensures Holds(t, tenant, i, r)
  {
    if st.Write? && st.tenant == tenant {
      var tx := s.locks[tenant];
      EffectKeepsReservation(s.Of(tenant), tx.cat, tenant, tx.req, tx.newId, tx.now, tx.later, i);
    }
  }

  lemma {:induction false} ReservationStays(states: seq<State>, steps: seq<Step>, i: nat, j: nat, tenant: string,
                                            k: nat, r: Reservation)
    requires IsSoundRun(states, steps) && i <= j < |states| && Holds(states[i], tenant, k, r)
    requires forall m :: i <= m < j ==> !Closes(states[m], steps[m], tenant, r.key)
    ensures Holds(states[j], tenant, k, r)
    decreases j - i
  {
    if i < j {
      assert Next(states[i], steps[i], states[i + 1]) && Inv(states[i]);
      StepKeepsReservation(states[i], steps[i], states[i + 1], tenant, k, r);
      ReservationStays(states, steps, i + 1, j, tenant, k, r);
    }
  }

  /**
   Reserved capacity is honoured. Once a reservation is active, any run of other steps
   (plan downgrades, cancellations, other keys, other months, aborted transactions) leaves
   its commit able to succeed; the commit adds exactly the reserved amount to the month
   fixed when it was reserved and leaves consumed plus reserved as it was.
   */
  lemma ReservedCapacity(states: seq<State>, steps: seq<Step>, i: nat, j: nat, tenant: string, k: nat,
                         r: Reservation, slot: Slot)
    requires IsRun(states, steps) && i <= j < |states| && Holds(states[i], tenant, k, r)
    requires forall m :: i <= m < j ==> !Closes(states[m], steps[m], tenant, r.key)
    ensures var l := states[j].Of(tenant); var d := DecideCommit(l, r.key);
      && d.reply == Granted && Fits(l, d.intent)
      && var l' := Effect(l, d.intent);
        && l'.events == l.events + [Event("pos_sales", "reservation:" + r.id, r.amount, r.month)]
        && Used(l', slot) == Used(l, slot) + (if slot == Slot("pos_sales", r.month) then r.amount else 0)
        && Load(l', slot) == Load(l, slot)
  {
    RunsAreSound(states, steps);
    ReservationStays(states, steps, i, j, tenant, k, r);
    assert Inv(states[j]);
    CommitSucceeds(states[j].Of(tenant), k, slot);
  }

  /** Until it is committed or released, it can also be released, which frees exactly that capacity. */
  lemma ReservedIsReleasable(states: seq<State>, steps: seq<Step>, i: nat, j: nat, tenant: string, k: nat,
                             r: Reservation, slot: Slot)
    requires IsRun(states, steps) && i <= j < |states| && Holds(states[i], tenant, k, r)
    requires forall m :: i <= m < j ==> !Closes(states[m], steps[m], tenant, r.key)
    ensures var l := states[j].Of(tenant); var d := DecideRelease(l, r.key);
      && d.reply == Granted && Fits(l, d.intent)
      && var l' := Effect(l, d.intent);
        && l'.events == l.events && Used(l', slot) == Used(l, slot)
        && Load(l', slot) == Load(l, slot) - if slot == Slot("pos_sales", r.month) then r.amount else 0
  {
    RunsAreSound(states, steps);
    ReservationStays(states, steps, i, j, tenant, k, r);
    assert Inv(states[j]);
    ReleaseSucceeds(states[j].Of(tenant), k, slot);
  }

  lemma EffectKeepsCommitted(l: Ledger, cat: Catalog, tenant: string, req: Request, newId: string,
                             now: Instant, later: Instant, i: nat)
    requires LedgerOk(l) && i < |l.reservations| && l.reservations[i].status.Committed?
    ensures var intent := Decide(l, cat, tenant, req, newId, now, later).intent;
      Fits(l, intent) && i < |Effect(l, intent).reservations| && Effect(l, intent).reservations[i] == l.reservations[i]
  {
    FindUnique(l, i);
  }

  /** A committed reservation stays as it is for ever. */
  lemma {:induction false} CommittedIsForever(states: seq<State>, steps: seq<Step>, i: nat, j: nat, tenant: string,
                                              k: nat)
    requires IsSoundRun(states, steps) && i <= j < |states|
    requires k < |states[i].Of(tenant).reservations| && states[i].Of(tenant).reservations[k].status.Committed?
    ensures k < |states[j].Of(tenant).reservations|
    ensures states[j].Of(tenant).reservations[k] == states[i].Of(tenant).reservations[k]
    decreases j - i
  {
    if i < j {
      assert Next(states[i], steps[i], states[i + 1]) && Inv(states[i]);
      var s, st := states[i], steps[i];
      if st.Write? && st.tenant == tenant {
        var tx := s.locks[tenant];
        EffectKeepsCommitted(s.Of(tenant), tx.cat, tenant, tx.req, tx.newId, tx.now, tx.later, k);
      }
      CommittedIsForever(states, steps, i + 1, j, tenant, k);
    }
  }

  /** Events are never removed or rewritten. */
  lemma {:induction false} LogOnlyGrows(states: seq<State>, steps: seq<Step>, i: nat, j: nat, tenant: string)
    requires IsSoundRun(states, steps) && i <= j < |states|
    ensures states[i].Of(tenant).events <= states[j].Of(tenant).events
    decreases j - i
  {
    if i < j {
      assert Next(states[i], steps[i], states[i + 1]);
      LogOnlyGrows(states, steps, i + 1, j, tenant);
    }
  }
}
