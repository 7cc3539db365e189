/** What every run of the invoice machine guarantees: issuing at most once, and safe resending. */
module InvoiceSafety {
  import opened Common
  import opened Traces
  import opened Invoice
  import opened InvoiceMachine
  import opened InvoiceInvariant

  /** A run of the service from its start. */
  ghost predicate IsRun(states: seq<State>, steps: seq<Step>) {
    IsTrace(Next, states, steps) && Init(states[0])
  }

  /** A run, or the rest of one, all of whose states have the invariant. */
  ghost predicate IsSoundRun(states: seq<State>, steps: seq<Step>) {
    IsTrace(Next, states, steps) && forall i :: 0 <= i < |states| ==> Inv(states[i])
  }

  lemma RunsAreSound(states: seq<State>, steps: seq<Step>)
    requires IsTrace(Next, states, steps) && (Init(states[0]) || Inv(states[0]))
    ensures IsSoundRun(states, steps)
  {
    if Init(states[0]) { InitInv(states[0]); }
    forall s, st, t | Inv(s) && Next(s, st, t) ensures Inv(t) { StepKeepsInv(s, st, t); }
    InvariantHolds(Next, Inv, states, steps);
  }

  /** Some run of the service from its start leads here. */
  ghost predicate Reachable(s: State) {
    exists s0: State :: Init(s0) && Reaches(Next, s0, s)
  }

  lemma ReachableNext(s: State, st: Step, t: State)
    requires Reachable(s) && Next(s, st, t)
    ensures Reachable(t)
  {
    var s0: State :| Init(s0) && Reaches(Next, s0, s);
    ReachesThen(Next, s0, s, st, t);
  }

  lemma ReachableInv(s: State)
    requires Reachable(s)
    ensures Inv(s)
  {
    var s0: State :| Init(s0) && Reaches(Next, s0, s);
    InitInv(s0);
    forall a, st, b | Inv(a) && Next(a, st, b) ensures Inv(b) { StepKeepsInv(a, st, b); }
    ReachesInvariant(Next, Inv, s0, s);
  }

  // ----- Exactly once -----

  ghost predicate AtMostOneVoucherPerRow(s: State) {
    forall v, w :: v in s.vouchers && w in s.vouchers && s.vouchers[v].owner.Some? ==>
      s.vouchers[v].owner == s.vouchers[w].owner ==> v == w
  }

  /** The voucher is the row's own exactly when its number is above the sequence's starting point. */
  ghost predicate OwnsItsVoucher(s: State, id: nat)
    requires id in s.rows
  {
    var r := s.rows[id];
    && HoldsVoucher(s, r)
    && (s.vouchers[(r.Key(), r.number.value)].owner == Some(id) <==> r.number.value > s.Base(r.Key()))
    && !NumberTaken(s.rows, id, r.Key(), r.number.value)
  }

  lemma SameNumberSameRow(s: State, i: nat, j: nat)
    requires UniqueOk(s.rows) && i in s.rows && j in s.rows
    requires s.rows[i].Key() == s.rows[j].Key() && s.rows[i].number == s.rows[j].number && s.rows[i].number.Some?
    ensures i == j
  {
    assert i == j || Distinct(s.rows[i], s.rows[j]);
  }

  lemma ApprovedOwns(s: State, id: nat)
    requires Inv(s) && id in s.rows && s.rows[id].status.Approved?
    ensures OwnsItsVoucher(s, id)
  {
    var r := s.rows[id];
    assert HoldsVoucher(s, r);
    var owner := s.vouchers[(r.Key(), r.number.value)].owner;
    assert OwnerOk(s, r.Key(), r.number.value, owner);
    if owner.Some? { SameNumberSameRow(s, owner.value, id); }
    forall j | j in s.rows && s.rows[j].Key() == r.Key() && s.rows[j].number == r.number ensures j == id {
      SameNumberSameRow(s, j, id);
    }
  }

  lemma OneVoucher(s: State)
    requires Inv(s)
    ensures AtMostOneVoucherPerRow(s)
  {
    forall v, w | v in s.vouchers && w in s.vouchers && s.vouchers[v].owner.Some?
        && s.vouchers[v].owner == s.vouchers[w].owner
      ensures v == w
    {
      assert OwnerOk(s, v.0, v.1, s.vouchers[v].owner) && OwnerOk(s, w.0, w.1, s.vouchers[w].owner);
    }
  }

  /**
   Exactly once. In every reachable state the authority has issued at most one voucher per
   row; an approved row holds the CAE issued under its number, no other row has that number,
   and the voucher was issued for that very row if and only if the number is one the
   authority had not used before the service started.
   */
  lemma ExactlyOnce(states: seq<State>, steps: seq<Step>, i: nat)
    requires IsRun(states, steps) && i < |states|
    ensures AtMostOneVoucherPerRow(states[i])
    ensures forall id :: id in states[i].rows && states[i].rows[id].status.Approved? ==> OwnsItsVoucher(states[i], id)
  {
    RunsAreSound(states, steps);
    OneVoucher(states[i]);
    forall id | id in states[i].rows && states[i].rows[id].status.Approved? ensures OwnsItsVoucher(states[i], id) {
      ApprovedOwns(states[i], id);
    }
  }

  /** Across a whole run, with lost answers, delays and crashes, a row is issued at most once. */
  lemma IssuedOnce(states: seq<State>, steps: seq<Step>, i: nat, j: nat)
    requires IsRun(states, steps) && i <= j < |steps|
    requires steps[i].Deliver? && steps[j].Deliver? && steps[i].id == steps[j].id
    ensures i == j
  {
    RunsAreSound(states, steps);
    if i < j {
      DeliveredAt(states, steps, i);
      DeliveredAt(states, steps, j);
      SentStays(states, steps, i + 1, j, steps[i].id, steps[i].n);
    }
  }

  /** A delivery issues the submitted number that comes next. */
  lemma DeliveredAt(states: seq<State>, steps: seq<Step>, i: nat)
    requires IsSoundRun(states, steps) && i < |steps| && steps[i].Deliver?
    ensures var id, n := steps[i].id, steps[i].n;
      && id in states[i].rows && (id, n) in states[i].sent && (id, n) in states[i + 1].sent
      && id in states[i + 1].rows && states[i + 1].rows[id] == states[i].rows[id]
      && states[i].rows[id].number == Some(n) && n == states[i].Last(states[i].rows[id].Key()) + 1
      && states[i + 1].Last(states[i].rows[id].Key()) == n
  {
    assert Next(states[i], steps[i], states[i + 1]) && Inv(states[i]);
  }

  /** A submitted number stays on its row, and issued numbers stay issued. */
  lemma {:induction false} SentStays(states: seq<State>, steps: seq<Step>, i: nat, j: nat, id: nat, n: nat)
    requires IsSoundRun(states, steps) && i <= j < |states| && (id, n) in states[i].sent
    ensures id in states[i].rows && id in states[j].rows && (id, n) in states[j].sent
    ensures states[j].rows[id].number == Some(n) && states[j].rows[id].Key() == states[i].rows[id].Key()
    ensures states[i].Last(states[i].rows[id].Key()) <= states[j].Last(states[i].rows[id].Key())
    decreases j - i
  {
    if i < j {
      assert Next(states[i], steps[i], states[i + 1]) && Inv(states[i]);
      VouchersGrow(states[i], steps[i], states[i + 1]);
      RowPersists(states[i], steps[i], states[i + 1], id);
      SentStays(states, steps, i + 1, j, id, n);
    }
  }

  // ----- Resending -----

  ghost predicate Sends(st: Step, id: nat) {
    st == Step.Work(id, Send)
  }

  /** The authority answers that the row's number was never issued. */
  ghost predicate ConfirmsMissing(st: Step, id: nat) {
    st == Step.Work(id, LookupMissing)
  }

  /**
   Resend guard. Between two submissions of the same row the service has looked up that
   very number and been told it does not exist; both submissions carry the number that was
   committed on the row before the first.
   */
  lemma ResendGuard(states: seq<State>, steps: seq<Step>, i: nat, j: nat, id: nat, n: nat)
    requires IsRun(states, steps) && i < j < |steps|
    requires Sends(steps[i], id) && Sends(steps[j], id)
    requires id in states[i].rows && states[i].rows[id].number == Some(n)
    ensures id in states[j].rows && states[j].rows[id].number == Some(n)
    ensures exists k :: i < k < j && LookedUp(states[k], steps[k], id, n)
  {
    RunsAreSound(states, steps);
    assert Next(states[i], steps[i], states[i + 1]) && Next(states[j], steps[j], states[j + 1]);
    SentStays(states, steps, i + 1, j, id, n);
    if forall k :: i < k < j ==> !ConfirmsMissing(steps[k], id) {
      StaysUnconfirmed(states, steps, i + 1, j, id, n);
    } else {
      var k :| i < k < j && ConfirmsMissing(steps[k], id);
      assert Next(states[k], steps[k], states[k + 1]);
      SentStays(states, steps, i + 1, k, id, n);
      assert LookedUp(states[k], steps[k], id, n);
    }
  }

  ghost predicate LookedUp(s: State, st: Step, id: nat, n: nat) {
    && ConfirmsMissing(st, id) && id in s.rows && s.rows[id].number == Some(n)
    && (s.rows[id].Key(), n) !in s.vouchers
  }

  /** The row's number was submitted, and its worker has not got past the lookup since. */
  ghost predicate Unconfirmed(s: State, id: nat, n: nat) {
    && (id, n) in s.sent && id in s.rows
    && (id in s.jobs ==> s.jobs[id].Awaiting? || (s.jobs[id].Started? && s.rows[id].attempts > 1))
  }

  lemma StepStaysUnconfirmed(s: State, st: Step, t: State, id: nat, n: nat)
    requires Inv(s) && Next(s, st, t) && Unconfirmed(s, id, n) && !ConfirmsMissing(st, id)
    ensures Unconfirmed(t, id, n)
  {
    if st.Work? && st.id == id {
      assert s.rows[id].number == Some(n);
    } else {
      OthersKeepRow(s, st, t, id);
    }
  }

  lemma {:induction false} StaysUnconfirmed(states: seq<State>, steps: seq<Step>, i: nat, j: nat, id: nat, n: nat)
    requires IsSoundRun(states, steps) && i <= j < |states|
    requires Unconfirmed(states[i], id, n) && forall k :: i <= k < j ==> !ConfirmsMissing(steps[k], id)
    ensures Unconfirmed(states[j], id, n)
    decreases j - i
  {
    if i < j {
      assert Next(states[i], steps[i], states[i + 1]) && Inv(states[i]);
      StepStaysUnconfirmed(states[i], steps[i], states[i + 1], id, n);
      StaysUnconfirmed(states, steps, i + 1, j, id, n);
    }
  }
}
