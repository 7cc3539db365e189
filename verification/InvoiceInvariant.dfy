/** The inductive invariant of the invoice machine, one conjunct at a time. */
module InvoiceInvariant {
  import opened Common
  import opened Invoice
  import opened InvoiceMachine

  ghost predicate RowsOk(s: State) {
    forall id :: id in s.rows ==> RowOk(s.rows[id], s.threshold)
  }

  /** A job belongs to a row in processing whose number fits the phase. */
  predicate JobOk(r: Row, phase: Phase) {
    && r.status.Processing?
    && (phase.Reserving? ==> r.number.None?)
    && (phase.Sending? || phase.Awaiting? ==> r.number.Some?)
  }

  ghost predicate JobsOk(s: State) {
    forall id :: id in s.jobs ==> id in s.rows && JobOk(s.rows[id], s.jobs[id])
  }

  /** The three unique constraints of the invoice table. */
  ghost predicate UniqueOk(rows: map<nat, Row>) {
    forall i, j :: i in rows && j in rows && i != j ==> Distinct(rows[i], rows[j])
  }

  predicate Distinct(a: Row, b: Row) {
    && (a.tenant == b.tenant ==> a.externalId != b.externalId && (a.sale.Some? ==> a.sale != b.sale))
    && (a.Key() == b.Key() && a.number.Some? ==> a.number != b.number)
  }

  lemma SameExternalSameRow(rows: map<nat, Row>, i: nat, j: nat)
    requires UniqueOk(rows) && i in rows && j in rows
    requires rows[i].tenant == rows[j].tenant && rows[i].externalId == rows[j].externalId
    ensures i == j
  {
  }

  ghost predicate UniqueProfiles(s: State) {
    forall p, q :: p in s.profiles && q in s.profiles && p != q ==>
      s.profiles[p].tenant != s.profiles[q].tenant || s.profiles[p].env != s.profiles[q].env
  }

  /** The authority's vouchers are 1..last, and those above the base are ours. */
  ghost predicate AuthorityOk(s: State) {
    && (forall k, n :: (k, n) in s.vouchers <==> 1 <= n <= s.Last(k))
    && (forall k :: s.Base(k) <= s.Last(k))
    && (forall k, n :: (k, n) in s.vouchers ==> OwnerOk(s, k, n, s.vouchers[(k, n)].owner))
  }

  ghost predicate OwnerOk(s: State, k: Sequence, n: nat, owner: Option<nat>) {
    && (owner.None? <==> n <= s.Base(k))
    && (owner.Some? ==> owner.value in s.rows && s.rows[owner.value].Key() == k && (owner.value, n) in s.sent)
  }

  /** Every number submitted was, and still is, the committed number of its row. */
  ghost predicate SentOk(s: State) {
    forall id, n :: (id, n) in s.sent ==>
      && id in s.rows && s.rows[id].number == Some(n)
      && !s.rows[id].status.ReceiverRequired? && s.rows[id].attempts >= 1
  }

  /** Every call carries a number that was submitted for its row. */
  ghost predicate CallsOk(s: State) {
    forall c :: 0 <= c < |s.calls| ==> (s.calls[c].row, s.calls[c].number) in s.sent
  }

  /** Profiles are never removed, and their revisions only grow. */
  ghost predicate TrialsOk(s: State) {
    forall v :: 0 <= v < |s.trials| ==>
      s.trials[v].profile in s.profiles && s.trials[v].revision <= s.profiles[s.trials[v].profile].revision
  }

  /** An approved row holds the CAE of the voucher its number names. */
  ghost predicate ApprovedOk(s: State) {
    forall id :: id in s.rows && s.rows[id].status.Approved? ==> HoldsVoucher(s, s.rows[id])
  }

  ghost predicate HoldsVoucher(s: State, r: Row) {
    && r.number.Some? && (r.Key(), r.number.value) in s.vouchers
    && r.cae == Some(s.vouchers[(r.Key(), r.number.value)].cae)
  }

  /** The profile of an open invoice is the one it was created from. */
  predicate FrozenFor(s: State, r: Row) {
    && r.profileId in s.profiles
    && var p := s.profiles[r.profileId];
      && p.tenant == r.tenant && p.env == r.env && p.config == r.config
      && (p.validation == Valid || p.validation == Invalid)
  }

  ghost predicate FreezeOk(s: State) {
    forall id :: id in s.rows && s.rows[id].status.NonTerminal() ==> FrozenFor(s, s.rows[id])
  }

  ghost predicate Inv(s: State) {
    && RowsOk(s) && JobsOk(s) && UniqueOk(s.rows) && UniqueProfiles(s)
    && AuthorityOk(s) && SentOk(s) && CallsOk(s) && TrialsOk(s) && ApprovedOk(s)
    && FreezeOk(s)
  }

  lemma InitInv(s: State)
    requires Init(s)
    ensures Inv(s)
  {
  }

  // ----- Every step changes every row by one of the row changes -----

  ghost function ChangeOf(s: State, st: Step, id: nat): Change
    requires Enabled(s, st) && id in s.rows
  {
    match st
    case Work(j, act) => if j == id then WorkChange(s, id, act) else Change.Keep
    case Submit(sub, raced, fresh', now) =>
      var v := Judge(s, sub, raced, fresh', now);
      if v.Complete? && v.id == id then Change.Resume(v.receiver, v.number, now) else Change.Keep
    case _ => Change.Keep
  }

  lemma JudgeComplete(s: State, sub: Submission, raced: bool, id: nat, now: int)
    requires Judge(s, sub, raced, id, now).Complete?
    ensures var v := Judge(s, sub, raced, id, now);
      && v.id in s.rows && s.rows[v.id].status.ReceiverRequired? && !v.receiver.Generic()
      && s.rows[v.id].tenant == sub.tenant
      && v.receiver == sub.request.receiver && sub.number == Some(v.number)
      && !NumberTaken(s.rows, v.id, s.rows[v.id].Key(), v.number)
  {
  }

  lemma JudgeInsert(s: State, sub: Submission, raced: bool, id: nat, now: int)
    requires Judge(s, sub, raced, id, now).Insert?
    ensures var r := Judge(s, sub, raced, id, now).row;
      && HasProfile(s, sub.tenant, sub.env)
      && (var p := FindProfile(s, sub.tenant, sub.env);
          && s.profiles[p].validation == Valid
          && r == Fresh(sub.tenant, sub.env, p, s.profiles[p].config, sub.request, sub.number, now, s.threshold))
      && Insertable(s.rows, id, r)
  {
  }

  lemma WorkChangeAllowed(s: State, id: nat, act: Act)
    requires JobsOk(s) && CanWork(s, id, act)
    ensures Allowed(s.rows[id], WorkChange(s, id, act))
  {
  }

  /** A worker assigns a number only from its reservation, and never the request columns. */
  lemma WorkNumber(s: State, id: nat, act: Act)
    requires CanWork(s, id, act)
    ensures var r, r' := s.rows[id], Changed(s.rows[id], WorkChange(s, id, act));
      && r'.Key() == r.Key() && r'.explicit == r.explicit
      && (r'.number == r.number
          || (id in s.jobs && s.jobs[id].Reserving? && r'.number == Some(s.jobs[id].expected)))
      && (act.Claim? && WorkPhase(s, id, act).Some? ==> r'.attempts == r.attempts + 1)
  {
  }

  /** Where each phase can be entered from. */
  lemma PhaseOrigin(s: State, id: nat, act: Act)
    requires CanWork(s, id, act) && WorkPhase(s, id, act).Some?
    ensures match WorkPhase(s, id, act).value
      case Started => act.Claim?
      case Sequencing => act.SkipLookup? || act.LookupMissing?
      case Numbering(e) => act.AskLast? && e == s.Last(s.rows[id].Key()) + 1
      case Reserving(e) => id in s.jobs && s.jobs[id] == Numbering(e)
      case Busy => true
      case Sending => true
      case Awaiting(_) => act.Send?
  {
  }

  lemma StepChanges(s: State, st: Step, t: State, id: nat)
    requires JobsOk(s) && Next(s, st, t) && id in s.rows
    ensures id in t.rows && Allowed(s.rows[id], ChangeOf(s, st, id))
    ensures t.rows[id] == Changed(s.rows[id], ChangeOf(s, st, id))
  {
    match st
    case Work(j, act) => WorkChangeAllowed(s, j, act);
    case Submit(sub, raced, newId, now) =>
      if Judge(s, sub, raced, newId, now).Complete? { JudgeComplete(s, sub, raced, newId, now); }
    case _ =>
  }

  /** Only a submission that is judged new adds a row. */
  lemma StepAdds(s: State, st: Step, t: State, id: nat)
    requires JobsOk(s) && Next(s, st, t) && id in t.rows && id !in s.rows
    ensures st.Submit? && st.id == id && Judge(s, st.sub, st.raced, st.id, st.now) == Insert(t.rows[id])
  {
    match st
    case Work(j, act) =>
    case Submit(sub, raced, newId, now) =>
      if Judge(s, sub, raced, newId, now).Complete? { JudgeComplete(s, sub, raced, newId, now); }
    case _ =>
  }

  // ----- Preservation -----

  lemma KeepsRows(s: State, st: Step, t: State)
    requires Inv(s) && Next(s, st, t)
    ensures RowsOk(t)
  {
    forall id | id in t.rows ensures RowOk(t.rows[id], t.threshold) {
      if id in s.rows {
        StepChanges(s, st, t, id);
        ChangeKeepsOk(s.rows[id], ChangeOf(s, st, id), s.threshold);
      } else {
        StepAdds(s, st, t, id);
        JudgeInsert(s, st.sub, st.raced, id, st.now);
        var p := FindProfile(s, st.sub.tenant, st.sub.env);
        FreshOk(st.sub.tenant, st.sub.env, p, s.profiles[p].config, st.sub.request, st.sub.number, st.now, s.threshold);
      }
    }
  }

  /** Only a row's own worker, or the completion of its receiver, changes it. */
  lemma OthersKeepRow(s: State, st: Step, t: State, id: nat)
    requires JobsOk(s) && Next(s, st, t) && id in s.rows && !(st.Work? && st.id == id)
    ensures id in t.rows && (s.rows[id].status.ReceiverRequired? || t.rows[id] == s.rows[id])
    ensures id in t.jobs <==> id in s.jobs
    ensures id in s.jobs ==> t.jobs[id] == s.jobs[id]
    ensures forall n :: (id, n) in t.sent <==> (id, n) in s.sent
  {
    StepChanges(s, st, t, id);
  }

  lemma WorkKeepsJob(s: State, id: nat, act: Act)
    requires JobsOk(s) && CanWork(s, id, act) && WorkPhase(s, id, act).Some?
    ensures JobOk(Changed(s.rows[id], WorkChange(s, id, act)), WorkPhase(s, id, act).value)
  {
  }

  lemma KeepsJobs(s: State, st: Step, t: State)
    requires Inv(s) && Next(s, st, t)
    ensures JobsOk(t)
  {
    forall id | id in t.jobs ensures id in t.rows && JobOk(t.rows[id], t.jobs[id]) {
      if st.Work? && st.id == id {
        WorkKeepsJob(s, id, st.act);
      } else {
        NewJobsAreWork(s, st, t, id);
        OthersKeepRow(s, st, t, id);
      }
    }
  }

  lemma NewJobsAreWork(s: State, st: Step, t: State, id: nat)
    requires Next(s, st, t) && id in t.jobs && !(st.Work? && st.id == id)
    ensures id in s.jobs
  {
  }

  /** The only numbers a step can give to a row are free ones. */
  lemma NumberWasFree(s: State, st: Step, t: State, id: nat)
    requires JobsOk(s) && Next(s, st, t) && id in t.rows
    requires id in s.rows ==> t.rows[id].number != s.rows[id].number
    requires t.rows[id].number.Some?
    ensures !NumberTaken(s.rows, id, t.rows[id].Key(), t.rows[id].number.value)
    ensures st.Work? || st.Submit?
  {
    if id in s.rows {
      StepChanges(s, st, t, id);
      match st
      case Submit(sub, raced, newId, now) => JudgeComplete(s, sub, raced, newId, now);
      case Work(j, act) =>
      case _ =>
    } else {
      StepAdds(s, st, t, id);
      JudgeInsert(s, st.sub, st.raced, st.id, st.now);
    }
  }

  /** A step touches at most one row. */
  lemma OneRowAtATime(s: State, st: Step, t: State, i: nat, j: nat)
    requires JobsOk(s) && Next(s, st, t) && i in t.rows && j in t.rows && i != j
    ensures (i in s.rows && t.rows[i] == s.rows[i]) || (j in s.rows && t.rows[j] == s.rows[j])
  {
    match st
    case Submit(sub, raced, newId, now) =>
      if Judge(s, sub, raced, newId, now).Complete? { JudgeComplete(s, sub, raced, newId, now); }
    case Work(k, act) =>
    case _ =>
  }

  lemma DistinctKept(s: State, st: Step, t: State, i: nat, j: nat)
    requires Inv(s) && Next(s, st, t) && i in t.rows && j in s.rows && i != j
    requires j in t.rows && t.rows[j] == s.rows[j]
    ensures Distinct(t.rows[i], t.rows[j]) && Distinct(t.rows[j], t.rows[i])
  {
    var a, b := t.rows[i], s.rows[j];
    if a.Key() == b.Key() && a.number.Some? && a.number == b.number {
      if i in s.rows {
        StepChanges(s, st, t, i);
        ChangeKeepsOk(s.rows[i], ChangeOf(s, st, i), s.threshold);
        assert Distinct(s.rows[i], s.rows[j]);
      }
      NumberWasFree(s, st, t, i);
    }
    if i in s.rows {
      StepChanges(s, st, t, i);
      ChangeKeepsOk(s.rows[i], ChangeOf(s, st, i), s.threshold);
      assert Distinct(s.rows[i], s.rows[j]) && Distinct(s.rows[j], s.rows[i]);
    } else {
      StepAdds(s, st, t, i);
      JudgeInsert(s, st.sub, st.raced, i, st.now);
    }
  }

  lemma KeepsUnique(s: State, st: Step, t: State)
    requires Inv(s) && Next(s, st, t)
    ensures UniqueOk(t.rows)
  {
    forall i, j | i in t.rows && j in t.rows && i != j ensures Distinct(t.rows[i], t.rows[j]) {
      OneRowAtATime(s, st, t, i, j);
      if j in s.rows && t.rows[j] == s.rows[j] {
        DistinctKept(s, st, t, i, j);
      } else {
        DistinctKept(s, st, t, j, i);
      }
    }
  }

  lemma KeepsProfiles(s: State, st: Step, t: State)
    requires Inv(s) && Next(s, st, t)
    ensures UniqueProfiles(t)
  {
  }

  /** Identity, and once sent also number, of a row survive a step. */
  lemma RowPersists(s: State, st: Step, t: State, id: nat)
    requires Inv(s) && Next(s, st, t) && id in s.rows
    ensures id in t.rows && SameIdentity(s.rows[id], t.rows[id])
    ensures t.rows[id].attempts >= s.rows[id].attempts
    ensures !s.rows[id].status.NonTerminal() ==> t.rows[id] == s.rows[id]
    ensures !s.rows[id].status.ReceiverRequired? ==>
      && !t.rows[id].status.ReceiverRequired? && SameRequest(s.rows[id], t.rows[id])
      && (s.rows[id].number.Some? ==> t.rows[id].number == s.rows[id].number)
  {
    StepChanges(s, st, t, id);
    ChangeKeepsNumber(s.rows[id], ChangeOf(s, st, id));
    ChangeKeepsRequest(s.rows[id], ChangeOf(s, st, id));
  }

  /** Vouchers, once issued, are never lost or rewritten, and calls stay on record. */
  lemma VouchersGrow(s: State, st: Step, t: State)
    requires AuthorityOk(s) && Next(s, st, t)
    ensures forall v :: v in s.vouchers ==> v in t.vouchers && t.vouchers[v] == s.vouchers[v]
    ensures forall k :: s.Last(k) <= t.Last(k)
    ensures t.base == s.base && s.sent <= t.sent && t.threshold == s.threshold
    ensures !st.Deliver? ==> t.vouchers == s.vouchers && t.last == s.last
  {
  }

  lemma KeepsNumbering(s: State, st: Step, t: State)
    requires AuthorityOk(s) && Next(s, st, t)
    ensures forall k, n :: (k, n) in t.vouchers <==> 1 <= n <= t.Last(k)
    ensures forall k :: t.Base(k) <= t.Last(k)
  {
    VouchersGrow(s, st, t);
  }

  lemma OwnerKept(s: State, st: Step, t: State, k: Sequence, n: nat)
    requires Inv(s) && Next(s, st, t) && (k, n) in s.vouchers
    ensures (k, n) in t.vouchers && OwnerOk(t, k, n, t.vouchers[(k, n)].owner)
  {
    VouchersGrow(s, st, t);
    var owner := s.vouchers[(k, n)].owner;
    assert OwnerOk(s, k, n, owner);
    if owner.Some? { RowPersists(s, st, t, owner.value); }
  }

  /** A voucher appears only by delivery, for the row that submitted its number. */
  lemma NewVoucher(s: State, st: Step, t: State, k: Sequence, n: nat)
    requires Inv(s) && Next(s, st, t) && (k, n) in t.vouchers && (k, n) !in s.vouchers
    ensures st.Deliver? && n == st.n == s.Last(k) + 1 && t.vouchers[(k, n)] == Voucher(Some(st.id), st.cae)
    ensures (st.id, n) in s.sent && st.id in s.rows && s.rows[st.id].Key() == k
    ensures t.rows == s.rows && OwnerOk(t, k, n, Some(st.id))
  {
    VouchersGrow(s, st, t);
  }

  lemma KeepsAuthority(s: State, st: Step, t: State)
    requires Inv(s) && Next(s, st, t)
    ensures AuthorityOk(t)
  {
    KeepsNumbering(s, st, t);
    forall k, n | (k, n) in t.vouchers ensures OwnerOk(t, k, n, t.vouchers[(k, n)].owner) {
      if (k, n) in s.vouchers {
        OwnerKept(s, st, t, k, n);
      } else {
        NewVoucher(s, st, t, k, n);
      }
    }
  }

  lemma KeepsSent(s: State, st: Step, t: State)
    requires Inv(s) && Next(s, st, t)
    ensures SentOk(t)
  {
    forall id, n | (id, n) in t.sent
      ensures id in t.rows && t.rows[id].number == Some(n)
      ensures !t.rows[id].status.ReceiverRequired? && t.rows[id].attempts >= 1
    {
      if (id, n) !in s.sent { assert st.Work? && st.id == id && st.act.Send?; }
      RowPersists(s, st, t, id);
    }
  }

  lemma KeepsCalls(s: State, st: Step, t: State)
    requires CallsOk(s) && Next(s, st, t)
    ensures CallsOk(t)
  {
  }

  lemma KeepsTrials(s: State, st: Step, t: State)
    requires TrialsOk(s) && Next(s, st, t)
    ensures TrialsOk(t)
  {
  }

  lemma ApprovalHolds(s: State, id: nat, act: Act)
    requires CanWork(s, id, act) && WorkChange(s, id, act).Approve?
    ensures HoldsVoucher(s, Changed(s.rows[id], WorkChange(s, id, act)))
  {
  }

  /** Only a worker approves its row. */
  lemma NewlyApproved(s: State, st: Step, t: State, id: nat)
    requires JobsOk(s) && Next(s, st, t) && id in s.rows && !s.rows[id].status.Approved?
    requires id in t.rows && t.rows[id].status.Approved?
    ensures st.Work? && st.id == id && WorkChange(s, id, st.act).Approve?
    ensures t.rows[id] == Changed(s.rows[id], WorkChange(s, id, st.act))
  {
    StepChanges(s, st, t, id);
  }

  lemma AddedUnapproved(s: State, st: Step, t: State, id: nat)
    requires JobsOk(s) && Next(s, st, t) && id !in s.rows && id in t.rows
    ensures !t.rows[id].status.Approved?
  {
    StepAdds(s, st, t, id);
    JudgeInsert(s, st.sub, st.raced, id, st.now);
  }

  /** A row becomes approved only with the CAE the authority has under its number. */
  lemma NewApproval(s: State, st: Step, t: State, id: nat)
    requires JobsOk(s) && Next(s, st, t) && id in t.rows && t.rows[id].status.Approved?
    requires id in s.rows ==> !s.rows[id].status.Approved?
    ensures HoldsVoucher(s, t.rows[id])
  {
    if id !in s.rows {
      AddedUnapproved(s, st, t, id);
    } else {
      NewlyApproved(s, st, t, id);
      ApprovalHolds(s, id, st.act);
    }
  }

  lemma KeepsApproved(s: State, st: Step, t: State)
    requires Inv(s) && Next(s, st, t)
    ensures ApprovedOk(t)
  {
    VouchersGrow(s, st, t);
    forall id | id in t.rows && t.rows[id].status.Approved? ensures HoldsVoucher(t, t.rows[id]) {
      if id in s.rows && s.rows[id].status.Approved? {
        RowPersists(s, st, t, id);
        assert HoldsVoucher(s, s.rows[id]);
      } else {
        NewApproval(s, st, t, id);
      }
    }
  }

  /** An open invoice keeps its profile from being saved over or deleted. */
  lemma ProfileStaysFrozen(s: State, st: Step, t: State, r: Row)
    requires UniqueProfiles(s) && Next(s, st, t) && FrozenFor(s, r)
    requires HasOpenInvoice(s.rows, r.profileId)
    ensures FrozenFor(t, r)
  {
    match st
    case SaveProfile(_, _, _, _) =>
    case DeleteProfile(_, _) =>
    case FinishValidation(_, _) =>
    case _ => assert t.profiles == s.profiles;
  }

  lemma KeepsFreeze(s: State, st: Step, t: State)
    requires Inv(s) && Next(s, st, t)
    ensures FreezeOk(t)
  {
    forall id | id in t.rows && t.rows[id].status.NonTerminal() ensures FrozenFor(t, t.rows[id]) {
      if id in s.rows {
        RowPersists(s, st, t, id);
        ProfileStaysFrozen(s, st, t, s.rows[id]);
      } else {
        StepAdds(s, st, t, id);
        JudgeInsert(s, st.sub, st.raced, id, st.now);
      }
    }
  }

  /** Every step keeps the invariant. */
  lemma StepKeepsInv(s: State, st: Step, t: State)
    requires Inv(s) && Next(s, st, t)
    ensures Inv(t)
  {
    KeepsRows(s, st, t);
    KeepsJobs(s, st, t);
    KeepsUnique(s, st, t);
    KeepsProfiles(s, st, t);
    KeepsAuthority(s, st, t);
    KeepsSent(s, st, t);
    KeepsCalls(s, st, t);
    KeepsTrials(s, st, t);
    KeepsApproved(s, st, t);
    KeepsFreeze(s, st, t);
  }
}
