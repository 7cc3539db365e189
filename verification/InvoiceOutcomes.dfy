/**
 What each act of a worker and each submission does to the rows, told from their columns:
 which errors are retried and when, what every finished row says about its end, and which
 requests are accepted, completed or refused.
 */
module InvoiceOutcomes {
  import opened Common
  import opened Traces
  import opened Vat
  import opened Invoice
  import opened InvoiceMachine
  import opened InvoiceInvariant
  import opened InvoiceSafety
  import opened InvoiceLifecycle

  // ----- Acts of a worker -----

  /** The error that an act reports, and when. */
  function Report(act: Act): Option<(Code, int)> {
    match act
    case ClientError(code, now) => Some((code, now))
    case LookupError(code, now) => Some((code, now))
    case Fault(code, now) => Some((code, now))
    case ReportBusy(now) => Some((SequenceBusy, now))
    case _ => None
  }

  lemma ReportHandles(s: State, id: nat, act: Act)
    requires JobsOk(s) && CanWork(s, id, act) && Report(act).Some?
    ensures var (code, now) := Report(act).value;
      && WorkChange(s, id, act) == Change.Handle(code, now) && WorkPhase(s, id, act).None?
      && (Transient(code) || code in {ArcaAuth, ArcaRejected, NotFound})
    ensures id in s.jobs && s.rows[id].status.Processing?
  {
    assert JobOk(s.rows[id], s.jobs[id]);
  }

  lemma ErrorHandled(s: State, id: nat, act: Act, t: State)
    requires Inv(s) && Next(s, Step.Work(id, act), t) && Report(act).Some?
    ensures id in s.rows && id in t.rows && id !in t.jobs
    ensures HandledAs(s.rows[id], t.rows[id], Report(act).value.0, Report(act).value.1)
  {
    ReportHandles(s, id, act);
    assert RowOk(s.rows[id], s.threshold);
    HandlingWaits(s.rows[id], Report(act).value.0, Report(act).value.1);
  }

  /**
   Retries. Whatever reports an error in a run, the attempt is over and the row carries that
   error. A time-out, an unavailable authority or a busy sequence is retried 1, 10, 30 or 60
   minutes later after the first four attempts, and fails the row after the fifth or a later
   one; refused credentials, a refused request or a missing voucher rejects it at once.
   */
  lemma ErrorsAreHandled(states: seq<State>, steps: seq<Step>, i: nat, id: nat, act: Act)
    requires IsRun(states, steps) && i < |steps| && steps[i] == Step.Work(id, act) && Report(act).Some?
    ensures id in states[i].rows && id in states[i + 1].rows && id !in states[i + 1].jobs
    ensures HandledAs(states[i].rows[id], states[i + 1].rows[id], Report(act).value.0, Report(act).value.1)
  {
    RunsAreSound(states, steps);
    StepInSoundRun(states, steps, i);
    assert Inv(states[i]);
    ErrorHandled(states[i], id, act, states[i + 1]);
  }

  predicate SameSequence(a: Row, b: Row) {
    && a.env == b.env && a.config.cuit == b.config.cuit && a.config.pointOfSale == b.config.pointOfSale
    && a.config.voucherType == b.config.voucherType
  }

  /** Another row of the sequence has the number. */
  predicate HeldElsewhere(rows: map<nat, Row>, id: nat, n: nat)
    requires id in rows
  {
    exists j :: j in rows && j != id && SameSequence(rows[j], rows[id]) && rows[j].number == Some(n)
  }

  predicate HeldUnrejected(rows: map<nat, Row>, id: nat, n: nat)
    requires id in rows
  {
    exists j :: j in rows && j != id && SameSequence(rows[j], rows[id]) && rows[j].number == Some(n)
      && rows[j].status != Rejected
  }

  /** The profile of the row does not permit an attempt, for this reason. */
  predicate Unfit(s: State, r: Row, code: Code) {
    match code
    case ProfileMismatch =>
      || r.profileId !in s.profiles
      || s.profiles[r.profileId].tenant != r.tenant || s.profiles[r.profileId].env != r.env
    case ProfileNotValid =>
      && r.profileId in s.profiles
      && s.profiles[r.profileId].tenant == r.tenant && s.profiles[r.profileId].env == r.env
      && s.profiles[r.profileId].validation != Valid
    case _ => false
  }

  /** What a claim makes of a row: finished without an attempt, or counted and leased. */
  predicate ClaimedAs(s: State, id: nat, t: State, until: int)
    requires id in s.rows && id in t.rows
  {
    var r, r' := s.rows[id], t.rows[id];
    if Unfit(s, r, ProfileMismatch) || Unfit(s, r, ProfileNotValid) then
      && id !in t.jobs && OnlyOutcome(r, r') && r'.status == Failed && r'.nextRetry.None?
      && r'.error == Some(if Unfit(s, r, ProfileMismatch) then ProfileMismatch else ProfileNotValid)
    else
      && r' == r.(status := Processing, attempts := r.attempts + 1, nextRetry := Some(until))
      && id in t.jobs && t.jobs[id] == Started
  }

  lemma ClaimsAreCounted(s: State, id: nat, until: int, t: State)
    requires Next(s, Step.Work(id, Act.Claim(until)), t)
    ensures id in s.rows && id in t.rows && ClaimedAs(s, id, t, until)
  {
  }

  /** The row is over with this outcome, and so is the job. */
  predicate Ends(r: Row, t: State, id: nat, status: Status, error: Option<Code>, cae: Option<string>) {
    && id in t.rows && id !in t.jobs
    && t.rows[id] == r.(status := status, error := error, cae := cae, nextRetry := None)
  }

  /** The row is as it was, and its worker now at this point. */
  predicate GoesOn(r: Row, t: State, id: nat, phase: Phase) {
    id in t.rows && t.rows[id] == r && id in t.jobs && t.jobs[id] == phase
  }

  /** What the acts that number a row make of it. */
  ghost predicate Numbers(s: State, id: nat, act: Act, t: State)
    requires CanWork(s, id, act)
  {
    var r := s.rows[id];
    match act
    case AskLast => GoesOn(r, t, id, Numbering(s.Last(r.Key()) + 1))
    case Compare =>
      && r.number.Some? && s.jobs[id].Numbering?
      && (if r.number.value == s.jobs[id].expected then GoesOn(r, t, id, Sending)
          else Ends(r, t, id, Rejected, Some(CorrelativeConflict), None))
    case QueryHolder =>
      && r.number.None? && s.jobs[id].Numbering?
      && GoesOn(r, t, id,
                if HeldUnrejected(s.rows, id, s.jobs[id].expected) then Busy else Reserving(s.jobs[id].expected))
    case CommitNumber =>
      && s.jobs[id].Reserving?
      && (if HeldElsewhere(s.rows, id, s.jobs[id].expected) then GoesOn(r, t, id, Busy)
          else GoesOn(r.(number := Some(s.jobs[id].expected)), t, id, Sending))
    case _ => false
  }

  /** What the acts that ask the authority about the row's number make of it. */
  ghost predicate Asks(s: State, id: nat, act: Act, t: State)
    requires CanWork(s, id, act)
  {
    var r := s.rows[id];
    match act
    case SkipLookup => GoesOn(r, t, id, Sequencing) && (r.number.None? || r.attempts <= 1)
    case LookupMissing => GoesOn(r, t, id, Sequencing) && r.number.Some? && r.attempts >= 2
    case Send =>
      && r.number.Some? && GoesOn(r, t, id, Awaiting(|s.calls|))
      && t.sent == s.sent + {(id, r.number.value)} && t.calls == s.calls + [Call(id, r.number.value, true)]
    case _ => false
  }

  /** What the acts that end an attempt without an error make of the row. */
  ghost predicate EndsAs(s: State, id: nat, act: Act, t: State)
    requires CanWork(s, id, act)
  {
    var r := s.rows[id];
    if act.LookupFound? || act.AnswerCae? then
      && r.number.Some? && (r.Key(), r.number.value) in s.vouchers
      && Ends(r, t, id, Approved, None, Some(s.vouchers[(r.Key(), r.number.value)].cae))
    else if act.LookupWithoutCae? || act.AnswerWithoutCae? then
      Ends(r, t, id, Rejected, Some(ArcaRejected), None)
    else if act.GiveUp? then
      Ends(r, t, id, Quarantined, Some(WorkerUnexpected), None)
    else
      act.Crash? && id in t.rows && t.rows[id] == r && id !in t.jobs
  }

  lemma SequenceIsKey(a: Row, b: Row)
    ensures SameSequence(a, b) <==> a.Key() == b.Key()
  {
  }

  lemma HoldersFound(rows: map<nat, Row>, id: nat, n: nat)
    requires id in rows
    ensures NumberTaken(rows, id, rows[id].Key(), n) <==> HeldElsewhere(rows, id, n)
    ensures NumberBusy(rows, id, rows[id].Key(), n) <==> HeldUnrejected(rows, id, n)
  {
    forall j | j in rows ensures SameSequence(rows[j], rows[id]) <==> rows[j].Key() == rows[id].Key() {
      SequenceIsKey(rows[j], rows[id]);
    }
  }

  lemma QueryNumbers(s: State, id: nat, t: State)
    requires JobsOk(s) && Next(s, Step.Work(id, Act.QueryHolder), t)
    ensures Numbers(s, id, Act.QueryHolder, t)
  {
    HoldersFound(s.rows, id, s.jobs[id].expected);
  }

  lemma CommitNumbers(s: State, id: nat, t: State)
    requires JobsOk(s) && Next(s, Step.Work(id, Act.CommitNumber), t)
    ensures Numbers(s, id, Act.CommitNumber, t)
  {
    HoldersFound(s.rows, id, s.jobs[id].expected);
  }

  /** An attempt runs only on a row without a CAE. */
  lemma NoCaeYet(s: State, id: nat)
    requires Inv(s) && id in s.rows && s.rows[id].status.Active()
    ensures s.rows[id].cae.None?
  {
    assert RowOk(s.rows[id], s.threshold);
  }

  lemma CompareNumbers(s: State, id: nat, t: State)
    requires JobsOk(s) && Next(s, Step.Work(id, Compare), t) && s.rows[id].cae.None?
    ensures Numbers(s, id, Compare, t)
  {
  }

  lemma AskNumbers(s: State, id: nat, t: State)
    requires Next(s, Step.Work(id, AskLast), t)
    ensures Numbers(s, id, AskLast, t)
  {
  }

  lemma JobCloses(s: State, id: nat, act: Act, t: State)
    requires Next(s, Step.Work(id, act), t) && WorkPhase(s, id, act).None?
    ensures id in t.rows && id !in t.jobs && t.rows[id] == Changed(s.rows[id], WorkChange(s, id, act))
  {
  }

  lemma EndingActs(s: State, id: nat, act: Act, t: State)
    requires Next(s, Step.Work(id, act), t) && s.rows[id].cae.None?
    requires act.LookupFound? || act.AnswerCae? || act.LookupWithoutCae? || act.AnswerWithoutCae? || act.GiveUp?
      || act.Crash?
    ensures EndsAs(s, id, act, t)
  {
    JobCloses(s, id, act, t);
  }

  lemma MovingActs(s: State, id: nat, act: Act, t: State)
    requires Next(s, Step.Work(id, act), t) && (act.SkipLookup? || act.LookupMissing? || act.Send?)
    ensures Asks(s, id, act, t)
  {
  }

  /** Working needs an active row. */
  lemma WorkIsActive(s: State, id: nat, act: Act)
    requires JobsOk(s) && CanWork(s, id, act)
    ensures s.rows[id].status.Active()
  {
    assert id in s.jobs ==> JobOk(s.rows[id], s.jobs[id]);
  }

  ghost predicate ActDoes(s: State, id: nat, act: Act, t: State)
    requires CanWork(s, id, act)
  {
    if act.Claim? then id in t.rows && ClaimedAs(s, id, t, act.leaseUntil)
    else Numbers(s, id, act, t) || Asks(s, id, act, t) || EndsAs(s, id, act, t)
  }

  lemma ActDone(s: State, id: nat, act: Act, t: State)
    requires JobsOk(s) && Next(s, Step.Work(id, act), t) && Report(act).None? && s.rows[id].cae.None?
    ensures ActDoes(s, id, act, t)
  {
    if act.Claim? { ClaimsAreCounted(s, id, act.leaseUntil, t); }
    else if act.QueryHolder? { QueryNumbers(s, id, t); }
    else if act.CommitNumber? { CommitNumbers(s, id, t); }
    else if act.Compare? { CompareNumbers(s, id, t); }
    else if act.SkipLookup? || act.LookupMissing? || act.Send? { MovingActs(s, id, act, t); }
    else if act.AskLast? { AskNumbers(s, id, t); }
    else { EndingActs(s, id, act, t); }
  }

  /**
   Acts. In a run, each act of a worker that reports no error does exactly this to its row: it
   approves it with the voucher's CAE, ends it with the reason that applies, counts and leases
   it, numbers it, or leaves it as it is.
   */
  lemma ActsDo(states: seq<State>, steps: seq<Step>, i: nat, id: nat, act: Act)
    requires IsRun(states, steps) && i < |steps| && steps[i] == Step.Work(id, act) && Report(act).None?
    ensures CanWork(states[i], id, act) && ActDoes(states[i], id, act, states[i + 1])
  {
    RunsAreSound(states, steps);
    StepInSoundRun(states, steps, i);
    assert Inv(states[i]);
    WorkIsActive(states[i], id, act);
    NoCaeYet(states[i], id);
    ActDone(states[i], id, act, states[i + 1]);
  }

  // ----- What a row says about itself -----

  /** The status of a row says what happened to it, and its error why. */
  predicate Explained(r: Row) {
    match r.status
    case ReceiverRequired => r.error == Some(IdentificationRequired) && r.attempts == 0
    case ServiceDatesRequired => false
    case Pending => r.error.None? && r.attempts == 0
    case Processing => r.error.None? || Transient(r.error.value)
    case Retrying => r.error.Some? && Transient(r.error.value) && 1 <= r.attempts <= 4
    case Approved => r.error.None? && r.attempts >= 1
    case Rejected =>
      && r.attempts >= 1
      && r.error.Some? && r.error.value in {ArcaAuth, ArcaRejected, NotFound, CorrelativeConflict}
    case Failed =>
      && r.error.Some?
      && (r.error.value in {ProfileMismatch, ProfileNotValid} || (Transient(r.error.value) && r.attempts >= 5))
    case Quarantined => r.error == Some(WorkerUnexpected)
  }

  /** Changes that come with a reason of their kind. */
  predicate Reasoned(c: Change) {
    match c
    case Finish(code) => code in {ArcaRejected, CorrelativeConflict, ProfileMismatch, ProfileNotValid}
    case Handle(code, _) => Transient(code) || code in {ArcaAuth, ArcaRejected, NotFound}
    case _ => true
  }

  lemma WorkReasoned(s: State, id: nat, act: Act)
    requires CanWork(s, id, act)
    ensures Reasoned(WorkChange(s, id, act)) && !WorkChange(s, id, act).Resume?
    ensures WorkChange(s, id, act).Finish? && WorkChange(s, id, act).code in {ArcaRejected, CorrelativeConflict} ==>
      id in s.jobs
  {
  }

  lemma ChangeExplains(r: Row, c: Change)
    requires Explained(r) && Allowed(r, c) && Reasoned(c) && (r.status.Processing? ==> r.attempts >= 1)
    requires c.Finish? && c.code in {ArcaRejected, CorrelativeConflict} ==> r.status.Processing?
    ensures Explained(Changed(r, c))
  {
  }

  lemma WorkExplains(s: State, id: nat, act: Act)
    requires Inv(s) && CanWork(s, id, act) && Explained(s.rows[id])
    ensures Explained(Changed(s.rows[id], WorkChange(s, id, act)))
  {
    assert RowOk(s.rows[id], s.threshold) && (id in s.jobs ==> JobOk(s.rows[id], s.jobs[id]));
    WorkReasoned(s, id, act);
    WorkChangeAllowed(s, id, act);
    ChangeExplains(s.rows[id], WorkChange(s, id, act));
  }

  lemma StepExplains(s: State, st: Step, t: State, id: nat)
    requires Inv(s) && Next(s, st, t) && id in t.rows && (id in s.rows ==> Explained(s.rows[id]))
    ensures Explained(t.rows[id])
  {
    if id !in s.rows {
      StepAdds(s, st, t, id);
      JudgeInsert(s, st.sub, st.raced, id, st.now);
    } else {
      StepChanges(s, st, t, id);
      assert RowOk(s.rows[id], s.threshold);
      if st.Work? && st.id == id { WorkExplains(s, id, st.act); }
    }
  }

  /**
   Outcomes. In every reachable state each row is explained by its error: a failed row met a
   passing error at its fifth attempt or later, or lost its profile; a rejected one was
   refused or conflicts; an approved or pending one has no error; and so on.
   */
  lemma {:induction false} StatusTellsWhy(states: seq<State>, steps: seq<Step>, i: nat, id: nat)
    requires IsRun(states, steps) && IsSoundRun(states, steps) && i < |states| && id in states[i].rows
    ensures Explained(states[i].rows[id])
  {
    if i > 0 {
      assert Next(states[i - 1], steps[i - 1], states[i]) && Inv(states[i - 1]);
      if id in states[i - 1].rows { StatusTellsWhy(states, steps, i - 1, id); }
      StepExplains(states[i - 1], steps[i - 1], states[i], id);
    }
  }

  // ----- New requests -----

  predicate IsProfileOf(s: State, p: nat, tenant: string, env: Environment) {
    p in s.profiles && s.profiles[p].tenant == tenant && s.profiles[p].env == env
  }

  predicate Anonymous(receiver: Receiver) {
    receiver.docType == 99 && (receiver.docNumber == "0" || receiver.docNumber == "")
  }

  /** A sale, or an automatic request, under a concept other than products. */
  predicate WrongConcept(sub: Submission, c: Config) {
    c.concept != 1 && (sub.automatic || sub.request.sale.Some?)
  }

  predicate DatesMissing(sub: Submission, c: Config) {
    (c.concept == 2 || c.concept == 3) && sub.request.serviceDates.None?
  }

  predicate SaleSeen(s: State, sub: Submission) {
    sub.request.sale.Some?
    && exists j :: j in s.rows && s.rows[j].tenant == sub.tenant && s.rows[j].sale == sub.request.sale
  }

  predicate NumberSeen(s: State, sub: Submission, c: Config) {
    && sub.number.Some?
    && exists j ::
      && j in s.rows && s.rows[j].env == sub.env && s.rows[j].config.cuit == c.cuit
      && s.rows[j].config.pointOfSale == c.pointOfSale && s.rows[j].config.voucherType == c.voucherType
      && s.rows[j].number == sub.number
  }

  /** The answer to a request of a valid profile whose external id is new. */
  predicate NewAnswer(s: State, sub: Submission, raced: bool, c: Config, v: Verdict) {
    if SaleSeen(s, sub) && !raced then v == Refuse(SaleAlreadyInvoiced)
    else if WrongConcept(sub, c) then v == Refuse(NeedsProductsConcept)
    else if DatesMissing(sub, c) then v == Refuse(NeedsServiceDates)
    else if SaleSeen(s, sub) then v == Refuse(SaleAlreadyInvoiced)
    else if NumberSeen(s, sub, c) then v == Refuse(FiscalReferenceConflict)
    else v.Insert?
  }

  lemma ReferencesSeen(s: State, sub: Submission, id: nat, c: Config)
    requires id !in s.rows
    ensures SaleTaken(s.rows, sub.tenant, sub.request.sale) <==> SaleSeen(s, sub)
    ensures sub.number.Some? ==>
      (NumberTaken(s.rows, id, Sequence(sub.env, c.cuit, c.pointOfSale, c.voucherType), sub.number.value)
       <==> NumberSeen(s, sub, c))
  {
  }

  /**
   New requests. A request under a new external id is accepted exactly when the tenant is
   entitled, its profile is valid and suits it, its sale has no invoice yet and its number, if
   it names one, is free in the sequence; otherwise it is refused for the first reason that
   applies. One that loses a race meets its sale only after its concept and dates.
   */
  lemma NewRequestAnswer(s: State, sub: Submission, raced: bool, id: nat, now: int)
    requires Inv(s) && id !in s.rows
    requires forall j :: j in s.rows ==>
      !(s.rows[j].tenant == sub.tenant && s.rows[j].externalId == sub.request.externalId)
    ensures var v := Judge(s, sub, raced, id, now);
      && (v == Refuse(NotEntitled) <==> !sub.entitled)
      && (v == Refuse(ProfileNotFound) <==>
            sub.entitled && forall p :: IsProfileOf(s, p, sub.tenant, sub.env) ==> s.profiles[p].validation == Deleted)
      && (forall p :: IsProfileOf(s, p, sub.tenant, sub.env) && sub.entitled ==>
            && (v == Refuse(ProfileUnusable) <==> s.profiles[p].validation in {NotValidated, Invalid})
            && (s.profiles[p].validation == Valid ==> NewAnswer(s, sub, raced, s.profiles[p].config, v)))
  {
    if HasProfile(s, sub.tenant, sub.env) {
      var p := FindProfile(s, sub.tenant, sub.env);
      assert IsProfileOf(s, p, sub.tenant, sub.env);
      assert forall q :: IsProfileOf(s, q, sub.tenant, sub.env) ==> q == p;
      if sub.entitled && s.profiles[p].validation == Valid { ValidAnswer(s, sub, raced, id, now, p); }
    } else {
      assert forall p :: !IsProfileOf(s, p, sub.tenant, sub.env);
    }
  }

  lemma ValidAnswer(s: State, sub: Submission, raced: bool, id: nat, now: int, p: nat)
    requires id !in s.rows && sub.entitled && HasProfile(s, sub.tenant, sub.env)
    requires p == FindProfile(s, sub.tenant, sub.env) && s.profiles[p].validation == Valid
    requires forall j :: j in s.rows ==>
      !(s.rows[j].tenant == sub.tenant && s.rows[j].externalId == sub.request.externalId)
    ensures NewAnswer(s, sub, raced, s.profiles[p].config, Judge(s, sub, raced, id, now))
  {
    ReferencesSeen(s, sub, id, s.profiles[p].config);
    assert !ExternalTaken(s.rows, sub.tenant, sub.request.externalId);
  }

  /** The row of an accepted request: a copy of request and profile, due at once unless it needs its receiver. */
  lemma NewRow(s: State, sub: Submission, raced: bool, id: nat, now: int)
    requires Inv(s) && Judge(s, sub, raced, id, now).Insert?
    ensures var r := Judge(s, sub, raced, id, now).row;
      && IsProfileOf(s, r.profileId, sub.tenant, sub.env) && r.config == s.profiles[r.profileId].config
      && r.tenant == sub.tenant && r.env == sub.env && r.request == sub.request && r.receiver == sub.request.receiver
      && r.externalId == sub.request.externalId && r.sale == sub.request.sale
      && r.amounts == AmountsOf(sub.request.lines, r.config.vatRate)
      && r.number == sub.number && (r.explicit <==> sub.number.Some?) && r.attempts == 0 && r.cae.None?
      && if r.amounts.total >= s.threshold && Anonymous(sub.request.receiver) then
           r.status == ReceiverRequired && r.nextRetry.None? && r.error == Some(IdentificationRequired)
         else
           r.status == Pending && r.nextRetry == Some(now) && r.error.None?
  {
    JudgeInsert(s, sub, raced, id, now);
  }

  // ----- Completing a request -----

  /**
   Completions. A request under the external id of a row that waits for its receiver completes
   it exactly when it names the same sale, an identified receiver and a number that no other
   row of the sequence has; otherwise it is answered or refused without change.
   */
  lemma CompletionAnswer(s: State, sub: Submission, newId: nat, now: int, id: nat)
    requires Submittable(s, sub, id) && s.rows[id].status.ReceiverRequired?
    ensures var v, r := Judge(s, sub, false, newId, now), s.rows[id];
      if sub.request.sale != r.sale then v == Refuse(IdempotencyConflict)
      else if Anonymous(sub.request.receiver) then v == Stored(id)
      else if sub.number.None? then v == Refuse(NeedsExplicitNumber)
      else if HeldElsewhere(s.rows, id, sub.number.value) then v == Refuse(FiscalReferenceConflict)
      else v == Verdict.Complete(id, sub.request.receiver, sub.number.value)
  {
    ExternalIsUnique(s, sub, id);
    assert RowOk(s.rows[id], s.threshold);
    if sub.number.Some? { HoldersFound(s.rows, id, sub.number.value); }
  }

  /** The completed row: its receiver and number, no error, and due at once. */
  lemma CompletedRow(s: State, sub: Submission, newId: nat, now: int, id: nat, t: State)
    requires Submittable(s, sub, id) && Judge(s, sub, false, newId, now).Complete?
    requires Next(s, Submit(sub, false, newId, now), t)
    ensures id in t.rows && sub.number.Some?
    ensures var r, r' := s.rows[id], t.rows[id];
      && r'.status == Pending && r'.nextRetry == Some(now) && r'.error.None? && r'.attempts == 0 && r'.cae.None?
      && r'.receiver == sub.request.receiver && !Anonymous(r'.receiver) && r'.number == sub.number && r'.explicit
      && SameIdentity(r, r') && r'.request == r.request.(receiver := sub.request.receiver)
    ensures forall j :: j in s.rows && j != id ==> j in t.rows && t.rows[j] == s.rows[j]
  {
    ResumeEffect(s, sub, newId, now, id, t);
    ExternalIsUnique(s, sub, id);
    JudgeComplete(s, sub, false, newId, now);
    assert RowOk(s.rows[id], s.threshold);
  }
}
