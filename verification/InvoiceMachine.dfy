/**
 The invoice-issuing protocol as a step machine. A state holds the committed tables, what
 each running worker knows beyond its committed row, and the remote authority. Steps of
 different rows interleave freely; a worker may die at any point and loses only its job.

 The remote authority issues number n of a sequence only right after n - 1, and answers a
 lookup of n with its voucher exactly when n was issued. Calls may be delayed without
 bound: the authority acts on a call once, by issuing or refusing it, at any time after it
 was made, even after its worker died.
 At most one worker works on a row at a time.
 */
module InvoiceMachine {
  import opened Common
  import opened Invoice

  datatype Validation = NotValidated | Valid | Invalid | Deleted

  /** `revision` counts how often the profile, with its credentials, was saved over or deleted. */
  datatype Profile = Profile(tenant: string, env: Environment, config: Config, validation: Validation, revision: nat)

  /** A validation that has read a profile and is trying it; closed once it has written or given up. */
  datatype Trial = Trial(profile: nat, read: Validation, revision: nat, open: bool)

  /** A voucher at the authority; `owner` is the invoice row it was issued for, if it was ours. */
  datatype Voucher = Voucher(owner: Option<nat>, cae: string)

  /** How far a worker has got with its row. */
  datatype Phase =
    | Started
    | Sequencing
    | Numbering(expected: nat)
    | Reserving(expected: nat)
    | Busy
    | Sending
    | Awaiting(call: nat)

  /** A call to the authority; open until the authority issues or refuses it. */
  datatype Call = Call(row: nat, number: nat, open: bool)

  /**
   `base` is the last number of each sequence when the service started; `calls` are all
   calls ever made and `sent` records every (row, number) submitted in them.
   */
  datatype State = State(
    threshold: int, base: map<Sequence, nat>,
    profiles: map<nat, Profile>, rows: map<nat, Row>, jobs: map<nat, Phase>,
    last: map<Sequence, nat>, vouchers: map<(Sequence, nat), Voucher>, sent: set<(nat, nat)>,
    calls: seq<Call>, trials: seq<Trial>)
  {
    function Last(k: Sequence): nat { if k in last then last[k] else 0 }
    function Base(k: Sequence): nat { if k in base then base[k] else 0 }

    /** The authority has not acted on the call yet. */
    predicate Pending(call: nat) { call < |calls| && calls[call].open }
  }

  ghost predicate Init(s: State) {
    && s.profiles == map[] && s.rows == map[] && s.jobs == map[] && s.sent == {} && s.calls == [] && s.trials == []
    && s.last == s.base
    && (forall k, n :: (k, n) in s.vouchers <==> 1 <= n <= s.Base(k))
    && (forall v :: v in s.vouchers ==> s.vouchers[v].owner == None)
  }

  // ----- Uniqueness -----

  /** Another row of the sequence already holds the number. */
  ghost predicate NumberTaken(rows: map<nat, Row>, id: nat, k: Sequence, n: nat) {
    exists j :: j in rows && j != id && rows[j].Key() == k && rows[j].number == Some(n)
  }

  /** As `NumberTaken`, but a rejected holder does not count. */
  ghost predicate NumberBusy(rows: map<nat, Row>, id: nat, k: Sequence, n: nat) {
    exists j :: j in rows && j != id && rows[j].Key() == k && rows[j].number == Some(n) && !rows[j].status.Rejected?
  }

  ghost predicate ExternalTaken(rows: map<nat, Row>, tenant: string, externalId: string) {
    exists j :: j in rows && rows[j].tenant == tenant && rows[j].externalId == externalId
  }

  ghost predicate SaleTaken(rows: map<nat, Row>, tenant: string, sale: Option<string>) {
    sale.Some? && exists j :: j in rows && rows[j].tenant == tenant && rows[j].sale == sale
  }

  ghost predicate Insertable(rows: map<nat, Row>, id: nat, r: Row) {
    && !ExternalTaken(rows, r.tenant, r.externalId)
    && !SaleTaken(rows, r.tenant, r.sale)
    && (r.number.Some? ==> !NumberTaken(rows, id, r.Key(), r.number.value))
  }

  ghost function FindExternal(rows: map<nat, Row>, tenant: string, externalId: string): (id: nat)
    requires ExternalTaken(rows, tenant, externalId)
    ensures id in rows && rows[id].tenant == tenant && rows[id].externalId == externalId
  {
    var id :| id in rows && rows[id].tenant == tenant && rows[id].externalId == externalId;
    id
  }

  // ----- Profiles -----

  ghost predicate HasProfile(s: State, tenant: string, env: Environment) {
    exists p :: p in s.profiles && s.profiles[p].tenant == tenant && s.profiles[p].env == env
  }

  ghost function FindProfile(s: State, tenant: string, env: Environment): (p: nat)
    requires HasProfile(s, tenant, env)
    ensures p in s.profiles && s.profiles[p].tenant == tenant && s.profiles[p].env == env
  {
    var p :| p in s.profiles && s.profiles[p].tenant == tenant && s.profiles[p].env == env;
    p
  }

  ghost predicate HasOpenInvoice(rows: map<nat, Row>, p: nat) {
    exists id :: id in rows && rows[id].profileId == p && rows[id].status.NonTerminal()
  }

  // ----- Submitting a request -----

  datatype Submission = Submission(
    tenant: string, env: Environment, request: Request, number: Option<nat>, automatic: bool, entitled: bool)

  datatype Refusal =
    | NotEntitled | ProfileNotFound | ProfileUnusable | IdempotencyConflict | SaleAlreadyInvoiced
    | NeedsProductsConcept | NeedsServiceDates | NeedsExplicitNumber | FiscalReferenceConflict

  datatype Verdict =
    | Refuse(why: Refusal)
    | Stored(id: nat)
    | Complete(id: nat, receiver: Receiver, number: nat)
    | Insert(row: Row)

  /**
   What a submission leads to. `raced` is the case in which the queries for an existing
   request or sale ran before a concurrent submission committed: only the unique
   constraints then see it.
   */
  ghost function Judge(s: State, sub: Submission, raced: bool, id: nat, now: int): Verdict {
    if !sub.entitled then Refuse(NotEntitled)
    else if !HasProfile(s, sub.tenant, sub.env) then Refuse(ProfileNotFound)
    else
      var p := FindProfile(s, sub.tenant, sub.env);
      if s.profiles[p].validation == Deleted then Refuse(ProfileNotFound)
      else if s.profiles[p].validation != Valid then Refuse(ProfileUnusable)
      else if !raced && ExternalTaken(s.rows, sub.tenant, sub.request.externalId) then
        JudgeExisting(s, FindExternal(s.rows, sub.tenant, sub.request.externalId), sub)
      else if !raced && SaleTaken(s.rows, sub.tenant, sub.request.sale) then Refuse(SaleAlreadyInvoiced)
      else JudgeNew(s, p, sub, id, now)
  }

  /** Sales are invoiced automatically only under the products concept. */
  predicate NeedsProducts(c: Config, sub: Submission) {
    (sub.automatic || sub.request.sale.Some?) && c.concept != 1
  }

  predicate NeedsDates(c: Config, sub: Submission) {
    (c.concept == 2 || c.concept == 3) && sub.request.serviceDates.None?
  }

  ghost function JudgeNew(s: State, p: nat, sub: Submission, id: nat, now: int): Verdict
    requires p in s.profiles
  {
    var config := s.profiles[p].config;
    if NeedsProducts(config, sub) then Refuse(NeedsProductsConcept)
    else if NeedsDates(config, sub) then Refuse(NeedsServiceDates)
    else
      var row := Fresh(sub.tenant, sub.env, p, config, sub.request, sub.number, now, s.threshold);
      if Insertable(s.rows, id, row) then Insert(row)
      else if ExternalTaken(s.rows, sub.tenant, sub.request.externalId) then
        var other := FindExternal(s.rows, sub.tenant, sub.request.externalId);
        if s.rows[other].hash != row.hash then Refuse(IdempotencyConflict) else Stored(other)
      else if SaleTaken(s.rows, sub.tenant, sub.request.sale) then Refuse(SaleAlreadyInvoiced)
      else Refuse(FiscalReferenceConflict)
  }

  ghost function JudgeExisting(s: State, id: nat, sub: Submission): Verdict
    requires id in s.rows
  {
    var r := s.rows[id];
    if r.status.ReceiverRequired? then
      if r.request.externalId != sub.request.externalId || r.request.sale != sub.request.sale then
        Refuse(IdempotencyConflict)
      else if sub.request.receiver.Generic() then Stored(id)
      else if sub.number.None? then Refuse(NeedsExplicitNumber)
      else if NumberTaken(s.rows, id, r.Key(), sub.number.value) then Refuse(FiscalReferenceConflict)
      else Complete(id, sub.request.receiver, sub.number.value)
    else if r.hash != Fingerprint(sub.env, sub.number, sub.request) then Refuse(IdempotencyConflict)
    else Stored(id)
  }

  // ----- Working on a row -----

  /**
   What a worker does with its row. `Fault` is any exception between the sequence lock and
   the recording of the answer, which the service classifies and handles wherever it arises.
   Only a time-out or an unavailable authority leaves open whether a call will take effect:
   any other answer to it comes after the authority has issued or refused it.
   */
  datatype Act =
    | Claim(leaseUntil: int)
    | ClientError(code: Code, now: int)
    | SkipLookup
    | LookupMissing
    | LookupFound
    | LookupWithoutCae
    | LookupError(code: Code, now: int)
    | AskLast
    | Compare
    | QueryHolder
    | CommitNumber
    | ReportBusy(now: int)
    | Send
    | AnswerCae
    | AnswerWithoutCae
    | Fault(code: Code, now: int)
    | Crash
    | GiveUp

  ghost predicate CanWork(s: State, id: nat, act: Act) {
    id in s.rows &&
    var r := s.rows[id];
    if act.Claim? then id !in s.jobs && r.status.Active()
    else if act.GiveUp? then r.status.Active()
    else id in s.jobs && CanContinue(s, r, id, s.jobs[id], act)
  }

  ghost predicate CanContinue(s: State, r: Row, id: nat, phase: Phase, act: Act) {
    match act
    case Claim(_) => false
    case GiveUp => false
    case Crash => true
    case ClientError(code, _) => phase.Started? && code.Remote()
    case SkipLookup => phase.Started? && !(r.number.Some? && r.attempts > 1)
    case LookupMissing => LooksUp(r, phase) && (r.Key(), r.number.value) !in s.vouchers
    case LookupFound => LooksUp(r, phase) && (r.Key(), r.number.value) in s.vouchers
    case LookupWithoutCae => LooksUp(r, phase) && (r.Key(), r.number.value) in s.vouchers
    case LookupError(code, _) => LooksUp(r, phase) && code.Remote() && code != NotFound
    case AskLast => phase.Sequencing?
    case Compare => phase.Numbering? && r.number.Some?
    case QueryHolder => phase.Numbering? && r.number.None?
    case CommitNumber => phase.Reserving?
    case ReportBusy(_) => phase.Busy?
    case Send => phase.Sending? && r.number.Some?
    case AnswerCae => phase.Awaiting? && r.number.Some? && (r.Key(), r.number.value) in s.vouchers
                      && s.vouchers[(r.Key(), r.number.value)].owner == Some(id)
    case AnswerWithoutCae => phase.Awaiting? && !s.Pending(phase.call)
    case Fault(code, _) =>
      !phase.Started? && code.Remote() && (phase.Awaiting? && !code.Retryable() ==> !s.Pending(phase.call))
  }

  predicate LooksUp(r: Row, phase: Phase) {
    phase.Started? && r.number.Some? && r.attempts > 1
  }

  /** Why a row cannot be attempted with its profile. */
  function ProfileProblem(s: State, r: Row): Option<Code> {
    if r.profileId !in s.profiles then Some(ProfileMismatch)
    else
      var p := s.profiles[r.profileId];
      if p.tenant != r.tenant || p.env != r.env then Some(ProfileMismatch)
      else if p.validation != Valid then Some(ProfileNotValid)
      else None
  }

  /** What a worker's step does to its committed row. */
  ghost function WorkChange(s: State, id: nat, act: Act): Change
    requires CanWork(s, id, act)
  {
    var r := s.rows[id];
    match act
    case Claim(until) =>
      var problem := ProfileProblem(s, r);
      if problem.Some? then Change.Finish(problem.value) else Change.Claim(until)
    case ClientError(code, now) => Change.Handle(code, now)
    case SkipLookup => Change.Keep
    case LookupMissing => Change.Keep
    case LookupFound => Change.Approve(s.vouchers[(r.Key(), r.number.value)].cae)
    case LookupWithoutCae => Change.Finish(ArcaRejected)
    case LookupError(code, now) => Change.Handle(code, now)
    case AskLast => Change.Keep
    case Compare => if r.number.value != s.jobs[id].expected then Change.Finish(CorrelativeConflict) else Change.Keep
    case QueryHolder => Change.Keep
    case CommitNumber =>
      if NumberTaken(s.rows, id, r.Key(), s.jobs[id].expected) then Change.Keep else Change.Reserve(s.jobs[id].expected)
    case ReportBusy(now) => Change.Handle(SequenceBusy, now)
    case Send => Change.Keep
    case AnswerCae => Change.Approve(s.vouchers[(r.Key(), r.number.value)].cae)
    case AnswerWithoutCae => Change.Finish(ArcaRejected)
    case Fault(code, now) => Change.Handle(code, now)
    case Crash => Change.Keep
    case GiveUp => Change.Quarantine
  }

  /** Where a worker's step leaves its job; a finished or lost job is gone. */
  ghost function WorkPhase(s: State, id: nat, act: Act): Option<Phase>
    requires CanWork(s, id, act)
  {
    var r := s.rows[id];
    match act
    case Claim(_) => if ProfileProblem(s, r).Some? then None else Some(Started)
    case SkipLookup => Some(Sequencing)
    case LookupMissing => Some(Sequencing)
    case AskLast => Some(Numbering(s.Last(r.Key()) + 1))
    case Compare => if r.number.value != s.jobs[id].expected then None else Some(Sending)
    case QueryHolder =>
      Some(if NumberBusy(s.rows, id, r.Key(), s.jobs[id].expected) then Busy else Reserving(s.jobs[id].expected))
    case CommitNumber => Some(if NumberTaken(s.rows, id, r.Key(), s.jobs[id].expected) then Busy else Sending)
    case Send => Some(Awaiting(|s.calls|))
    case _ => None
  }

  // ----- Steps -----

  datatype Step =
    | Submit(sub: Submission, raced: bool, id: nat, now: int)
    | SaveProfile(tenant: string, env: Environment, config: Config, p: nat)
    | DeleteProfile(tenant: string, env: Environment)
    | BeginValidation(p: nat)
    | FinishValidation(trial: nat, ok: bool)
    | DropValidation(trial: nat)
    | Work(id: nat, act: Act)
    | Deliver(call: nat, id: nat, n: nat, cae: string)
    | TurnDown(call: nat)

  ghost predicate Enabled(s: State, st: Step) {
    match st
    case Submit(sub, _, id, _) => id !in s.rows && (sub.number.Some? ==> sub.number.value > 0)
    case SaveProfile(_, _, _, p) => p !in s.profiles
    case DeleteProfile(_, _) => true
    case BeginValidation(p) => p in s.profiles && s.profiles[p].validation != Deleted
    case FinishValidation(trial, _) =>
      trial < |s.trials| && s.trials[trial].open && s.trials[trial].profile in s.profiles
    case DropValidation(trial) => trial < |s.trials| && s.trials[trial].open
    case Work(id, act) => CanWork(s, id, act)
    case Deliver(call, id, n, _) =>
      call < |s.calls| && s.calls[call] == Call(id, n, true) && id in s.rows && n == s.Last(s.rows[id].Key()) + 1
    case TurnDown(call) => s.Pending(call)
  }

  ghost function Submitted(s: State, sub: Submission, raced: bool, id: nat, now: int): map<nat, Row>
  {
    match Judge(s, sub, raced, id, now)
    case Refuse(_) => s.rows
    case Stored(_) => s.rows
    case Complete(stored, receiver, number) =>
      if stored !in s.rows then s.rows
      else s.rows[stored := Changed(s.rows[stored], Change.Resume(receiver, number, now))]
    case Insert(row) => s.rows[id := row]
  }

  ghost function ProfileSaved(s: State, tenant: string, env: Environment, config: Config, newId: nat): map<nat, Profile>
  {
    if !HasProfile(s, tenant, env) then s.profiles[newId := Profile(tenant, env, config, NotValidated, 0)]
    else
      var p := FindProfile(s, tenant, env);
      if HasOpenInvoice(s.rows, p) then s.profiles
      else s.profiles[p := Profile(tenant, env, config, NotValidated, s.profiles[p].revision + 1)]
  }

  ghost function ProfileDeleted(s: State, tenant: string, env: Environment): map<nat, Profile>
  {
    if !HasProfile(s, tenant, env) then s.profiles
    else
      var p := FindProfile(s, tenant, env);
      if s.profiles[p].validation == Deleted || HasOpenInvoice(s.rows, p) then s.profiles
      else s.profiles[p := s.profiles[p].(validation := Deleted, revision := s.profiles[p].revision + 1)]
  }

  ghost function Worked(s: State, id: nat, act: Act): State
    requires CanWork(s, id, act)
  {
    var r := s.rows[id];
    var phase := WorkPhase(s, id, act);
    s.(rows := s.rows[id := Changed(r, WorkChange(s, id, act))],
       jobs := if phase.Some? then s.jobs[id := phase.value] else s.jobs - {id},
       sent := if act.Send? then s.sent + {(id, r.number.value)} else s.sent,
       calls := if act.Send? then s.calls + [Call(id, r.number.value, true)] else s.calls)
  }

  /** The outcome is written without a lock, and the status only if it differs from the one read. */
  ghost function Finished(s: State, trial: nat, ok: bool): State
    requires trial < |s.trials| && s.trials[trial].profile in s.profiles
  {
    var t, outcome := s.trials[trial], if ok then Valid else Invalid;
    s.(trials := s.trials[trial := t.(open := false)],
       profiles := if outcome == t.read then s.profiles
                   else s.profiles[t.profile := s.profiles[t.profile].(validation := outcome)])
  }

  ghost function Apply(s: State, st: Step): State
    requires Enabled(s, st)
  {
    match st
    case Submit(sub, raced, id, now) => s.(rows := Submitted(s, sub, raced, id, now))
    case SaveProfile(tenant, env, config, p) => s.(profiles := ProfileSaved(s, tenant, env, config, p))
    case DeleteProfile(tenant, env) => s.(profiles := ProfileDeleted(s, tenant, env))
    case BeginValidation(p) =>
      s.(trials := s.trials + [Trial(p, s.profiles[p].validation, s.profiles[p].revision, true)])
    case FinishValidation(trial, ok) => Finished(s, trial, ok)
    case DropValidation(trial) => s.(trials := s.trials[trial := s.trials[trial].(open := false)])
    case Work(id, act) => Worked(s, id, act)
    case Deliver(call, id, n, cae) =>
      var k := s.rows[id].Key();
      s.(last := s.last[k := n], vouchers := s.vouchers[(k, n) := Voucher(Some(id), cae)],
         calls := s.calls[call := Call(id, n, false)])
    case TurnDown(call) => s.(calls := s.calls[call := s.calls[call].(open := false)])
  }

  ghost predicate Next(s: State, st: Step, t: State) {
    Enabled(s, st) && t == Apply(s, st)
  }
}
