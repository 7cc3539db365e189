/** Retries, termination, the profile freeze, the identification gate and request replay. */
module InvoiceLifecycle {
  import opened Common
  import opened Traces
  import opened Invoice
  import opened InvoiceMachine
  import opened InvoiceInvariant
  import opened InvoiceSafety

  // ----- Every row, in every reachable state -----

  /**
   Retry machine. A retry time is set exactly while the row is active; a retrying row has
   made one to four attempts, so its delay was in the schedule; and exactly the approved
   rows hold a CAE.
   */
  lemma RetryMachine(states: seq<State>, steps: seq<Step>, i: nat, id: nat)
    requires IsRun(states, steps) && i < |states| && id in states[i].rows
    ensures var r := states[i].rows[id];
      && (r.nextRetry.Some? <==> r.status.Active())
      && (r.status.Retrying? ==> 1 <= r.attempts < |RETRY_DELAYS_MINUTES|)
      && (r.cae.Some? <==> r.status.Approved?)
      && (id in states[i].jobs ==> r.status.Processing?)
      && !r.status.ServiceDatesRequired?
  {
    RunsAreSound(states, steps);
    assert Inv(states[i]) && RowOk(states[i].rows[id], states[i].threshold);
    assert id in states[i].jobs ==> JobOk(states[i].rows[id], states[i].jobs[id]);
  }

  /** A finished row is never touched again. */
  lemma {:induction false} TerminalIsForever(states: seq<State>, steps: seq<Step>, i: nat, j: nat, id: nat)
    requires IsSoundRun(states, steps) && i <= j < |states|
    requires id in states[i].rows && !states[i].rows[id].status.NonTerminal()
    ensures id in states[j].rows && states[j].rows[id] == states[i].rows[id]
    decreases j - i
  {
    if i < j {
      assert Next(states[i], steps[i], states[i + 1]) && Inv(states[i]);
      RowPersists(states[i], steps[i], states[i + 1], id);
      TerminalIsForever(states, steps, i + 1, j, id);
    }
  }

  /**
   Profile freeze. While an invoice is not finished, its profile exists, is neither deleted
   nor awaiting validation, belongs to the same tenant and environment, and still has the
   configuration the invoice was created with.
   */
  lemma ProfileFreeze(states: seq<State>, steps: seq<Step>, i: nat, id: nat)
    requires IsRun(states, steps) && i < |states|
    requires id in states[i].rows && states[i].rows[id].status.NonTerminal()
    ensures FrozenFor(states[i], states[i].rows[id])
    ensures ProfileProblem(states[i], states[i].rows[id]) != Some(ProfileMismatch)
  {
    RunsAreSound(states, steps);
    assert Inv(states[i]);
  }

  /**
   Identification gate. A row waits for its receiver exactly while its total reaches the
   threshold and its receiver is the anonymous consumer, so no such row is ever pending,
   processing, retrying or approved.
   */
  lemma IdentificationGate(states: seq<State>, steps: seq<Step>, i: nat, id: nat)
    requires IsRun(states, steps) && i < |states| && id in states[i].rows
    ensures var r := states[i].rows[id];
      var unidentified := r.receiver.docType == 99 && (r.receiver.docNumber == "0" || r.receiver.docNumber == "");
      && (r.status.ReceiverRequired? <==> r.amounts.total >= states[i].threshold && unidentified)
      && (r.status.Active() || r.status.Approved? ==> !(r.amounts.total >= states[i].threshold && unidentified))
  {
    RunsAreSound(states, steps);
    assert Inv(states[i]) && RowOk(states[i].rows[id], states[i].threshold);
  }

  /**
   Stored-request coherence. The hash of every row is that of its stored request with the
   number only when it was given explicitly; receiver, identifiers and amounts are those of
   the stored request.
   */
  lemma RequestCoherence(states: seq<State>, steps: seq<Step>, i: nat, id: nat)
    requires IsRun(states, steps) && i < |states| && id in states[i].rows
    ensures RequestOk(states[i].rows[id])
  {
    RunsAreSound(states, steps);
    assert Inv(states[i]) && RowOk(states[i].rows[id], states[i].threshold);
  }

  // ----- Termination -----

  ghost function Count(p: Step -> bool, steps: seq<Step>): nat {
    if steps == [] then 0
    else Count(p, steps[..|steps| - 1]) + if p(steps[|steps| - 1]) then 1 else 0
  }

  ghost function WorksOn(id: nat): Step -> bool {
    (st: Step) => st.Work? && st.id == id
  }

  ghost function Crashes(id: nat): Step -> bool {
    (st: Step) => st.Work? && st.id == id && st.act.Crash?
  }

  function Rank(phase: Phase): nat {
    match phase
    case Started => 0
    case Sequencing => 1
    case Numbering(_) => 2
    case Reserving(_) => 3
    case Busy => 4
    case Sending => 4
    case Awaiting(_) => 5
  }

  /** Attempts and worker steps spent on a row, bounded by the attempts lost to crashes. */
  ghost predicate Budget(s: State, id: nat, crashes: nat, works: nat) {
    if id !in s.rows then works == 0
    else if id in s.jobs then
      s.rows[id].attempts <= 5 + crashes && works <= 7 * (s.rows[id].attempts - 1) + 1 + Rank(s.jobs[id])
    else if s.rows[id].status.NonTerminal() then
      s.rows[id].attempts <= 4 + crashes && works <= 7 * s.rows[id].attempts
    else
      s.rows[id].attempts <= 5 + crashes && works <= 7 * s.rows[id].attempts + 1
  }

  lemma ClaimAdvances(s: State, id: nat, act: Act)
    requires CanWork(s, id, act) && act.Claim?
    ensures var r, r', phase := s.rows[id], Changed(s.rows[id], WorkChange(s, id, act)), WorkPhase(s, id, act);
      if phase.Some? then r'.attempts == r.attempts + 1 && phase.value.Started?
      else r'.attempts == r.attempts && !r'.status.NonTerminal()
  {
  }

  lemma AttemptGoesOn(s: State, id: nat, act: Act)
    requires CanWork(s, id, act) && !act.Claim? && WorkPhase(s, id, act).Some?
    ensures id in s.jobs && Rank(WorkPhase(s, id, act).value) > Rank(s.jobs[id])
  {
  }

  lemma AttemptEnds(s: State, id: nat, act: Act)
    requires JobsOk(s) && CanWork(s, id, act) && !act.Claim? && WorkPhase(s, id, act).None?
    ensures Changed(s.rows[id], WorkChange(s, id, act)).status.NonTerminal() ==>
      id in s.jobs && (act.Crash? || s.rows[id].attempts <= 4)
  {
    assert !act.GiveUp? ==> id in s.jobs && JobOk(s.rows[id], s.jobs[id]);
  }

  /** Any later step moves the job forward or ends the attempt. */
  lemma WorkAdvances(s: State, id: nat, act: Act)
    requires JobsOk(s) && CanWork(s, id, act) && !act.Claim?
    ensures var r', phase := Changed(s.rows[id], WorkChange(s, id, act)), WorkPhase(s, id, act);
      && r'.attempts == s.rows[id].attempts
      && (phase.Some? ==> id in s.jobs && Rank(phase.value) > Rank(s.jobs[id]))
      && (phase.None? && r'.status.NonTerminal() ==> id in s.jobs && (act.Crash? || r'.attempts <= 4))
  {
    if WorkPhase(s, id, act).Some? { AttemptGoesOn(s, id, act); } else { AttemptEnds(s, id, act); }
  }

  lemma StepKeepsBudget(s: State, st: Step, t: State, id: nat, crashes: nat, works: nat)
    requires RowsOk(s) && JobsOk(s) && Next(s, st, t) && Budget(s, id, crashes, works)
    ensures Budget(t, id, crashes + if Crashes(id)(st) then 1 else 0, works + if WorksOn(id)(st) then 1 else 0)
  {
    if st.Work? && st.id == id {
      if st.act.Claim? { ClaimAdvances(s, id, st.act); } else { WorkAdvances(s, id, st.act); }
    } else if id in s.rows {
      OthersKeepRow(s, st, t, id);
      StepChanges(s, st, t, id);
      assert RowOk(s.rows[id], s.threshold);
    } else if id in t.rows {
      StepAdds(s, st, t, id);
      JudgeInsert(s, st.sub, st.raced, id, st.now);
      assert id in t.jobs ==> id in s.jobs;
    }
  }

  /** The budget after the first `i` steps. */
  ghost predicate BudgetAt(states: seq<State>, steps: seq<Step>, i: nat, id: nat)
    requires i < |states| && i <= |steps|
  {
    Budget(states[i], id, Count(Crashes(id), steps[..i]), Count(WorksOn(id), steps[..i]))
  }

  lemma CountNext(p: Step -> bool, steps: seq<Step>, i: nat)
    requires i < |steps|
    ensures Count(p, steps[..i + 1]) == Count(p, steps[..i]) + if p(steps[i]) then 1 else 0
  {
    assert steps[..i + 1][..i] == steps[..i];
  }

  lemma BudgetNext(states: seq<State>, steps: seq<Step>, i: nat, id: nat)
    requires IsSoundRun(states, steps) && i < |steps| && BudgetAt(states, steps, i, id)
    ensures BudgetAt(states, steps, i + 1, id)
  {
    CountNext(Crashes(id), steps, i);
    CountNext(WorksOn(id), steps, i);
    StepInSoundRun(states, steps, i);
    StepKeepsBudget(states[i], steps[i], states[i + 1], id,
                    Count(Crashes(id), steps[..i]), Count(WorksOn(id), steps[..i]));
  }

  lemma StepInSoundRun(states: seq<State>, steps: seq<Step>, i: nat)
    requires IsSoundRun(states, steps) && i < |steps|
    ensures Next(states[i], steps[i], states[i + 1]) && RowsOk(states[i]) && JobsOk(states[i])
  {
    assert Inv(states[i]);
  }

  lemma {:induction false} BudgetHolds(states: seq<State>, steps: seq<Step>, i: nat, id: nat)
    requires IsRun(states, steps) && IsSoundRun(states, steps) && i < |states|
    ensures BudgetAt(states, steps, i, id)
  {
    if i > 0 {
      BudgetHolds(states, steps, i - 1, id);
      BudgetNext(states, steps, i - 1, id);
    }
  }

  lemma BudgetBound(s: State, id: nat, crashes: nat, works: nat)
    requires Budget(s, id, crashes, works)
    ensures works <= 7 * (5 + crashes) + 1
    ensures id in s.rows ==> s.rows[id].attempts <= 5 + crashes
  {
  }

  /**
   Termination. In any run a row is attempted at most five times plus once per crash, and
   the workers take at most 7 * (5 + crashes) + 1 steps on it: a run with finitely many
   crashes does finitely much work on each row.
   */
  lemma WorkIsBounded(states: seq<State>, steps: seq<Step>, id: nat)
    requires IsRun(states, steps)
    ensures id in states[|steps|].rows ==> states[|steps|].rows[id].attempts <= 5 + Count(Crashes(id), steps)
    ensures Count(WorksOn(id), steps) <= 7 * (5 + Count(Crashes(id), steps)) + 1
  {
    RunsAreSound(states, steps);
    BudgetHolds(states, steps, |steps|, id);
    assert steps[..|steps|] == steps;
    BudgetBound(states[|steps|], id, Count(Crashes(id), steps), Count(WorksOn(id), steps));
  }

  // ----- Replaying requests -----

  /** The row that a tenant's external id names, for a caller whose profile may issue. */
  ghost predicate Submittable(s: State, sub: Submission, id: nat) {
    && Inv(s) && sub.entitled && id in s.rows
    && s.rows[id].tenant == sub.tenant && s.rows[id].externalId == sub.request.externalId
    && HasProfile(s, sub.tenant, sub.env) && s.profiles[FindProfile(s, sub.tenant, sub.env)].validation == Valid
  }

  lemma ExternalIsUnique(s: State, sub: Submission, id: nat)
    requires Submittable(s, sub, id)
    ensures ExternalTaken(s.rows, sub.tenant, sub.request.externalId)
    ensures FindExternal(s.rows, sub.tenant, sub.request.externalId) == id
  {
    SameExternalSameRow(s.rows, FindExternal(s.rows, sub.tenant, sub.request.externalId), id);
  }

  /**
   Resubmitting answers the stored row and changes nothing exactly when environment,
   number (if explicit) and request are those stored; any other content under the same
   external id is refused, also without change.
   */
  lemma ReplayIsIdempotent(s: State, sub: Submission, newId: nat, now: int, id: nat)
    requires Submittable(s, sub, id) && !s.rows[id].status.ReceiverRequired? && newId !in s.rows
    ensures Submitted(s, sub, false, newId, now) == s.rows
    ensures Judge(s, sub, false, newId, now) == Stored(id) <==>
      (sub.env == s.rows[id].env && sub.request == s.rows[id].request
       && sub.number == if s.rows[id].explicit then s.rows[id].number else None)
    ensures Judge(s, sub, false, newId, now) in {Stored(id), Refuse(IdempotencyConflict)}
  {
    ExternalIsUnique(s, sub, id);
    assert RowOk(s.rows[id], s.threshold);
  }

  /**
   A duplicate that was submitted at the same time, and so only meets the unique constraint,
   changes nothing either. Unless the profile's concept refuses it first, it is answered by
   comparing hashes, even while the stored row waits for its receiver.
   */
  lemma RacedReplayIsIdempotent(s: State, sub: Submission, newId: nat, now: int, id: nat)
    requires Submittable(s, sub, id)
    ensures Submitted(s, sub, true, newId, now) == s.rows
    ensures var config := s.profiles[FindProfile(s, sub.tenant, sub.env)].config;
      Judge(s, sub, true, newId, now) ==
        if NeedsProducts(config, sub) then Refuse(NeedsProductsConcept)
        else if NeedsDates(config, sub) then Refuse(NeedsServiceDates)
        else if s.rows[id].hash == Fingerprint(sub.env, sub.number, sub.request) then Stored(id)
        else Refuse(IdempotencyConflict)
  {
    ExternalIsUnique(s, sub, id);
  }

  /** While the receiver is missing, repeating the creating request changes nothing. */
  lemma ReplayBeforeResume(s: State, sub: Submission, newId: nat, now: int, id: nat)
    requires Submittable(s, sub, id) && s.rows[id].status.ReceiverRequired? && sub.request == s.rows[id].request
    ensures Judge(s, sub, false, newId, now) == Stored(id) && Submitted(s, sub, false, newId, now) == s.rows
  {
    ExternalIsUnique(s, sub, id);
    assert RowOk(s.rows[id], s.threshold);
  }

  /**
   Completing the receiver changes only the receiver, the number and the retry columns of
   that one row.
   */
  lemma ResumeEffect(s: State, sub: Submission, newId: nat, now: int, id: nat, t: State)
    requires Submittable(s, sub, id) && Judge(s, sub, false, newId, now).Complete?
    requires Next(s, Submit(sub, false, newId, now), t)
    ensures id in t.rows && t == s.(rows := s.rows[id := t.rows[id]]) && SameIdentity(s.rows[id], t.rows[id])
    ensures t.rows[id].request == s.rows[id].request.(receiver := sub.request.receiver)
    ensures t.rows[id].explicit && t.rows[id].number == sub.number && t.rows[id].status.Pending?
  {
    ExternalIsUnique(s, sub, id);
    JudgeComplete(s, sub, false, newId, now);
  }

  /**
   Submitting the same completion again is answered from the stored row if and only if it
   differed from the stored request in nothing but the receiver (and came through the row's
   environment); otherwise it is refused as a conflict. Either way nothing changes.
   */
  lemma ResumeThenReplay(s: State, sub: Submission, newId: nat, now: int, id: nat, t: State)
    requires Submittable(s, sub, id) && newId !in s.rows && Judge(s, sub, false, newId, now).Complete?
    requires Next(s, Submit(sub, false, newId, now), t)
    ensures Submitted(t, sub, false, newId, now) == t.rows
    ensures Judge(t, sub, false, newId, now) == Stored(id) <==>
      (sub.env == s.rows[id].env && sub.request == s.rows[id].request.(receiver := sub.request.receiver))
    ensures Judge(t, sub, false, newId, now) in {Stored(id), Refuse(IdempotencyConflict)}
  {
    ResumeEffect(s, sub, newId, now, id, t);
    StepKeepsInv(s, Submit(sub, false, newId, now), t);
    SameProfileFound(s, t, sub);
    ReplayIsIdempotent(t, sub, newId, now, id);
  }

  lemma SameProfileFound(s: State, t: State, sub: Submission)
    requires UniqueProfiles(s) && t.profiles == s.profiles && HasProfile(s, sub.tenant, sub.env)
    ensures HasProfile(t, sub.tenant, sub.env)
    ensures FindProfile(t, sub.tenant, sub.env) == FindProfile(s, sub.tenant, sub.env)
  {
    var p := FindProfile(s, sub.tenant, sub.env);
    assert p in t.profiles && t.profiles[p].tenant == sub.tenant && t.profiles[p].env == sub.env;
  }
}
