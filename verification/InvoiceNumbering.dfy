/** Gap-free numbering: what automatic reservation gives, when it conflicts, and when it stalls. */
module InvoiceNumbering {
  import opened Common
  import opened Traces
  import opened Invoice
  import opened InvoiceMachine
  import opened InvoiceInvariant
  import opened InvoiceSafety

  /** n is issued already or is the very next number. */
  predicate AtMostNext(s: State, k: Sequence, n: nat) {
    s.Base(k) < n <= s.Last(k) + 1
  }

  /** Every number that is, or is about to be, reserved automatically is at most the next one. */
  ghost predicate AutoOk(s: State) {
    && (forall id :: id in s.rows ==> AutoRowOk(s, s.rows[id]))
    && (forall id :: id in s.jobs && id in s.rows ==> AutoJobOk(s, s.rows[id], s.jobs[id]))
  }

  predicate AutoRowOk(s: State, r: Row) {
    !r.explicit && r.number.Some? ==> AtMostNext(s, r.Key(), r.number.value)
  }

  predicate AutoJobOk(s: State, r: Row, phase: Phase) {
    phase.Numbering? || phase.Reserving? ==> AtMostNext(s, r.Key(), phase.expected)
  }

  lemma LastOnlyGrows(s: State, st: Step, t: State, k: Sequence, n: nat)
    requires AuthorityOk(s) && Next(s, st, t) && AtMostNext(s, k, n)
    ensures AtMostNext(t, k, n)
  {
    VouchersGrow(s, st, t);
  }

  /** The number a worker is about to reserve, or reserves, is at most the next one. */
  lemma WorkKeepsAuto(s: State, id: nat, act: Act)
    requires AuthorityOk(s) && AutoOk(s) && CanWork(s, id, act)
    ensures AutoRowOk(s, Changed(s.rows[id], WorkChange(s, id, act)))
    ensures WorkPhase(s, id, act).Some? ==>
      AutoJobOk(s, Changed(s.rows[id], WorkChange(s, id, act)), WorkPhase(s, id, act).value)
  {
    WorkNumber(s, id, act);
    if WorkPhase(s, id, act).Some? { PhaseOrigin(s, id, act); }
    AutoFacts(s, id, Changed(s.rows[id], WorkChange(s, id, act)),
              if WorkPhase(s, id, act).Some? then WorkPhase(s, id, act).value else Started);
  }

  lemma AutoFacts(s: State, id: nat, r': Row, phase: Phase)
    requires AuthorityOk(s) && AutoOk(s) && id in s.rows
    requires r'.Key() == s.rows[id].Key() && r'.explicit == s.rows[id].explicit
    requires r'.number == s.rows[id].number
      || (id in s.jobs && s.jobs[id].Reserving? && r'.number == Some(s.jobs[id].expected))
    requires phase.Numbering? ==> phase.expected == s.Last(s.rows[id].Key()) + 1
    requires phase.Reserving? ==> id in s.jobs && s.jobs[id] == Numbering(phase.expected)
    ensures AutoRowOk(s, r') && AutoJobOk(s, r', phase)
  {
    assert AutoRowOk(s, s.rows[id]) && s.Base(s.rows[id].Key()) <= s.Last(s.rows[id].Key());
    assert id in s.jobs ==> AutoJobOk(s, s.rows[id], s.jobs[id]);
  }

  lemma KeepsAutoRow(s: State, st: Step, t: State, id: nat)
    requires Inv(s) && AutoOk(s) && Next(s, st, t) && id in t.rows
    ensures AutoRowOk(t, t.rows[id])
  {
    var r := t.rows[id];
    if id in s.rows {
      assert AutoRowOk(s, r) by {
        StepChanges(s, st, t, id);
        if st.Work? && st.id == id { WorkKeepsAuto(s, id, st.act); } else { assert AutoRowOk(s, s.rows[id]); }
      }
      if !r.explicit && r.number.Some? { LastOnlyGrows(s, st, t, r.Key(), r.number.value); }
    } else {
      StepAdds(s, st, t, id);
      JudgeInsert(s, st.sub, st.raced, id, st.now);
    }
  }

  lemma KeepsAutoJob(s: State, st: Step, t: State, id: nat)
    requires Inv(s) && AutoOk(s) && Next(s, st, t) && id in t.jobs && id in t.rows
    ensures AutoJobOk(t, t.rows[id], t.jobs[id])
  {
    var r, phase := t.rows[id], t.jobs[id];
    assert AutoJobOk(s, r, phase) by {
      if st.Work? && st.id == id {
        WorkKeepsAuto(s, id, st.act);
      } else {
        NewJobsAreWork(s, st, t, id);
        OthersKeepRow(s, st, t, id);
      }
    }
    if phase.Numbering? || phase.Reserving? { LastOnlyGrows(s, st, t, r.Key(), phase.expected); }
  }

  ghost predicate AutoInv(s: State) { Inv(s) && AutoOk(s) }

  lemma StepKeepsAuto(s: State, st: Step, t: State)
    requires AutoInv(s) && Next(s, st, t)
    ensures AutoInv(t)
  {
    StepKeepsInv(s, st, t);
    forall id | id in t.rows ensures AutoRowOk(t, t.rows[id]) { KeepsAutoRow(s, st, t, id); }
    forall id | id in t.jobs && id in t.rows ensures AutoJobOk(t, t.rows[id], t.jobs[id]) {
      KeepsAutoJob(s, st, t, id);
    }
  }

  lemma RunsAreAuto(states: seq<State>, steps: seq<Step>)
    requires IsRun(states, steps)
    ensures forall i :: 0 <= i < |states| ==> AutoInv(states[i])
  {
    InitInv(states[0]);
    forall s, st, t | AutoInv(s) && Next(s, st, t) ensures AutoInv(t) { StepKeepsAuto(s, st, t); }
    InvariantHolds(Next, AutoInv, states, steps);
  }

  /** An automatic reservation the authority has not issued yet. */
  predicate Outstanding(s: State, id: nat) {
    && id in s.rows && !s.rows[id].explicit && s.rows[id].number.Some?
    && s.rows[id].number.value > s.Last(s.rows[id].Key())
  }

  /**
   Gap-free numbering. In every reachable state each automatically reserved number is
   above the starting point and either issued or exactly the next number, and a sequence
   has at most one automatic reservation outstanding. Only the unique constraint and the
   order of the steps are used: the advisory lock is not.
   */
  lemma GapFree(states: seq<State>, steps: seq<Step>, i: nat)
    requires IsRun(states, steps) && i < |states|
    ensures var s := states[i];
      && (forall id :: id in s.rows && !s.rows[id].explicit && s.rows[id].number.Some? ==>
            AtMostNext(s, s.rows[id].Key(), s.rows[id].number.value))
      && (forall a, b :: Outstanding(s, a) && Outstanding(s, b) && s.rows[a].Key() == s.rows[b].Key() ==> a == b)
  {
    RunsAreAuto(states, steps);
    var s := states[i];
    assert AutoInv(s);
    forall id | id in s.rows && !s.rows[id].explicit && s.rows[id].number.Some?
      ensures AtMostNext(s, s.rows[id].Key(), s.rows[id].number.value)
    {
      assert AutoRowOk(s, s.rows[id]);
    }
    forall a, b | Outstanding(s, a) && Outstanding(s, b) && s.rows[a].Key() == s.rows[b].Key() ensures a == b {
      SameNumberSameRow(s, a, b);
    }
  }

  // ----- Correlative conflicts of automatic rows -----

  /** The authority has issued the number of the row, for the row itself. */
  ghost predicate IssuedToItself(s: State, id: nat)
    requires id in s.rows
  {
    var r := s.rows[id];
    && r.number.Some? && (r.Key(), r.number.value) in s.vouchers
    && s.vouchers[(r.Key(), r.number.value)].owner == Some(id)
  }

  /** Asking for the last number finds the row's own number next unless it was issued already. */
  lemma AutomaticAskLast(s: State, id: nat)
    requires AutoInv(s) && id in s.rows && !s.rows[id].explicit && s.rows[id].number.Some?
    ensures s.rows[id].number.value != s.Last(s.rows[id].Key()) + 1 <==> IssuedToItself(s, id)
  {
    var r := s.rows[id];
    var n := r.number.value;
    assert AutoRowOk(s, r);
    if (r.Key(), n) in s.vouchers {
      assert OwnerOk(s, r.Key(), n, s.vouchers[(r.Key(), n)].owner);
      SameNumberSameRow(s, s.vouchers[(r.Key(), n)].owner.value, id);
    }
  }

  lemma {:induction false} JobWaits(states: seq<State>, steps: seq<Step>, i: nat, j: nat, id: nat)
    requires IsSoundRun(states, steps) && i <= j < |states| && id in states[i].jobs
    requires forall k :: i <= k < j ==> !(steps[k].Work? && steps[k].id == id)
    ensures id in states[i].rows && id in states[j].rows && states[j].rows[id] == states[i].rows[id]
    ensures id in states[j].jobs && states[j].jobs[id] == states[i].jobs[id]
    decreases j - i
  {
    assert Inv(states[i]) && JobOk(states[i].rows[id], states[i].jobs[id]);
    if i < j {
      assert Next(states[i], steps[i], states[i + 1]);
      OthersKeepRow(states[i], steps[i], states[i + 1], id);
      JobWaits(states, steps, i + 1, j, id);
    }
  }

  lemma IssuedAtAsk(states: seq<State>, steps: seq<Step>, i: nat, id: nat)
    requires IsRun(states, steps) && i < |states|
    requires id in states[i].rows && !states[i].rows[id].explicit && states[i].rows[id].number.Some?
    ensures states[i].rows[id].number.value != states[i].Last(states[i].rows[id].Key()) + 1 <==>
      IssuedToItself(states[i], id)
  {
    RunsAreAuto(states, steps);
    assert AutoInv(states[i]);
    AutomaticAskLast(states[i], id);
  }

  lemma AskEffect(s: State, t: State, id: nat)
    requires Next(s, Step.Work(id, AskLast), t)
    ensures id in s.rows && id in t.rows && t.rows[id] == s.rows[id]
    ensures id in t.jobs && t.jobs[id] == Numbering(s.Last(s.rows[id].Key()) + 1)
  {
  }

  lemma CompareEffect(s: State, t: State, id: nat)
    requires Inv(s) && Next(s, Step.Work(id, Compare), t)
    ensures id in s.rows && id in s.jobs && s.jobs[id].Numbering? && s.rows[id].number.Some? && id in t.rows
    ensures t.rows[id].status.Rejected? <==> s.rows[id].number.value != s.jobs[id].expected
    ensures t.rows[id].status.Rejected? ==> t.rows[id].error == Some(CorrelativeConflict)
  {
    assert JobOk(s.rows[id], s.jobs[id]);
  }

  /**
   An automatic row that holds a number, asks for the last one (step i) and compares them
   (step j) is rejected with a correlative conflict exactly when its own voucher had been
   issued by the time it asked, that is, when a call of an earlier attempt took effect
   after the lookup of this one.
   */
  lemma ConflictMeansIssued(states: seq<State>, steps: seq<Step>, i: nat, j: nat, id: nat)
    requires IsRun(states, steps) && i < j < |steps|
    requires steps[i] == Step.Work(id, AskLast) && steps[j] == Step.Work(id, Compare)
    requires forall k :: i < k < j ==> !(steps[k].Work? && steps[k].id == id)
    requires id in states[i].rows && !states[i].rows[id].explicit && states[i].rows[id].number.Some?
    ensures id in states[j + 1].rows
    ensures states[j + 1].rows[id].status.Rejected? <==> IssuedToItself(states[i], id)
    ensures states[j + 1].rows[id].status.Rejected? ==> states[j + 1].rows[id].error == Some(CorrelativeConflict)
  {
    RunsAreSound(states, steps);
    IssuedAtAsk(states, steps, i, id);
    AskThenCompare(states, steps, i, j, id);
  }

  /** What the worker compares is what it was told, however much later. */
  lemma AskThenCompare(states: seq<State>, steps: seq<Step>, i: nat, j: nat, id: nat)
    requires IsSoundRun(states, steps) && i < j < |steps|
    requires steps[i] == Step.Work(id, AskLast) && steps[j] == Step.Work(id, Compare)
    requires forall k :: i < k < j ==> !(steps[k].Work? && steps[k].id == id)
    ensures id in states[i].rows && states[i].rows[id].number.Some? && id in states[j + 1].rows
    ensures states[j + 1].rows[id].status.Rejected?
      <==> states[i].rows[id].number.value != states[i].Last(states[i].rows[id].Key()) + 1
    ensures states[j + 1].rows[id].status.Rejected? ==> states[j + 1].rows[id].error == Some(CorrelativeConflict)
  {
    AskStep(states, steps, i, id);
    JobWaits(states, steps, i + 1, j, id);
    assert Next(states[j], steps[j], states[j + 1]) && Inv(states[j]);
    CompareEffect(states[j], states[j + 1], id);
  }

  lemma AskStep(states: seq<State>, steps: seq<Step>, i: nat, id: nat)
    requires IsSoundRun(states, steps) && i < |steps| && steps[i] == Step.Work(id, AskLast)
    ensures id in states[i].rows && id in states[i + 1].rows && states[i + 1].rows[id] == states[i].rows[id]
    ensures id in states[i + 1].jobs
      && states[i + 1].jobs[id] == Numbering(states[i].Last(states[i].rows[id].Key()) + 1)
  {
    assert Next(states[i], steps[i], states[i + 1]);
    AskEffect(states[i], states[i + 1], id);
  }

  /** Steps in which no call takes effect after its worker stopped waiting for it. */
  ghost predicate NextPrompt(s: State, st: Step, t: State) {
    Next(s, st, t) && (st.Deliver? ==> st.id in s.jobs && s.jobs[st.id] == Awaiting(st.call))
  }

  /** What promptness adds: an automatic row past its lookup holds exactly the next number. */
  ghost predicate PromptInv(s: State) {
    && AutoInv(s)
    && (forall id :: id in s.jobs && id in s.rows ==> PromptJobOk(s, s.rows[id], s.jobs[id]))
    && (forall id :: id in s.rows ==> !s.rows[id].explicit ==> s.rows[id].error != Some(CorrelativeConflict))
  }

  predicate PromptJobOk(s: State, r: Row, phase: Phase) {
    !r.explicit && r.number.Some? ==>
      && (phase.Sequencing? ==> r.number.value == s.Last(r.Key()) + 1)
      && (phase.Numbering? ==> r.number.value == phase.expected)
      && (phase.Started? ==> r.attempts > 1)
  }

  /** Only the comparison leaves that code on a row. */
  lemma ConflictOrigin(s: State, id: nat, act: Act)
    requires CanWork(s, id, act)
    requires Changed(s.rows[id], WorkChange(s, id, act)).error == Some(CorrelativeConflict)
    ensures s.rows[id].error == Some(CorrelativeConflict)
      || (act.Compare? && id in s.jobs && s.jobs[id].Numbering?
          && s.rows[id].number.Some? && s.rows[id].number.value != s.jobs[id].expected)
  {
  }

  lemma WorkKeepsNoConflict(s: State, id: nat, act: Act)
    requires PromptInv(s) && CanWork(s, id, act) && !s.rows[id].explicit
    ensures Changed(s.rows[id], WorkChange(s, id, act)).error != Some(CorrelativeConflict)
  {
    assert id in s.jobs ==> PromptJobOk(s, s.rows[id], s.jobs[id]);
    if Changed(s.rows[id], WorkChange(s, id, act)).error == Some(CorrelativeConflict) {
      ConflictOrigin(s, id, act);
    }
  }

  lemma WorkKeepsPrompt(s: State, id: nat, act: Act)
    requires PromptInv(s) && CanWork(s, id, act) && WorkPhase(s, id, act).Some?
    ensures PromptJobOk(s, Changed(s.rows[id], WorkChange(s, id, act)), WorkPhase(s, id, act).value)
  {
    var r := s.rows[id];
    WorkNumber(s, id, act);
    PhaseOrigin(s, id, act);
    assert AutoRowOk(s, r) && RowOk(r, s.threshold);
    assert id in s.jobs ==> PromptJobOk(s, r, s.jobs[id]);
    assert r.number.Some? ==> ((r.Key(), r.number.value) in s.vouchers <==> 1 <= r.number.value <= s.Last(r.Key()));
  }

  /** A prompt delivery for another row cannot move the sequence past this row's number. */
  lemma OthersKeepPrompt(s: State, st: Step, t: State, id: nat)
    requires PromptInv(s) && NextPrompt(s, st, t) && id in s.jobs && id in s.rows && !(st.Work? && st.id == id)
    ensures id in t.rows && id in t.jobs && PromptJobOk(t, t.rows[id], t.jobs[id])
  {
    OthersKeepRow(s, st, t, id);
    var r := s.rows[id];
    assert PromptJobOk(s, r, s.jobs[id]) && JobOk(r, s.jobs[id]);
    if st.Deliver? {
      DeliveryKeepsPrompt(s, st, t, id);
    } else {
      assert t.last == s.last by { VouchersGrow(s, st, t); }
    }
  }

  lemma DeliveryKeepsPrompt(s: State, st: Step, t: State, id: nat)
    requires UniqueOk(s.rows) && SentOk(s) && CallsOk(s) && NextPrompt(s, st, t) && st.Deliver?
    requires id in s.jobs && id in s.rows && PromptJobOk(s, s.rows[id], s.jobs[id])
    ensures PromptJobOk(t, s.rows[id], s.jobs[id])
  {
    var r := s.rows[id];
    if r.number == Some(st.n) && s.rows[st.id].Key() == r.Key() {
      SameNumberSameRow(s, st.id, id);
    }
  }

  lemma StepKeepsPromptJob(s: State, st: Step, t: State, id: nat)
    requires PromptInv(s) && NextPrompt(s, st, t) && id in t.jobs && id in t.rows
    ensures PromptJobOk(t, t.rows[id], t.jobs[id])
  {
    if st.Work? && st.id == id {
      WorkKeepsPrompt(s, id, st.act);
    } else {
      NewJobsAreWork(s, st, t, id);
      OthersKeepPrompt(s, st, t, id);
    }
  }

  lemma StepKeepsNoConflict(s: State, st: Step, t: State, id: nat)
    requires PromptInv(s) && Next(s, st, t) && id in t.rows && !t.rows[id].explicit
    ensures t.rows[id].error != Some(CorrelativeConflict)
  {
    if id in s.rows {
      StepChanges(s, st, t, id);
      if st.Work? && st.id == id { WorkNumber(s, id, st.act); WorkKeepsNoConflict(s, id, st.act); }
    } else {
      StepAdds(s, st, t, id);
      JudgeInsert(s, st.sub, st.raced, id, st.now);
    }
  }

  lemma StepKeepsPrompt(s: State, st: Step, t: State)
    requires PromptInv(s) && NextPrompt(s, st, t)
    ensures PromptInv(t)
  {
    StepKeepsAuto(s, st, t);
    forall id | id in t.jobs && id in t.rows ensures PromptJobOk(t, t.rows[id], t.jobs[id]) {
      StepKeepsPromptJob(s, st, t, id);
    }
    forall id | id in t.rows && !t.rows[id].explicit ensures t.rows[id].error != Some(CorrelativeConflict) {
      StepKeepsNoConflict(s, st, t, id);
    }
  }

  /** If calls take effect promptly, no automatic row ever ends in a correlative conflict. */
  lemma PromptRunsNeverConflict(states: seq<State>, steps: seq<Step>, i: nat)
    requires IsTrace(NextPrompt, states, steps) && Init(states[0]) && i < |states|
    ensures forall id :: id in states[i].rows && !states[i].rows[id].explicit ==>
      states[i].rows[id].error != Some(CorrelativeConflict)
  {
    InitInv(states[0]);
    forall s, st, t | PromptInv(s) && NextPrompt(s, st, t) ensures PromptInv(t) { StepKeepsPrompt(s, st, t); }
    InvariantHolds(NextPrompt, PromptInv, states, steps);
    assert PromptInv(states[i]);
  }

  // ----- Stalled sequences -----

  /** A finished row holds the next number of its sequence without it having been issued. */
  predicate HoldsNext(s: State, id: nat) {
    && id in s.rows && !s.rows[id].status.NonTerminal()
    && s.rows[id].number == Some(s.Last(s.rows[id].Key()) + 1)
  }

  /** The authority may yet issue the number to the row. */
  predicate Outgoing(s: State, id: nat, n: nat) {
    exists c :: 0 <= c < |s.calls| && s.calls[c] == Call(id, n, true)
  }

  predicate Stuck(s: State, id: nat, k: Sequence, n: nat) {
    HoldsNext(s, id) && s.rows[id].Key() == k && s.Last(k) == n && !Outgoing(s, id, n + 1)
  }

  lemma StepStaysStuck(s: State, st: Step, t: State, id: nat, k: Sequence, n: nat)
    requires Inv(s) && Next(s, st, t) && Stuck(s, id, k, n)
    ensures Stuck(t, id, k, n)
  {
    RowPersists(s, st, t, id);
    FinishedRowsDoNotSend(s, st, id);
    NoNewCall(s, st, t, id, n + 1);
    LastStays(s, st, t, id, k, n);
  }

  lemma LastStays(s: State, st: Step, t: State, id: nat, k: Sequence, n: nat)
    requires UniqueOk(s.rows) && SentOk(s) && CallsOk(s) && Next(s, st, t) && Stuck(s, id, k, n)
    ensures t.Last(k) == n
  {
    if st.Deliver? { StuckDelivery(s, st, id, k, n); }
  }

  lemma NoNewCall(s: State, st: Step, t: State, id: nat, n: nat)
    requires Next(s, st, t) && !(st.Work? && st.id == id)
    ensures Outgoing(t, id, n) ==> Outgoing(s, id, n)
  {
    if c :| 0 <= c < |t.calls| && t.calls[c] == Call(id, n, true) {
      assert s.calls[c] == Call(id, n, true);
    }
  }

  lemma StuckDelivery(s: State, st: Step, id: nat, k: Sequence, n: nat)
    requires UniqueOk(s.rows) && SentOk(s) && CallsOk(s) && Enabled(s, st) && st.Deliver? && Stuck(s, id, k, n)
    ensures s.rows[st.id].Key() != k
  {
    assert s.rows[st.id].number == Some(st.n);
    if s.rows[st.id].Key() == k { SameNumberSameRow(s, st.id, id); }
  }

  lemma FinishedRowsDoNotSend(s: State, st: Step, id: nat)
    requires JobsOk(s) && Enabled(s, st) && id in s.rows && !s.rows[id].status.NonTerminal()
    ensures !(st.Work? && st.id == id)
  {
  }

  lemma {:induction false} StaysStuck(states: seq<State>, steps: seq<Step>, id: nat, k: Sequence, n: nat, i: nat)
    requires IsSoundRun(states, steps) && Stuck(states[0], id, k, n) && i < |states|
    ensures Stuck(states[i], id, k, n)
  {
    if i > 0 {
      StaysStuck(states, steps, id, k, n, i - 1);
      assert Next(states[i - 1], steps[i - 1], states[i]) && Inv(states[i - 1]);
      StepStaysStuck(states[i - 1], steps[i - 1], states[i], id, k, n);
    }
  }

  /** Some continuation of the run issues a further number of the sequence. */
  ghost predicate CanAdvance(s: State, k: Sequence) {
    exists t: State :: Reaches(Next, s, t) && t.Last(k) > s.Last(k)
  }

  lemma StuckForGood(s: State, id: nat, k: Sequence)
    requires Reachable(s) && Stuck(s, id, k, s.Last(k))
    ensures !CanAdvance(s, k)
  {
    ReachableInv(s);
    forall t: State | Reaches(Next, s, t) ensures t.Last(k) == s.Last(k) {
      var states: seq<State>, steps: seq<Step> :|
          IsTrace(Next, states, steps) && states[0] == s && states[|steps|] == t;
      RunsAreSound(states, steps);
      StaysStuck(states, steps, id, k, s.Last(k), |steps|);
    }
  }
}
