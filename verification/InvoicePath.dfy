/** What one worker does within a run: the acts on its row, whatever else happens between them. */
module InvoicePath {
  import opened Common
  import opened Traces
  import opened Invoice
  import opened InvoiceMachine
  import opened InvoiceInvariant
  import opened InvoiceSafety

  // ----- Everybody else -----

  /** Steps that other workers, requests or the authority may take while one works on a row. */
  ghost function OthersThan(id: nat): (State, Step, State) -> bool {
    (s: State, st: Step, t: State) => Next(s, st, t) && !(st.Work? && st.id == id)
  }

  /** What such steps leave alone. */
  ghost predicate Undisturbed(s: State, t: State, id: nat) {
    && id in s.rows && id in t.rows && t.rows[id] == s.rows[id]
    && (id in t.jobs <==> id in s.jobs) && (id in s.jobs ==> t.jobs[id] == s.jobs[id])
    && (forall v :: v in s.vouchers ==> v in t.vouchers && t.vouchers[v] == s.vouchers[v])
  }

  lemma OthersLeaveRow(s: State, t: State, id: nat)
    requires Reaches(OthersThan(id), s, t) && Reachable(s) && id in s.rows && !s.rows[id].status.ReceiverRequired?
    ensures Reachable(t) && Undisturbed(s, t, id)
  {
    var kept := (x: State) => Reachable(x) && Undisturbed(s, x, id);
    forall a, st, b | kept(a) && OthersThan(id)(a, st, b) ensures kept(b) {
      ReachableInv(a);
      ReachableNext(a, st, b);
      OthersKeepRow(a, st, b, id);
      VouchersGrow(a, st, b);
    }
    ReachesInvariant(OthersThan(id), kept, s, t);
  }

  /** Steps others may take while one holds the lock of a profile. */
  ghost function LockedOn(p: nat): (State, Step, State) -> bool {
    (s: State, st: Step, t: State) =>
      Next(s, st, t) && (p in s.profiles ==> p in t.profiles && t.profiles[p] == s.profiles[p])
  }

  lemma LockHeld(s: State, t: State, p: nat)
    requires Reaches(LockedOn(p), s, t) && Reachable(s) && p in s.profiles
    ensures Reachable(t) && Reaches(Next, s, t) && p in t.profiles && t.profiles[p] == s.profiles[p]
    ensures t.threshold == s.threshold
  {
    var kept := (x: State) =>
      && Reachable(x) && Reaches(Next, s, x) && p in x.profiles && x.profiles[p] == s.profiles[p]
      && x.threshold == s.threshold;
    ReachesSelf(Next, s);
    forall a, st, b | kept(a) && LockedOn(p)(a, st, b) ensures kept(b) {
      ReachableNext(a, st, b);
      ReachesThen(Next, s, a, st, b);
    }
    ReachesInvariant(LockedOn(p), kept, s, t);
  }

  /** Steps others may take while a validation tries its profile. */
  ghost function OthersThanTrial(trial: nat): (State, Step, State) -> bool {
    (s: State, st: Step, t: State) =>
      && Next(s, st, t)
      && !(st.FinishValidation? && st.trial == trial) && !(st.DropValidation? && st.trial == trial)
  }

  lemma TrialStays(s: State, t: State, trial: nat)
    requires Reaches(OthersThanTrial(trial), s, t) && Reachable(s)
    requires trial < |s.trials| && s.trials[trial].profile in s.profiles
    ensures Reachable(t) && trial < |t.trials| && t.trials[trial] == s.trials[trial]
    ensures s.trials[trial].profile in t.profiles
  {
    var kept := (x: State) =>
      && Reachable(x) && trial < |x.trials| && x.trials[trial] == s.trials[trial]
      && s.trials[trial].profile in x.profiles;
    forall a, st, b | kept(a) && OthersThanTrial(trial)(a, st, b) ensures kept(b) { ReachableNext(a, st, b); }
    ReachesInvariant(OthersThanTrial(trial), kept, s, t);
  }

  // ----- The acts on one row -----

  /** The acts on the row among the steps, in order. */
  ghost function ActsOn(id: nat, steps: seq<Step>): seq<Act> {
    if steps == [] then []
    else
      var last := steps[|steps| - 1];
      ActsOn(id, steps[..|steps| - 1]) + if last.Work? && last.id == id then [last.act] else []
  }

  /** A run of the machine leads from `s` to `t`, and exactly these acts on the row are part of it. */
  ghost predicate Path(id: nat, s: State, acts: seq<Act>, t: State) {
    exists states: seq<State>, steps: seq<Step> ::
      IsTrace(Next, states, steps) && states[0] == s && states[|steps|] == t && ActsOn(id, steps) == acts
  }

  lemma PathSelf(id: nat, s: State)
    ensures Path(id, s, [], s)
  {
    var steps: seq<Step> := [];
    assert IsTrace(Next, [s], steps) && ActsOn(id, steps) == [];
  }

  lemma PathReaches(id: nat, s: State, acts: seq<Act>, t: State)
    requires Path(id, s, acts, t)
    ensures Reaches(Next, s, t)
  {
  }

  lemma PathStep(id: nat, s: State, acts: seq<Act>, t: State, st: Step, u: State)
    requires Path(id, s, acts, t) && Next(t, st, u)
    ensures Path(id, s, acts + if st.Work? && st.id == id then [st.act] else [], u)
  {
    var states: seq<State>, steps: seq<Step> :|
      IsTrace(Next, states, steps) && states[0] == s && states[|steps|] == t && ActsOn(id, steps) == acts;
    assert (steps + [st])[..|steps|] == steps;
    assert IsTrace(Next, states + [u], steps + [st]);
  }

  lemma {:induction false} PathOthers(id: nat, s: State, acts: seq<Act>, t: State, u: State)
    requires Path(id, s, acts, t) && Reaches(OthersThan(id), t, u)
    ensures Path(id, s, acts, u)
  {
    var kept := (x: State) => Path(id, s, acts, x);
    forall a, st, b | kept(a) && OthersThan(id)(a, st, b) ensures kept(b) {
      PathStep(id, s, acts, a, st, b);
      assert acts + [] == acts;
    }
    ReachesInvariant(OthersThan(id), kept, t, u);
  }

  // ----- One act of the worker -----

  lemma Acted(s0: State, acts: seq<Act>, s: State, id: nat, act: Act, t: State)
    requires Path(id, s0, acts, s) && Reachable(s) && CanWork(s, id, act) && t == Worked(s, id, act)
    ensures Path(id, s0, acts + [act], t) && Reachable(t)
    ensures id in t.rows && t.rows[id] == Changed(s.rows[id], WorkChange(s, id, act))
    ensures id in t.jobs ==> JobOk(t.rows[id], t.jobs[id])
  {
    PathStep(id, s0, acts, s, Step.Work(id, act), t);
    ReachableNext(s, Step.Work(id, act), t);
    ReachableInv(t);
  }

  /** The same, for an act that only moves the worker on. */
  lemma Moved(s0: State, acts: seq<Act>, s: State, id: nat, act: Act, to: Phase, t: State)
    requires Path(id, s0, acts, s) && Reachable(s) && CanWork(s, id, act) && !act.Send?
    requires WorkChange(s, id, act) == Change.Keep && WorkPhase(s, id, act) == Some(to)
    requires t == s.(jobs := s.jobs[id := to])
    ensures Path(id, s0, acts + [act], t) && Reachable(t) && JobOk(s.rows[id], to)
  {
    assert s.rows[id := s.rows[id]] == s.rows;
    Acted(s0, acts, s, id, act, t);
  }

  /** The same, for an act that ends the attempt. */
  lemma Ended(s0: State, acts: seq<Act>, s: State, id: nat, act: Act, row: Row, t: State)
    requires Path(id, s0, acts, s) && Reachable(s) && CanWork(s, id, act) && !act.Send?
    requires Changed(s.rows[id], WorkChange(s, id, act)) == row && WorkPhase(s, id, act).None?
    requires t == s.(rows := s.rows[id := row], jobs := s.jobs - {id})
    ensures Path(id, s0, acts + [act], t) && Reachable(t)
  {
    Acted(s0, acts, s, id, act, t);
  }

  lemma RowClaimed(s0: State, acts: seq<Act>, s: State, id: nat, until: int, t: State)
    requires Path(id, s0, acts, s) && Reachable(s) && id in s.rows && id !in s.jobs
    requires s.rows[id].status.Active() && ProfileProblem(s, s.rows[id]).None?
    requires t == s.(rows := s.rows[id := Claimed(s.rows[id], until)], jobs := s.jobs[id := Started])
    ensures Path(id, s0, acts + [Act.Claim(until)], t) && Reachable(t)
  {
    Acted(s0, acts, s, id, Act.Claim(until), t);
  }

  lemma RowRejected(s0: State, acts: seq<Act>, s: State, id: nat, until: int, code: Code, t: State)
    requires Path(id, s0, acts, s) && Reachable(s) && id in s.rows && id !in s.jobs
    requires s.rows[id].status.Active() && ProfileProblem(s, s.rows[id]) == Some(code)
    requires t == s.(rows := s.rows[id := FinishedWith(s.rows[id], code)], jobs := s.jobs - {id})
    ensures Path(id, s0, acts + [Act.Claim(until)], t) && Reachable(t)
  {
    Acted(s0, acts, s, id, Act.Claim(until), t);
  }

  lemma RowGivenUp(s0: State, acts: seq<Act>, s: State, id: nat, t: State)
    requires Path(id, s0, acts, s) && Reachable(s) && id in s.rows && s.rows[id].status.Active()
    requires t == s.(rows := s.rows[id := QuarantinedRow(s.rows[id])], jobs := s.jobs - {id})
    ensures Path(id, s0, acts + [GiveUp], t) && Reachable(t)
  {
    Acted(s0, acts, s, id, GiveUp, t);
  }

  lemma NumberCommitted(s0: State, acts: seq<Act>, s: State, id: nat, n: nat, t: State)
    requires Path(id, s0, acts, s) && Reachable(s) && id in s.rows && id in s.jobs && s.jobs[id] == Reserving(n)
    requires !NumberTaken(s.rows, id, s.rows[id].Key(), n)
    requires t == s.(rows := s.rows[id := s.rows[id].(number := Some(n))], jobs := s.jobs[id := Sending])
    ensures Path(id, s0, acts + [Act.CommitNumber], t) && Reachable(t)
  {
    Acted(s0, acts, s, id, Act.CommitNumber, t);
  }

  lemma NumberRefused(s0: State, acts: seq<Act>, s: State, id: nat, n: nat, t: State)
    requires Path(id, s0, acts, s) && Reachable(s) && id in s.rows && id in s.jobs && s.jobs[id] == Reserving(n)
    requires NumberTaken(s.rows, id, s.rows[id].Key(), n) && t == s.(jobs := s.jobs[id := Busy])
    ensures Path(id, s0, acts + [Act.CommitNumber], t) && Reachable(t)
  {
    assert s.rows[id := s.rows[id]] == s.rows;
    Acted(s0, acts, s, id, Act.CommitNumber, t);
  }

  lemma NumberStaysFree(s: State, id: nat)
    requires Reachable(s) && id in s.rows && s.rows[id].number.Some?
    ensures !NumberTaken(s.rows, id, s.rows[id].Key(), s.rows[id].number.value)
  {
    ReachableInv(s);
    forall j | j in s.rows && j != id
      ensures !(s.rows[j].Key() == s.rows[id].Key() && s.rows[j].number == s.rows[id].number)
    {
      assert Distinct(s.rows[id], s.rows[j]);
    }
  }

  // ----- What the theorems about runs say of an attempt -----

  lemma {:induction false} ActsAreSteps(id: nat, steps: seq<Step>, act: Act)
    ensures act in ActsOn(id, steps) <==> exists k :: 0 <= k < |steps| && steps[k] == Step.Work(id, act)
  {
    if steps != [] {
      var k := |steps| - 1;
      ActsAreSteps(id, steps[..k], act);
      if j :| 0 <= j < |steps| && steps[j] == Step.Work(id, act) {
        assert j < k ==> steps[..k][j] == steps[j];
      }
      if j :| 0 <= j < k && steps[..k][j] == Step.Work(id, act) {
        assert steps[j] == Step.Work(id, act);
      }
    }
  }

  /** An attempt that submits a row again has first been told that its number does not exist. */
  lemma ResubmissionLooksUp(id: nat, n: nat, s: State, acts: seq<Act>, t: State)
    requires Reachable(s) && (id, n) in s.sent && id !in s.jobs && Path(id, s, acts, t) && Send in acts
    ensures LookupMissing in acts
  {
    ReachableInv(s);
    var states: seq<State>, steps: seq<Step> :|
      IsTrace(Next, states, steps) && states[0] == s && states[|steps|] == t && ActsOn(id, steps) == acts;
    RunsAreSound(states, steps);
    ActsAreSteps(id, steps, Send);
    ActsAreSteps(id, steps, LookupMissing);
    var k :| 0 <= k < |steps| && steps[k] == Step.Work(id, Send);
    assert Next(states[k], steps[k], states[k + 1]);
    if forall m :: 0 <= m < |steps| ==> !ConfirmsMissing(steps[m], id) {
      StaysUnconfirmed(states, steps, 0, k, id, n);
    }
  }
}
