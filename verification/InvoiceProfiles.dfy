/** What a validation stands for, and when a deleted profile stays deleted. */
module InvoiceProfiles {
  import opened Common
  import opened Traces
  import opened Invoice
  import opened InvoiceMachine
  import opened InvoiceInvariant
  import opened InvoiceSafety

  // ----- What a validation stands for -----

  /** The step saves over or deletes the profile; an open invoice rules out both. */
  ghost predicate Replaces(s: State, st: Step, p: nat) {
    && p in s.profiles && !HasOpenInvoice(s.rows, p)
    && match st
       case SaveProfile(tenant, env, _, _) => s.profiles[p].tenant == tenant && s.profiles[p].env == env
       case DeleteProfile(tenant, env) =>
         s.profiles[p].tenant == tenant && s.profiles[p].env == env && s.profiles[p].validation != Deleted
       case _ => false
  }

  /** The same profile, apart from the state of its validation. */
  predicate SameContent(a: Profile, b: Profile) {
    a.tenant == b.tenant && a.env == b.env && a.config == b.config && a.revision == b.revision
  }

  lemma StepRevises(s: State, st: Step, t: State, p: nat)
    requires UniqueProfiles(s) && Next(s, st, t) && p in s.profiles
    ensures p in t.profiles
    ensures if Replaces(s, st, p) then t.profiles[p].revision == s.profiles[p].revision + 1
            else SameContent(t.profiles[p], s.profiles[p])
  {
    match st
    case SaveProfile(_, _, _, _) =>
    case DeleteProfile(_, _) =>
    case FinishValidation(_, _) =>
    case _ => assert t.profiles == s.profiles;
  }

  ghost predicate NotReplaced(states: seq<State>, steps: seq<Step>, j: nat, i: nat, p: nat)
    requires i <= |steps| && |states| == |steps| + 1
  {
    forall m :: j <= m < i ==> !Replaces(states[m], steps[m], p)
  }

  lemma NotReplacedFrom(states: seq<State>, steps: seq<Step>, j: nat, i: nat, p: nat)
    requires j < i <= |steps| && |states| == |steps| + 1
    ensures NotReplaced(states, steps, j, i, p) <==>
      !Replaces(states[j], steps[j], p) && NotReplaced(states, steps, j + 1, i, p)
  {
  }

  /** Each step revises the profile exactly if it replaces it. */
  ghost predicate RevisedBy(states: seq<State>, steps: seq<Step>, k: nat, p: nat)
    requires k < |steps| && |states| == |steps| + 1
  {
    p in states[k].profiles ==>
      && p in states[k + 1].profiles
      && var a, b := states[k].profiles[p], states[k + 1].profiles[p];
        if Replaces(states[k], steps[k], p) then b.revision == a.revision + 1 else SameContent(b, a)
  }

  lemma RevisedAt(states: seq<State>, steps: seq<Step>, k: nat, p: nat)
    requires IsSoundRun(states, steps) && k < |steps|
    ensures RevisedBy(states, steps, k, p)
  {
    assert Next(states[k], steps[k], states[k + 1]) && Inv(states[k]);
    if p in states[k].profiles { StepRevises(states[k], steps[k], states[k + 1], p); }
  }

  lemma {:induction false} RevisionsAdd(states: seq<State>, steps: seq<Step>, j: nat, i: nat, p: nat)
    requires j <= i < |states| && |states| == |steps| + 1 && p in states[j].profiles
    requires forall k :: j <= k < i ==> RevisedBy(states, steps, k, p)
    ensures p in states[i].profiles && states[j].profiles[p].revision <= states[i].profiles[p].revision
    ensures states[i].profiles[p].revision == states[j].profiles[p].revision <==> NotReplaced(states, steps, j, i, p)
    ensures NotReplaced(states, steps, j, i, p) ==> SameContent(states[i].profiles[p], states[j].profiles[p])
    decreases i - j
  {
    if j < i {
      assert RevisedBy(states, steps, j, p);
      RevisionsAdd(states, steps, j + 1, i, p);
      NotReplacedFrom(states, steps, j, i, p);
    }
  }

  /** The revision tells whether the profile was replaced in between. */
  lemma RevisionTells(states: seq<State>, steps: seq<Step>, j: nat, i: nat, p: nat)
    requires IsSoundRun(states, steps) && j <= i < |states| && p in states[j].profiles
    ensures p in states[i].profiles && states[j].profiles[p].revision <= states[i].profiles[p].revision
    ensures states[i].profiles[p].revision == states[j].profiles[p].revision <==> NotReplaced(states, steps, j, i, p)
    ensures NotReplaced(states, steps, j, i, p) ==> SameContent(states[i].profiles[p], states[j].profiles[p])
  {
    forall k | j <= k < i ensures RevisedBy(states, steps, k, p) { RevisedAt(states, steps, k, p); }
    RevisionsAdd(states, steps, j, i, p);
  }

  /** A validation in flight remembers what it read. */
  lemma StepKeepsTrial(s: State, st: Step, t: State, v: nat)
    requires Next(s, st, t) && v < |s.trials|
    ensures v < |t.trials| && (t.trials[v] == s.trials[v] || t.trials[v] == s.trials[v].(open := false))
  {
  }

  lemma {:induction false} TrialKept(states: seq<State>, steps: seq<Step>, j: nat, i: nat, v: nat)
    requires IsTrace(Next, states, steps) && j <= i < |states| && v < |states[j].trials|
    ensures v < |states[i].trials|
    ensures states[i].trials[v].(open := false) == states[j].trials[v].(open := false)
    decreases i - j
  {
    if j < i {
      assert Next(states[j], steps[j], states[j + 1]);
      StepKeepsTrial(states[j], steps[j], states[j + 1], v);
      TrialKept(states, steps, j + 1, i, v);
    }
  }

  lemma BeginEffect(s: State, p: nat, t: State)
    requires Next(s, BeginValidation(p), t)
    ensures p in s.profiles && p in t.profiles && t.profiles[p] == s.profiles[p] && |t.trials| == |s.trials| + 1
    ensures t.trials[|s.trials|] == Trial(p, s.profiles[p].validation, s.profiles[p].revision, true)
  {
  }

  lemma FinishEffect(s: State, v: nat, ok: bool, t: State)
    requires Next(s, FinishValidation(v, ok), t)
    ensures v < |s.trials| && s.trials[v].open
    ensures var p, outcome := s.trials[v].profile, if ok then Valid else Invalid;
      && p in s.profiles && p in t.profiles && SameContent(t.profiles[p], s.profiles[p])
      && t.profiles[p].validation == if outcome == s.trials[v].read then s.profiles[p].validation else outcome
  {
  }

  /**
   What a validation stands for. A validation that read a profile (step j) and records its
   outcome (step i) lands on the profile as it is by then: that is the profile it tried if
   and only if nobody saved over or deleted it in between, which shows in its revision. The
   status is written only if it differs from the one read.
   */
  lemma ValidatedAsRead(states: seq<State>, steps: seq<Step>, j: nat, i: nat, p: nat, ok: bool)
    requires IsRun(states, steps) && j < i < |steps|
    requires steps[j] == BeginValidation(p) && steps[i] == FinishValidation(|states[j].trials|, ok)
    ensures p in states[j].profiles && p in states[i + 1].profiles
    ensures SameContent(states[i + 1].profiles[p], states[j].profiles[p]) <==> NotReplaced(states, steps, j, i, p)
    ensures p in states[i].profiles
    ensures states[i + 1].profiles[p].validation ==
      if states[j].profiles[p].validation == (if ok then Valid else Invalid) then states[i].profiles[p].validation
      else if ok then Valid else Invalid
  {
    RunsAreSound(states, steps);
    var v := |states[j].trials|;
    assert Next(states[j], steps[j], states[j + 1]) && Next(states[i], steps[i], states[i + 1]);
    BeginEffect(states[j], p, states[j + 1]);
    TrialKept(states, steps, j + 1, i, v);
    FinishEffect(states[i], v, ok, states[i + 1]);
    RevisionTells(states, steps, j, i, p);
  }

  // ----- When a profile is valid -----

  /** The step ends a validation of the profile well. */
  predicate Passes(s: State, st: Step, p: nat) {
    st.FinishValidation? && st.ok && st.trial < |s.trials| && s.trials[st.trial].profile == p
  }

  lemma StepValidates(s: State, st: Step, t: State, p: nat)
    requires UniqueProfiles(s) && Next(s, st, t) && p in t.profiles && t.profiles[p].validation == Valid
    ensures Passes(s, st, p) || (p in s.profiles && s.profiles[p].validation == Valid && !Replaces(s, st, p))
  {
  }

  /** Step `m` ended a validation of the profile well, and nobody replaced the profile after it. */
  ghost predicate PassedAt(states: seq<State>, steps: seq<Step>, m: nat, i: nat, p: nat)
    requires i <= |steps| && |states| == |steps| + 1
  {
    m < i && Passes(states[m], steps[m], p) && NotReplaced(states, steps, m + 1, i, p)
  }

  lemma PassedLater(states: seq<State>, steps: seq<Step>, m: nat, i: nat, p: nat)
    requires i < |steps| && |states| == |steps| + 1
    requires PassedAt(states, steps, m, i, p) && !Replaces(states[i], steps[i], p)
    ensures PassedAt(states, steps, m, i + 1, p)
  {
  }

  predicate IsValid(s: State, p: nat) {
    p in s.profiles && s.profiles[p].validation == Valid
  }

  /** A profile that is valid after the step passed just then, or was valid before and is the same. */
  ghost predicate StaysTried(states: seq<State>, steps: seq<Step>, k: nat, p: nat)
    requires k < |steps| && |states| == |steps| + 1
  {
    IsValid(states[k + 1], p) ==>
      PassedAt(states, steps, k, k + 1, p) || (IsValid(states[k], p) && !Replaces(states[k], steps[k], p))
  }

  lemma StaysTriedAt(states: seq<State>, steps: seq<Step>, k: nat, p: nat)
    requires IsSoundRun(states, steps) && k < |steps|
    ensures StaysTried(states, steps, k, p)
  {
    assert Next(states[k], steps[k], states[k + 1]) && Inv(states[k]);
    if IsValid(states[k + 1], p) { StepValidates(states[k], steps[k], states[k + 1], p); }
  }

  lemma {:induction false} TriedBefore(states: seq<State>, steps: seq<Step>, i: nat, p: nat)
    requires |states| == |steps| + 1 && i < |states| && !IsValid(states[0], p) && IsValid(states[i], p)
    requires forall k :: 0 <= k < i ==> StaysTried(states, steps, k, p)
    ensures exists m: nat :: PassedAt(states, steps, m, i, p)
  {
    assert StaysTried(states, steps, i - 1, p);
    if !PassedAt(states, steps, i - 1, i, p) {
      TriedBefore(states, steps, i - 1, p);
      var m: nat :| PassedAt(states, steps, m, i - 1, p);
      PassedLater(states, steps, m, i - 1, p);
    }
  }

  /**
   Only validated profiles are valid. In any run, a valid profile has passed a validation that
   ended since it was last saved over or deleted.
   */
  lemma ValidWasTried(states: seq<State>, steps: seq<Step>, i: nat, p: nat)
    requires IsRun(states, steps) && i < |states|
    requires p in states[i].profiles && states[i].profiles[p].validation == Valid
    ensures exists m: nat :: PassedAt(states, steps, m, i, p)
  {
    RunsAreSound(states, steps);
    forall k | 0 <= k < i ensures StaysTried(states, steps, k, p) { StaysTriedAt(states, steps, k, p); }
    TriedBefore(states, steps, i, p);
  }

  // ----- When a deleted profile stays deleted -----

  predicate Tries(s: State, v: nat, p: nat) {
    v < |s.trials| && s.trials[v].open && s.trials[v].profile == p
  }

  /** A validation of the profile has read it and not yet written. */
  ghost predicate InFlight(s: State, p: nat) {
    exists v: nat :: Tries(s, v, p)
  }

  predicate IsDeleted(s: State, p: nat) {
    p in s.profiles && s.profiles[p].validation == Deleted
  }

  /** Steps among which nobody saves a profile for this tenant and environment. */
  ghost function NotSaving(tenant: string, env: Environment): (State, Step, State) -> bool {
    (s: State, st: Step, t: State) => Next(s, st, t) && !(st.SaveProfile? && st.tenant == tenant && st.env == env)
  }

  /** Until it is saved again, the profile is deleted in every continuation. */
  ghost predicate StaysDeleted(s: State, p: nat)
    requires p in s.profiles
  {
    forall t: State :: Reaches(NotSaving(s.profiles[p].tenant, s.profiles[p].env), s, t) ==> IsDeleted(t, p)
  }

  /** Deleted, with nothing in flight that could write its status. */
  ghost predicate Buried(s: State, p: nat, tenant: string, env: Environment) {
    IsDeleted(s, p) && s.profiles[p].tenant == tenant && s.profiles[p].env == env && !InFlight(s, p)
  }

  lemma StepKeepsBuried(s: State, st: Step, t: State, p: nat, tenant: string, env: Environment)
    requires Buried(s, p, tenant, env) && NotSaving(tenant, env)(s, st, t)
    ensures Buried(t, p, tenant, env)
  {
    assert st.FinishValidation? ==> !Tries(s, st.trial, p);
    forall v: nat ensures !Tries(t, v, p) {
      assert !Tries(s, v, p);
    }
  }

  lemma BuriedForGood(s: State, p: nat)
    requires IsDeleted(s, p) && !InFlight(s, p)
    ensures StaysDeleted(s, p)
  {
    var tenant, env := s.profiles[p].tenant, s.profiles[p].env;
    var buried := (x: State) => Buried(x, p, tenant, env);
    forall t: State | Reaches(NotSaving(tenant, env), s, t) ensures IsDeleted(t, p) {
      forall a, st, b | buried(a) && NotSaving(tenant, env)(a, st, b) ensures buried(b) {
        StepKeepsBuried(a, st, b, p, tenant, env);
      }
      ReachesInvariant(NotSaving(tenant, env), buried, s, t);
    }
  }

  /** Whatever a validation in flight read, one of its outcomes is written. */
  lemma FlightRevives(s: State, p: nat)
    requires IsDeleted(s, p) && InFlight(s, p)
    ensures !StaysDeleted(s, p)
  {
    var v: nat :| Tries(s, v, p);
    var st := FinishValidation(v, s.trials[v].read != Valid);
    var t := Apply(s, st);
    FinishEffect(s, v, s.trials[v].read != Valid, t);
    var steps := NotSaving(s.profiles[p].tenant, s.profiles[p].env);
    ReachesSelf(steps, s);
    ReachesThen(steps, s, s, st, t);
  }

  /**
   Exactly when a deletion holds. From any state a deleted profile stays deleted until its
   tenant saves it again if and only if no validation of it is in flight, that is, none that
   read it before the deletion has yet to write its outcome.
   */
  lemma DeletedUnlessInFlight(s: State, p: nat)
    requires IsDeleted(s, p)
    ensures StaysDeleted(s, p) <==> !InFlight(s, p)
  {
    if InFlight(s, p) { FlightRevives(s, p); } else { BuriedForGood(s, p); }
  }
}
