/**
 What the issuing protocol can always still do: a sequence advances unless a finished row
 blocks it, and a row whose voucher was issued recovers it after any crash.
 */
module InvoiceProgress {
  import opened Common
  import opened Traces
  import opened Vat
  import opened Invoice
  import opened InvoiceMachine
  import opened InvoiceInvariant
  import opened InvoiceSafety
  import opened InvoiceNumbering

  /** What can be reached from a later state with the same last number can be reached from here. */
  lemma AdvancesLater(s: State, t: State, k: Sequence)
    requires Reaches(Next, s, t) && t.Last(k) == s.Last(k) && CanAdvance(t, k)
    ensures CanAdvance(s, k)
  {
    var u: State :| Reaches(Next, t, u) && u.Last(k) > t.Last(k);
    ReachesFurther(Next, s, t, u);
  }

  lemma AdvancesAfter(s: State, st: Step, t: State, k: Sequence)
    requires Next(s, st, t) && t.Last(k) == s.Last(k) && CanAdvance(t, k)
    ensures CanAdvance(s, k)
  {
    ReachesSelf(Next, s);
    ReachesThen(Next, s, s, st, t);
    AdvancesLater(s, t, k);
  }

  /** The row holds the next number of its sequence. */
  predicate NextIn(s: State, id: nat, k: Sequence) {
    id in s.rows && s.rows[id].Key() == k && s.rows[id].number == Some(s.Last(k) + 1)
  }

  /** The authority has not issued the next number, by definition. */
  lemma NextIsUnissued(s: State, k: Sequence)
    requires AuthorityOk(s)
    ensures (k, s.Last(k) + 1) !in s.vouchers
  {
  }

  // ----- From each point of an attempt on, the number can be issued -----

  lemma FromCall(s: State, id: nat, k: Sequence)
    requires NextIn(s, id, k) && Outgoing(s, id, s.Last(k) + 1)
    ensures CanAdvance(s, k)
  {
    var c :| 0 <= c < |s.calls| && s.calls[c] == Call(id, s.Last(k) + 1, true);
    var st := Deliver(c, id, s.Last(k) + 1, "");
    ReachesSelf(Next, s);
    ReachesThen(Next, s, s, st, Apply(s, st));
    assert Apply(s, st).Last(k) > s.Last(k);
  }

  lemma FromSending(s: State, id: nat, k: Sequence)
    requires NextIn(s, id, k) && id in s.jobs && s.jobs[id].Sending?
    ensures CanAdvance(s, k)
  {
    var st := Step.Work(id, Send);
    var t := Apply(s, st);
    assert t.calls[|s.calls|] == Call(id, s.Last(k) + 1, true);
    FromCall(t, id, k);
    AdvancesAfter(s, st, t, k);
  }

  lemma FromNumbering(s: State, id: nat, k: Sequence)
    requires NextIn(s, id, k) && id in s.jobs && s.jobs[id] == Numbering(s.Last(k) + 1)
    ensures CanAdvance(s, k)
  {
    var st := Step.Work(id, Compare);
    var t := Apply(s, st);
    FromSending(t, id, k);
    AdvancesAfter(s, st, t, k);
  }

  lemma FromSequencing(s: State, id: nat, k: Sequence)
    requires NextIn(s, id, k) && id in s.jobs && s.jobs[id].Sequencing?
    ensures CanAdvance(s, k)
  {
    var st := Step.Work(id, AskLast);
    var t := Apply(s, st);
    FromNumbering(t, id, k);
    AdvancesAfter(s, st, t, k);
  }

  lemma FromStarted(s: State, id: nat, k: Sequence)
    requires NextIn(s, id, k) && (k, s.Last(k) + 1) !in s.vouchers && id in s.jobs && s.jobs[id].Started?
    ensures CanAdvance(s, k)
  {
    var st := Step.Work(id, if s.rows[id].attempts > 1 then LookupMissing else SkipLookup);
    var t := Apply(s, st);
    FromSequencing(t, id, k);
    AdvancesAfter(s, st, t, k);
  }

  lemma FromFree(s: State, id: nat, k: Sequence)
    requires NextIn(s, id, k) && (k, s.Last(k) + 1) !in s.vouchers && id !in s.jobs && s.rows[id].status.Active()
    requires ProfileProblem(s, s.rows[id]).None?
    ensures CanAdvance(s, k)
  {
    var st := Step.Work(id, Act.Claim(0));
    var t := Apply(s, st);
    assert t.rows[id] == Claimed(s.rows[id], 0);
    FromStarted(t, id, k);
    AdvancesAfter(s, st, t, k);
  }

  /** A live profile can always be validated, unless it already is. */
  lemma Validated(s: State, p: nat) returns (t: State)
    requires Inv(s) && p in s.profiles && s.profiles[p].validation in {NotValidated, Invalid}
    ensures Reaches(Next, s, t) && Inv(t) && t == s.(profiles := t.profiles, trials := t.trials)
    ensures t.profiles == s.profiles[p := s.profiles[p].(validation := Valid)]
  {
    var begin, finish := BeginValidation(p), FinishValidation(|s.trials|, true);
    var begun := Apply(s, begin);
    t := Apply(begun, finish);
    StepKeepsInv(s, begin, begun);
    StepKeepsInv(begun, finish, t);
    ReachesSelf(Next, s);
    ReachesThen(Next, s, s, begin, begun);
    ReachesThen(Next, s, begun, finish, t);
  }

  /** So can the profile of an open row. */
  lemma Revalidated(s: State, id: nat) returns (t: State)
    requires Inv(s) && id in s.rows && s.rows[id].status.NonTerminal()
    ensures Reaches(Next, s, t) && Inv(t) && t == s.(profiles := t.profiles, trials := t.trials)
    ensures ProfileProblem(t, s.rows[id]).None? && Ready(t, s.rows[id])
  {
    assert FrozenFor(s, s.rows[id]);
    var p := s.rows[id].profileId;
    if s.profiles[p].validation == Valid {
      t := s;
      ReachesSelf(Next, s);
    } else {
      t := Validated(s, p);
    }
  }

  /** The profile of the row is the one it was created from, and valid. */
  predicate Ready(s: State, r: Row) {
    && r.profileId in s.profiles
    && var p := s.profiles[r.profileId];
      p.tenant == r.tenant && p.env == r.env && p.config == r.config && p.validation == Valid
  }

  lemma Crashed(s: State, id: nat) returns (t: State)
    requires Inv(s) && id in s.jobs
    ensures id in s.rows && Next(s, Step.Work(id, Crash), t) && Inv(t) && t == s.(jobs := s.jobs - {id})
  {
    assert JobOk(s.rows[id], s.jobs[id]);
    t := CrashedState(s, id);
    StepKeepsInv(s, Step.Work(id, Crash), t);
  }

  lemma CrashedState(s: State, id: nat) returns (t: State)
    requires id in s.rows && id in s.jobs
    ensures Next(s, Step.Work(id, Crash), t) && t == s.(jobs := s.jobs - {id})
  {
    t := Apply(s, Step.Work(id, Crash));
    assert s.rows[id := s.rows[id]] == s.rows;
  }

  lemma FromActive(s: State, id: nat, k: Sequence)
    requires Inv(s) && NextIn(s, id, k) && s.rows[id].status.Active()
    ensures CanAdvance(s, k)
  {
    if id in s.jobs {
      var t := Crashed(s, id);
      FromIdle(t, id, k);
      AdvancesAfter(s, Step.Work(id, Crash), t, k);
    } else {
      FromIdle(s, id, k);
    }
  }

  lemma FromIdle(s: State, id: nat, k: Sequence)
    requires Inv(s) && NextIn(s, id, k) && s.rows[id].status.Active() && id !in s.jobs
    ensures CanAdvance(s, k)
  {
    var t := Revalidated(s, id);
    NextIsUnissued(t, k);
    FromFree(t, id, k);
    AdvancesLater(s, t, k);
  }

  // ----- A row that waits for its receiver -----

  /** The completion that gives the stored request a receiver and its own number again. */
  function CompletionOf(r: Row, n: nat): Submission {
    Submission(r.tenant, r.env, r.request.(receiver := Receiver(80, "1", 5)), Some(n), false, true)
  }

  lemma CompletionJudged(s: State, id: nat, n: nat, newId: nat)
    requires Inv(s) && id in s.rows && s.rows[id].status.ReceiverRequired? && s.rows[id].number == Some(n)
    requires Ready(s, s.rows[id])
    ensures Judge(s, CompletionOf(s.rows[id], n), false, newId, 0) == Verdict.Complete(id, Receiver(80, "1", 5), n)
  {
    var r := s.rows[id];
    var sub := CompletionOf(r, n);
    assert RowOk(r, s.threshold);
    assert HasProfile(s, r.tenant, r.env) && FindProfile(s, r.tenant, r.env) == r.profileId;
    assert ExternalTaken(s.rows, sub.tenant, sub.request.externalId);
    SameExternalSameRow(s.rows, FindExternal(s.rows, sub.tenant, sub.request.externalId), id);
    forall j | j in s.rows && j != id && s.rows[j].Key() == r.Key() ensures s.rows[j].number != Some(n) {
      assert Distinct(s.rows[j], r);
    }
  }

  lemma FromCompletable(s: State, id: nat, k: Sequence)
    requires Inv(s) && NextIn(s, id, k) && s.rows[id].status.ReceiverRequired?
    requires Ready(s, s.rows[id])
    ensures CanAdvance(s, k)
  {
    NewNumber(s.rows.Keys);
    var newId: nat :| newId !in s.rows;
    CompletionJudged(s, id, s.Last(k) + 1, newId);
    NextIsUnissued(s, k);
    assert id in s.jobs ==> JobOk(s.rows[id], s.jobs[id]);
    FromJudged(s, id, CompletionOf(s.rows[id], s.Last(k) + 1), newId, Receiver(80, "1", 5), k);
  }

  lemma FromJudged(s: State, id: nat, sub: Submission, newId: nat, receiver: Receiver, k: Sequence)
    requires NextIn(s, id, k) && (k, s.Last(k) + 1) !in s.vouchers && id !in s.jobs && newId !in s.rows
    requires ProfileProblem(s, s.rows[id]).None? && sub.number == Some(s.Last(k) + 1)
    requires Judge(s, sub, false, newId, 0) == Verdict.Complete(id, receiver, s.Last(k) + 1)
    ensures CanAdvance(s, k)
  {
    var t := s.(rows := s.rows[id := Resumed(s.rows[id], receiver, s.Last(k) + 1, 0)]);
    assert t == Apply(s, Submit(sub, false, newId, 0));
    FromFree(t, id, k);
    AdvancesAfter(s, Submit(sub, false, newId, 0), t, k);
  }

  lemma FromWaiting(s: State, id: nat, k: Sequence)
    requires Inv(s) && NextIn(s, id, k) && s.rows[id].status.ReceiverRequired?
    ensures CanAdvance(s, k)
  {
    var t := Revalidated(s, id);
    FromCompletable(t, id, k);
    AdvancesLater(s, t, k);
  }

  // ----- Nobody holds the next number -----

  /** A new request that the tables do not stand in the way of is inserted as it is. */
  lemma NewAccepted(s: State, sub: Submission, p: nat, id: nat, now: int)
    requires sub.entitled && UniqueProfiles(s) && p in s.profiles
    requires s.profiles[p].tenant == sub.tenant && s.profiles[p].env == sub.env && s.profiles[p].validation == Valid
    requires !NeedsProducts(s.profiles[p].config, sub) && !NeedsDates(s.profiles[p].config, sub)
    requires !ExternalTaken(s.rows, sub.tenant, sub.request.externalId)
      && !SaleTaken(s.rows, sub.tenant, sub.request.sale)
    requires var c := s.profiles[p].config;
      sub.number.Some? ==>
          !NumberTaken(s.rows, id, Sequence(sub.env, c.cuit, c.pointOfSale, c.voucherType), sub.number.value)
    ensures Judge(s, sub, false, id, now)
      == Insert(Fresh(sub.tenant, sub.env, p, s.profiles[p].config, sub.request, sub.number, now, s.threshold))
  {
    assert HasProfile(s, sub.tenant, sub.env) && FindProfile(s, sub.tenant, sub.env) == p;
  }

  /** A request of one line from an identified receiver, for the number. */
  predicate Simple(sub: Submission, tenant: string, env: Environment, n: nat) {
    && sub.tenant == tenant && sub.env == env && sub.number == Some(n) && !sub.automatic && sub.entitled
    && sub.request.sale.None? && !sub.request.receiver.Generic() && |sub.request.lines| == 1
  }

  lemma SomeSimple(tenant: string, env: Environment, n: nat) returns (sub: Submission)
    ensures Simple(sub, tenant, env, n)
  {
    var line := Line("item", 10_000, 12_100);
    var request := Request("new", None, None, Receiver(80, "1", 5), 0, None, [line]);
    sub := Submission(tenant, env, request, Some(n), false, true);
  }

  /** A validated profile of the sequence whose tenant has no invoices. */
  predicate Vacant(s: State, p: nat, k: Sequence) {
    && p in s.profiles && s.profiles[p].env == k.env
    && (forall id :: id in s.rows ==> s.rows[id].tenant != s.profiles[p].tenant)
    && var c := s.profiles[p].config;
      c.cuit == k.cuit && c.pointOfSale == k.pointOfSale && c.voucherType == k.voucherType && c.concept == 1
  }

  lemma FromProfile(s: State, p: nat, k: Sequence)
    requires Inv(s) && Vacant(s, p, k) && s.profiles[p].validation == Valid && forall id :: !NextIn(s, id, k)
    ensures CanAdvance(s, k)
  {
    var sub := SomeSimple(s.profiles[p].tenant, k.env, s.Last(k) + 1);
    NewNumber(s.rows.Keys + s.jobs.Keys);
    var id: nat :| id !in s.rows.Keys + s.jobs.Keys;
    NothingInTheWay(s, sub, p, id, k);
    NextIsUnissued(s, k);
    FromInsertable(s, sub, p, id, k);
  }

  lemma NothingInTheWay(s: State, sub: Submission, p: nat, id: nat, k: Sequence)
    requires Vacant(s, p, k) && Simple(sub, s.profiles[p].tenant, k.env, s.Last(k) + 1) && forall j :: !NextIn(s, j, k)
    ensures !ExternalTaken(s.rows, sub.tenant, sub.request.externalId)
      && !SaleTaken(s.rows, sub.tenant, sub.request.sale)
    ensures !NumberTaken(s.rows, id, k, s.Last(k) + 1)
  {
    forall j | j in s.rows && s.rows[j].Key() == k ensures s.rows[j].number != Some(s.Last(k) + 1) {
      assert !NextIn(s, j, k);
    }
  }

  lemma FromInsertable(s: State, sub: Submission, p: nat, id: nat, k: Sequence)
    requires UniqueProfiles(s) && Vacant(s, p, k) && s.profiles[p].validation == Valid
    requires Simple(sub, s.profiles[p].tenant, k.env, s.Last(k) + 1)
    requires !ExternalTaken(s.rows, sub.tenant, sub.request.externalId)
      && !SaleTaken(s.rows, sub.tenant, sub.request.sale)
    requires !NumberTaken(s.rows, id, k, s.Last(k) + 1)
    requires (k, s.Last(k) + 1) !in s.vouchers && id !in s.rows && id !in s.jobs
    ensures CanAdvance(s, k)
  {
    NewAccepted(s, sub, p, id, 0);
    var r := Fresh(sub.tenant, sub.env, p, s.profiles[p].config, sub.request, sub.number, 0, s.threshold);
    FromAccepted(s, sub, id, r, k);
  }

  lemma FromAccepted(s: State, sub: Submission, id: nat, r: Row, k: Sequence)
    requires id !in s.rows && id !in s.jobs && (k, s.Last(k) + 1) !in s.vouchers
    requires Judge(s, sub, false, id, 0) == Insert(r) && sub.number == Some(s.Last(k) + 1)
    requires r.status.Pending? && r.Key() == k && r.number == sub.number && ProfileProblem(s, r).None?
    ensures CanAdvance(s, k)
  {
    var t := s.(rows := s.rows[id := r]);
    assert t == Apply(s, Submit(sub, false, id, 0));
    FromFree(t, id, k);
    AdvancesAfter(s, Submit(sub, false, id, 0), t, k);
  }

  lemma FromNobody(s: State, k: Sequence)
    requires Inv(s) && forall id :: !NextIn(s, id, k)
    ensures CanAdvance(s, k)
  {
    var tenants := (set p | p in s.profiles :: s.profiles[p].tenant) + set id | id in s.rows :: s.rows[id].tenant;
    NewString(tenants);
    var tenant: string :| tenant !in tenants;
    NewNumber(s.profiles.Keys);
    var p: nat :| p !in s.profiles;
    FromNewTenant(s, tenant, p, k);
  }

  lemma FromNewTenant(s: State, tenant: string, p: nat, k: Sequence)
    requires Inv(s) && p !in s.profiles && forall id :: !NextIn(s, id, k)
    requires forall q :: q in s.profiles ==> s.profiles[q].tenant != tenant
    requires forall id :: id in s.rows ==> s.rows[id].tenant != tenant
    ensures CanAdvance(s, k)
  {
    var config := Config(k.cuit, k.pointOfSale, k.voucherType, 1, 2100, 5);
    var save := SaveProfile(tenant, k.env, config, p);
    var t := s.(profiles := s.profiles[p := Profile(tenant, k.env, config, NotValidated, 0)]);
    assert !HasProfile(s, tenant, k.env);
    assert Next(s, save, t);
    StepKeepsInv(s, save, t);
    forall id ensures !NextIn(t, id, k) { assert !NextIn(s, id, k); }
    FromVacant(t, p, k);
    AdvancesAfter(s, save, t, k);
  }

  lemma FromVacant(s: State, p: nat, k: Sequence)
    requires Inv(s) && Vacant(s, p, k) && s.profiles[p].validation == NotValidated && forall id :: !NextIn(s, id, k)
    ensures CanAdvance(s, k)
  {
    var t := Validated(s, p);
    forall id ensures !NextIn(t, id, k) { assert !NextIn(s, id, k); }
    FromProfile(t, p, k);
    AdvancesLater(s, t, k);
  }

  // ----- Exactly when a sequence can advance -----

  /** A finished row (rejected, failed or quarantined) holds the next number and no call for it is outstanding. */
  predicate Blocks(s: State, id: nat, k: Sequence) {
    HoldsNext(s, id) && s.rows[id].Key() == k && !Outgoing(s, id, s.Last(k) + 1)
  }

  lemma FromUnblocked(s: State, k: Sequence)
    requires Inv(s) && forall id :: !Blocks(s, id, k)
    ensures CanAdvance(s, k)
  {
    if id :| NextIn(s, id, k) {
      assert !Blocks(s, id, k) && RowOk(s.rows[id], s.threshold);
      if Outgoing(s, id, s.Last(k) + 1) {
        FromCall(s, id, k);
      } else if s.rows[id].status.Active() {
        FromActive(s, id, k);
      } else {
        FromWaiting(s, id, k);
      }
    } else {
      FromNobody(s, k);
    }
  }

  /**
   Exactly when numbering stalls. From any reachable state a sequence can advance if and only
   if no finished row holds its next number without a call for it that the authority has yet
   to act on. A row that the authority refused blocks its sequence for good, and so does one
   rejected before its call, such as an explicit request ahead of its turn, once the sequence
   reaches its number; nothing else does.
   */
  lemma AdvancesUnlessBlocked(s: State, k: Sequence)
    requires Reachable(s)
    ensures CanAdvance(s, k) <==> !exists id :: Blocks(s, id, k)
  {
    ReachableInv(s);
    if id :| Blocks(s, id, k) {
      StuckForGood(s, id, k);
    } else {
      FromUnblocked(s, k);
    }
  }

  // ----- Recovery -----

  /** Some continuation approves the row with this CAE and submits nothing. */
  ghost predicate CanRecover(s: State, id: nat, cae: string) {
    exists t: State :: Reaches(Next, s, t) && t.sent == s.sent && id in t.rows
      && t.rows[id].status.Approved? && t.rows[id].cae == Some(cae)
  }

  lemma RecoversLater(s: State, t: State, id: nat, cae: string)
    requires Reaches(Next, s, t) && t.sent == s.sent && CanRecover(t, id, cae)
    ensures CanRecover(s, id, cae)
  {
    var u: State :| Reaches(Next, t, u) && u.sent == t.sent && id in u.rows
      && u.rows[id].status.Approved? && u.rows[id].cae == Some(cae);
    ReachesFurther(Next, s, t, u);
  }

  lemma RecoversAfter(s: State, st: Step, t: State, id: nat, cae: string)
    requires Next(s, st, t) && t.sent == s.sent && CanRecover(t, id, cae)
    ensures CanRecover(s, id, cae)
  {
    ReachesSelf(Next, s);
    ReachesThen(Next, s, s, st, t);
    RecoversLater(s, t, id, cae);
  }

  ghost predicate IssuedAs(s: State, id: nat, cae: string) {
    id in s.rows && IssuedToItself(s, id) && s.vouchers[(s.rows[id].Key(), s.rows[id].number.value)].cae == cae
  }

  lemma FoundByLookup(s: State, id: nat, cae: string)
    requires IssuedAs(s, id, cae) && id in s.jobs && s.jobs[id].Started? && s.rows[id].attempts > 1
    ensures CanRecover(s, id, cae)
  {
    var st := Step.Work(id, LookupFound);
    var t := Apply(s, st);
    assert t.rows[id] == ApprovedWith(s.rows[id], cae);
    ReachesSelf(Next, s);
    ReachesThen(Next, s, s, st, t);
  }

  lemma FoundByClaim(s: State, id: nat, cae: string)
    requires IssuedAs(s, id, cae) && id !in s.jobs && s.rows[id].status.Active() && s.rows[id].attempts >= 1
    requires ProfileProblem(s, s.rows[id]).None?
    ensures CanRecover(s, id, cae)
  {
    var st := Step.Work(id, Act.Claim(0));
    var t := Apply(s, st);
    assert t.rows[id] == Claimed(s.rows[id], 0);
    FoundByLookup(t, id, cae);
    RecoversAfter(s, st, t, id, cae);
  }

  lemma FoundWhenIdle(s: State, id: nat, cae: string)
    requires Inv(s) && IssuedAs(s, id, cae) && id !in s.jobs && s.rows[id].status.Active()
    ensures CanRecover(s, id, cae)
  {
    var r := s.rows[id];
    assert OwnerOk(s, r.Key(), r.number.value, s.vouchers[(r.Key(), r.number.value)].owner);
    var t := Revalidated(s, id);
    FoundByClaim(t, id, cae);
    RecoversLater(s, t, id, cae);
  }

  /**
   Recovery. In every reachable state, wherever its worker is or died, an active row whose
   number was issued to it can still be approved with the CAE issued, without submitting
   anything again.
   */
  lemma IssuedRowsRecover(s: State, id: nat, cae: string)
    requires Reachable(s) && IssuedAs(s, id, cae) && s.rows[id].status.Active()
    ensures CanRecover(s, id, cae)
  {
    ReachableInv(s);
    if id in s.jobs {
      var t := Crashed(s, id);
      FoundWhenIdle(t, id, cae);
      RecoversAfter(s, Step.Work(id, Crash), t, id, cae);
    } else {
      FoundWhenIdle(s, id, cae);
    }
  }
}
