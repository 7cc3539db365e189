/**
 The request side of the invoice service: enqueueing and completing requests, and the
 fiscal profiles they use. Each method is one step of the invoice machine, taken from the
 state its commit finds.
 */
module InvoiceRequests {
  import opened Common
  import opened Traces
  import opened Vat
  import opened Invoice
  import opened InvoiceMachine
  import opened InvoiceInvariant
  import opened InvoiceSafety
  import opened InvoicePath
  import opened InvoiceService

  lemma FoundProfile(s: State, tenant: string, env: Environment, p: nat)
    requires UniqueProfiles(s) && p in s.profiles && s.profiles[p].tenant == tenant && s.profiles[p].env == env
    ensures HasProfile(s, tenant, env) && FindProfile(s, tenant, env) == p
  {
  }

  lemma FoundExternal(rows: map<nat, Row>, tenant: string, externalId: string, id: nat)
    requires UniqueOk(rows) && id in rows && rows[id].tenant == tenant && rows[id].externalId == externalId
    ensures ExternalTaken(rows, tenant, externalId) && FindExternal(rows, tenant, externalId) == id
  {
    SameExternalSameRow(rows, FindExternal(rows, tenant, externalId), id);
  }

  ghost predicate HasLiveProfile(s: State, tenant: string, env: Environment) {
    HasProfile(s, tenant, env) && s.profiles[FindProfile(s, tenant, env)].validation != Deleted
  }

  /** The profile of the tenant and environment, unless there is none or it is deleted. */
  method Find(db: Platform, tenant: string, env: Environment) returns (found: Option<nat>)
    requires Reachable(db.S())
    ensures found.Some? <==> HasLiveProfile(db.S(), tenant, env)
    ensures found.Some? ==> found.value == FindProfile(db.S(), tenant, env)
  {
    ReachableInv(db.S());
    if q :| q in db.profiles && db.profiles[q].tenant == tenant && db.profiles[q].env == env {
      FoundProfile(db.S(), tenant, env, q);
      return if db.profiles[q].validation == Deleted then None else Some(q);
    }
    return None;
  }

  class InvoiceRequestService {
    const db: Platform

    constructor (db: Platform)
      ensures this.db == db
    {
      this.db := db;
    }

    /**
     One submission. The verdict and the new table are those of the machine's step in the
     state `mid` that the commit finds; requests that end before their commit are judged in
     the state they started from. Only a request that found neither its external id nor its
     sale can lose a race.
     */
    method Enqueue(sub: Submission, now: int)
      returns (v: Verdict, ghost mid: State, ghost raced: bool, ghost id: nat)
      requires Reachable(db.S()) && (sub.number.Some? ==> sub.number.value > 0)
      modifies db
      ensures Reaches(Next, old(db.S()), mid) && (!raced ==> mid == old(db.S()))
      ensures raced ==>
        && !ExternalTaken(old(db.rows), sub.tenant, sub.request.externalId)
        && !SaleTaken(old(db.rows), sub.tenant, sub.request.sale)
      ensures Enabled(mid, Submit(sub, raced, id, now)) && db.S() == Apply(mid, Submit(sub, raced, id, now))
      ensures v == Judge(mid, sub, raced, id, now)
      ensures Reachable(db.S()) && Reaches(Next, old(db.S()), db.S())
    {
      mid, raced := db.S(), false;
      ReachesSelf(Next, mid);
      NewNumber(db.rows.Keys);
      id :| id !in db.rows;
      var p: nat;
      v, p := Check(sub, id, now);
      if v.Insert? {
        v, mid, id := StoreLater(v.row, sub, p, now);
        raced := true;
      } else {
        if v.Complete? { Complete(v.id, sub, id, now, v); }
        Followed(mid, mid, Submit(sub, false, id, now), db.S());
      }
    }

    /** Everything before the commit: the reads, and the row that would be inserted. */
    method Check(sub: Submission, ghost id: nat, now: int) returns (v: Verdict, p: nat)
      requires Reachable(db.S()) && id !in db.rows
      ensures !v.Insert? ==> v == Judge(db.S(), sub, false, id, now)
      ensures v.Insert? ==>
        && sub.entitled && p in db.profiles && Usable(db.profiles[p], sub)
        && v.row == Fresh(sub.tenant, sub.env, p, db.profiles[p].config, sub.request, sub.number, now, db.threshold)
        && !NeedsProducts(db.profiles[p].config, sub) && !NeedsDates(db.profiles[p].config, sub)
        && !ExternalTaken(db.rows, sub.tenant, sub.request.externalId)
        && !SaleTaken(db.rows, sub.tenant, sub.request.sale)
    {
      if !sub.entitled { return Refuse(NotEntitled), 0; }
      var refusal: Option<Refusal>;
      refusal, p := Require(sub);
      if refusal.Some? { return Refuse(refusal.value), p; }
      v := CheckRequest(p, sub, id, now);
    }

    /** The profile the request is issued with: it must exist, not be deleted, and be valid. */
    method Require(sub: Submission) returns (refusal: Option<Refusal>, p: nat)
      requires Reachable(db.S())
      ensures refusal == Some(ProfileNotFound) <==> !HasLiveProfile(db.S(), sub.tenant, sub.env)
      ensures refusal.Some? ==> refusal.value in {ProfileNotFound, ProfileUnusable}
      ensures HasLiveProfile(db.S(), sub.tenant, sub.env) ==>
        && p == FindProfile(db.S(), sub.tenant, sub.env) && p in db.profiles
        && (refusal.None? <==> Usable(db.profiles[p], sub))
    {
      var found := Find(db, sub.tenant, sub.env);
      if found.None? { return Some(ProfileNotFound), 0; }
      p := found.value;
      refusal := if db.profiles[p].validation == Valid then None else Some(ProfileUnusable);
    }

    /** The row of the tenant's request, if it was stored before. */
    method FindExisting(sub: Submission) returns (e: Option<nat>)
      requires Reachable(db.S())
      ensures e.Some? <==> ExternalTaken(db.rows, sub.tenant, sub.request.externalId)
      ensures e.Some? ==> e.value == FindExternal(db.rows, sub.tenant, sub.request.externalId)
    {
      ReachableInv(db.S());
      if q :| q in db.rows && db.rows[q].tenant == sub.tenant && db.rows[q].externalId == sub.request.externalId {
        FoundExternal(db.rows, sub.tenant, sub.request.externalId, q);
        return Some(q);
      }
      return None;
    }

    /** Does an invoice of the tenant name the sale? */
    method SaleInvoiced(sub: Submission) returns (invoiced: bool)
      ensures invoiced <==> SaleTaken(db.rows, sub.tenant, sub.request.sale)
    {
      if sub.request.sale.None? { return false; }
      if q :| q in db.rows && db.rows[q].tenant == sub.tenant && db.rows[q].sale == sub.request.sale { return true; }
      return false;
    }

    method CheckRequest(p: nat, sub: Submission, ghost id: nat, now: int) returns (v: Verdict)
      requires Reachable(db.S()) && id !in db.rows && sub.entitled
      requires HasProfile(db.S(), sub.tenant, sub.env) && p == FindProfile(db.S(), sub.tenant, sub.env)
      requires Usable(db.profiles[p], sub)
      ensures !v.Insert? ==> v == Judge(db.S(), sub, false, id, now)
      ensures v.Insert? ==>
        && v.row == Fresh(sub.tenant, sub.env, p, db.profiles[p].config, sub.request, sub.number, now, db.threshold)
        && !NeedsProducts(db.profiles[p].config, sub) && !NeedsDates(db.profiles[p].config, sub)
        && !ExternalTaken(db.rows, sub.tenant, sub.request.externalId)
        && !SaleTaken(db.rows, sub.tenant, sub.request.sale)
    {
      var e := FindExisting(sub);
      if e.Some? {
        v := Existing(e.value, sub);
        return;
      }
      var invoiced := SaleInvoiced(sub);
      if invoiced { return Refuse(SaleAlreadyInvoiced); }
      v := Draft(p, sub, now);
    }

    /** The stored row decides about a repeated request. */
    method Existing(e: nat, sub: Submission) returns (v: Verdict)
      requires Reachable(db.S()) && e in db.rows
      ensures v == JudgeExisting(db.S(), e, sub)
    {
      var row := db.rows[e];
      if row.status.ReceiverRequired? {
        if row.request.externalId != sub.request.externalId || row.request.sale != sub.request.sale {
          return Refuse(IdempotencyConflict);
        }
        if sub.request.receiver.Generic() { return Stored(e); }
        if sub.number.None? { return Refuse(NeedsExplicitNumber); }
        var k := row.Key();
        if j :| j in db.rows && j != e && db.rows[j].Key() == k && db.rows[j].number == sub.number {
          return Refuse(FiscalReferenceConflict);
        }
        return Verdict.Complete(e, sub.request.receiver, sub.number.value);
      }
      if row.hash != Fingerprint(sub.env, sub.number, sub.request) { return Refuse(IdempotencyConflict); }
      return Stored(e);
    }

    /** The row of a new request, with its amounts. */
    method Draft(p: nat, sub: Submission, now: int) returns (v: Verdict)
      requires p in db.profiles
      ensures NeedsProducts(db.profiles[p].config, sub) ==> v == Refuse(NeedsProductsConcept)
      ensures !NeedsProducts(db.profiles[p].config, sub) && NeedsDates(db.profiles[p].config, sub) ==>
        v == Refuse(NeedsServiceDates)
      ensures !NeedsProducts(db.profiles[p].config, sub) && !NeedsDates(db.profiles[p].config, sub) ==>
        v == Insert(Fresh(sub.tenant, sub.env, p, db.profiles[p].config, sub.request, sub.number, now, db.threshold))
    {
      var config := db.profiles[p].config;
      if NeedsProducts(config, sub) { return Refuse(NeedsProductsConcept); }
      if NeedsDates(config, sub) { return Refuse(NeedsServiceDates); }
      var amounts := CalculateAmounts(sub.request.lines, config.vatRate);
      var missing := amounts.total >= db.threshold && sub.request.receiver.Generic();
      return Insert(Row(sub.tenant, sub.env, p, config, sub.request.externalId, sub.request.sale, amounts,
                        sub.request, Fingerprint(sub.env, sub.number, sub.request), sub.request.receiver,
                        sub.number, sub.number.Some?,
                        if missing then ReceiverRequired else Pending, 0,
                        if missing then None else Some(now),
                        if missing then Some(IdentificationRequired) else None, None));
    }

    /** The new row is committed some time later; until then the profile is locked. */
    method StoreLater(row: Row, sub: Submission, p: nat, now: int) returns (v: Verdict, ghost mid: State, ghost id: nat)
      requires Reachable(db.S()) && sub.entitled && p in db.profiles && Usable(db.profiles[p], sub)
      requires sub.number.Some? ==> sub.number.value > 0
      requires !NeedsProducts(db.profiles[p].config, sub) && !NeedsDates(db.profiles[p].config, sub)
      requires row == Fresh(sub.tenant, sub.env, p, db.profiles[p].config, sub.request, sub.number, now, db.threshold)
      modifies db
      ensures Reaches(Next, old(db.S()), mid) && v == Judge(mid, sub, true, id, now)
      ensures Enabled(mid, Submit(sub, true, id, now)) && db.S() == Apply(mid, Submit(sub, true, id, now))
      ensures Reachable(db.S()) && Reaches(Next, old(db.S()), db.S())
    {
      ghost var s := db.S();
      db.IdleHolding(p);
      LockHeld(s, db.S(), p);
      mid := db.S();
      NewNumber(db.rows.Keys);
      var newId: nat :| newId !in db.rows;
      id := newId;
      v := Store(row, sub, p, newId, now);
      Followed(s, mid, Submit(sub, true, id, now), db.S());
    }

    /** The commit of a new row. */
    method Store(row: Row, sub: Submission, p: nat, id: nat, now: int) returns (v: Verdict)
      requires Reachable(db.S()) && id !in db.rows && sub.entitled && p in db.profiles && Usable(db.profiles[p], sub)
      requires !NeedsProducts(db.profiles[p].config, sub) && !NeedsDates(db.profiles[p].config, sub)
      requires row == Fresh(sub.tenant, sub.env, p, db.profiles[p].config, sub.request, sub.number, now, db.threshold)
      modifies db`rows
      ensures v == Judge(old(db.S()), sub, true, id, now)
      ensures db.rows == Submitted(old(db.S()), sub, true, id, now)
    {
      v := Constrain(row, sub, p, id, now);
      JudgeRaced(db.S(), sub, p, id, now);
      if v.Insert? { db.rows := db.rows[id := row]; }
    }

    /** The unique constraints have the last word; their violations are told apart afterwards. */
    method Constrain(row: Row, sub: Submission, p: nat, id: nat, now: int) returns (v: Verdict)
      requires Reachable(db.S()) && id !in db.rows && p in db.profiles
      requires !NeedsProducts(db.profiles[p].config, sub) && !NeedsDates(db.profiles[p].config, sub)
      requires row == Fresh(sub.tenant, sub.env, p, db.profiles[p].config, sub.request, sub.number, now, db.threshold)
      ensures v == JudgeNew(db.S(), p, sub, id, now) && (v.Insert? ==> v.row == row) && !v.Complete?
    {
      var e := FindExisting(sub);
      if e.Some? {
        return if db.rows[e.value].hash != row.hash then Refuse(IdempotencyConflict) else Stored(e.value);
      }
      var invoiced := SaleInvoiced(sub);
      if invoiced { return Refuse(SaleAlreadyInvoiced); }
      var k := row.Key();
      if j :| j in db.rows && j != id && row.number.Some? && db.rows[j].Key() == k && db.rows[j].number == row.number {
        return Refuse(FiscalReferenceConflict);
      }
      return Insert(row);
    }

    /** The stored request is completed with the receiver and released. */
    method Complete(e: nat, sub: Submission, ghost id: nat, now: int, ghost v: Verdict)
      requires Reachable(db.S()) && e in db.rows && sub.number.Some?
      requires v == Judge(db.S(), sub, false, id, now)
        && v == Verdict.Complete(e, sub.request.receiver, sub.number.value)
      modifies db`rows
      ensures db.rows == Submitted(old(db.S()), sub, false, id, now)
    {
      var row := db.rows[e];
      var resumed := row.request.(receiver := sub.request.receiver);
      row := row.(hash := Fingerprint(row.env, sub.number, resumed), request := resumed,
                  receiver := sub.request.receiver, number := sub.number, explicit := true,
                  status := Pending, nextRetry := Some(now), error := None);
      db.rows := db.rows[e := row];
    }
  }

  predicate Usable(p: Profile, sub: Submission) {
    p.tenant == sub.tenant && p.env == sub.env && p.validation == Valid
  }

  lemma JudgeRaced(s: State, sub: Submission, p: nat, id: nat, now: int)
    requires Reachable(s) && sub.entitled && p in s.profiles && Usable(s.profiles[p], sub)
    ensures Judge(s, sub, true, id, now) == JudgeNew(s, p, sub, id, now)
  {
    ReachableInv(s);
    FoundProfile(s, sub.tenant, sub.env, p);
  }

  lemma Followed(s0: State, s: State, st: Step, t: State)
    requires Reaches(Next, s0, s) && Reachable(s) && Next(s, st, t)
    ensures Reaches(Next, s0, t) && Reachable(t)
  {
    ReachesThen(Next, s0, s, st, t);
    ReachableNext(s, st, t);
  }

  /** What the profile operations answer. */
  datatype ProfileReply =
    | Saved | Tried(valid: bool) | FeatureDenied | ProfileMissing | InvalidCredentials | KeyringUnavailable
    | PendingInvoices

  /** An invoice of the profile that is not finished. */
  predicate OpenInvoice(r: Row, p: nat) {
    r.profileId == p && r.status in {Pending, Processing, Retrying, ReceiverRequired, ServiceDatesRequired}
  }

  predicate InUse(s: State, p: nat) {
    exists id :: id in s.rows && OpenInvoice(s.rows[id], p)
  }

  /** The profile of the tenant and environment, deleted or not. */
  predicate OwnProfile(profiles: map<nat, Profile>, p: nat, tenant: string, env: Environment) {
    p in profiles && profiles[p].tenant == tenant && profiles[p].env == env
  }

  /** One profile is the new one, waiting for its validation; all others are as before. */
  ghost predicate SavedAs(before: map<nat, Profile>, after: map<nat, Profile>, tenant: string, env: Environment,
                          config: Config) {
    exists q ::
      && OwnProfile(after, q, tenant, env) && after[q].config == config && after[q].validation == NotValidated
      && after.Keys == before.Keys + {q}
      && forall other :: other in before && other != q ==> after[other] == before[other]
  }

  lemma PutProfile(profiles: map<nat, Profile>, q: nat, p: Profile)
    requires p.validation == NotValidated
    ensures SavedAs(profiles, profiles[q := p], p.tenant, p.env, p.config)
  {
    assert OwnProfile(profiles[q := p], q, p.tenant, p.env);
  }

  /** The profile is in use exactly when one of its invoices is not finished. */
  lemma UseFound(s: State, tenant: string, env: Environment)
    requires UniqueProfiles(s)
    ensures HasProfile(s, tenant, env) && HasOpenInvoice(s.rows, FindProfile(s, tenant, env)) <==>
      exists q :: OwnProfile(s.profiles, q, tenant, env) && InUse(s, q)
  {
    if HasProfile(s, tenant, env) {
      var p := FindProfile(s, tenant, env);
      assert OwnProfile(s.profiles, p, tenant, env);
      assert InUse(s, p) <==> HasOpenInvoice(s.rows, p);
    }
  }

  /** Saving replaces the tenant's profile, or adds one, unless it is in use. */
  lemma SaveOutcome(s: State, tenant: string, env: Environment, config: Config, newId: nat)
    requires UniqueProfiles(s)
    ensures if exists q :: OwnProfile(s.profiles, q, tenant, env) && InUse(s, q)
            then ProfileSaved(s, tenant, env, config, newId) == s.profiles
            else SavedAs(s.profiles, ProfileSaved(s, tenant, env, config, newId), tenant, env, config)
  {
    UseFound(s, tenant, env);
    if HasProfile(s, tenant, env) {
      var p := FindProfile(s, tenant, env);
      PutProfile(s.profiles, p, Profile(tenant, env, config, NotValidated, s.profiles[p].revision + 1));
    } else {
      PutProfile(s.profiles, newId, Profile(tenant, env, config, NotValidated, 0));
    }
  }

  class FiscalProfileService {
    const db: Platform

    constructor (db: Platform)
      ensures this.db == db
    {
      this.db := db;
    }

    /** Is there an open invoice of this profile? */
    method CheckUse(p: nat) returns (used: bool)
      ensures used <==> HasOpenInvoice(db.rows, p)
      ensures used <==> InUse(db.S(), p)
    {
      if id :| id in db.rows && db.rows[id].profileId == p && db.rows[id].status.NonTerminal() { return true; }
      return false;
    }

    /**
     Creates or replaces a profile, unless the tenant's plan denies the feature, its
     credentials are unacceptable or cannot be encrypted, or open invoices still use it.
     */
    method Upsert(tenant: string, env: Environment, config: Config, entitled: bool, acceptable: bool, keyring: bool)
      returns (reply: ProfileReply, ghost p: nat)
      requires Reachable(db.S())
      modifies db`profiles
      ensures Enabled(old(db.S()), SaveProfile(tenant, env, config, p))
      ensures reply.Saved? ==> db.S() == Apply(old(db.S()), SaveProfile(tenant, env, config, p))
      ensures !reply.Saved? ==> unchanged(db)
      ensures reply.Saved? ==> SavedAs(old(db.profiles), db.profiles, tenant, env, config)
      ensures reply ==
        if !entitled then FeatureDenied else if !acceptable then InvalidCredentials
        else if !keyring then KeyringUnavailable
        else if exists q :: OwnProfile(old(db.profiles), q, tenant, env) && InUse(old(db.S()), q) then PendingInvoices
        else Saved
    {
      NewNumber(db.profiles.Keys);
      var newId: nat :| newId !in db.profiles;
      p := newId;
      if !entitled { return FeatureDenied, p; }
      if !acceptable { return InvalidCredentials, p; }
      if !keyring { return KeyringUnavailable, p; }
      ReachableInv(db.S());
      UseFound(db.S(), tenant, env);
      SaveOutcome(db.S(), tenant, env, config, newId);
      reply := Write(tenant, env, config, newId);
    }

    method Write(tenant: string, env: Environment, config: Config, newId: nat) returns (reply: ProfileReply)
      requires Reachable(db.S()) && newId !in db.profiles
      modifies db`profiles
      ensures db.S() == Apply(old(db.S()), SaveProfile(tenant, env, config, newId))
      ensures reply ==
        if HasProfile(old(db.S()), tenant, env) && HasOpenInvoice(db.rows, FindProfile(old(db.S()), tenant, env))
          then PendingInvoices
        else Saved
      ensures !reply.Saved? ==> unchanged(db)
    {
      ReachableInv(db.S());
      if q :| q in db.profiles && db.profiles[q].tenant == tenant && db.profiles[q].env == env {
        FoundProfile(db.S(), tenant, env, q);
        var used := CheckUse(q);
        if used { return PendingInvoices; }
        db.profiles := db.profiles[q := Profile(tenant, env, config, NotValidated, db.profiles[q].revision + 1)];
      } else {
        assert !HasProfile(db.S(), tenant, env);
        db.profiles := db.profiles[newId := Profile(tenant, env, config, NotValidated, 0)];
      }
      return Saved;
    }

    /** Marks a profile deleted, unless open invoices still use it. */
    method Delete(tenant: string, env: Environment) returns (deleted: bool)
      requires Reachable(db.S())
      modifies db`profiles
      ensures db.S() == Apply(old(db.S()), DeleteProfile(tenant, env))
      ensures deleted <==>
        exists q ::
          && OwnProfile(old(db.profiles), q, tenant, env) && old(db.profiles)[q].validation != Deleted
          && !InUse(old(db.S()), q)
          && db.profiles == old(db.profiles)[q :=
               old(db.profiles)[q].(validation := Deleted, revision := old(db.profiles)[q].revision + 1)]
      ensures !deleted ==> unchanged(db)
    {
      var found := Find(db, tenant, env);
      if found.None? { return false; }
      var p := found.value;
      var used := CheckUse(p);
      if used { return false; }
      db.profiles := db.profiles[p := db.profiles[p].(validation := Deleted, revision := db.profiles[p].revision + 1)];
      return true;
    }

    /**
     Tries the profile against the authority and records the outcome, which is that of the
     call; a profile whose credentials cannot be opened is not tried. The profile is not
     locked during the call, so the outcome may land on a profile changed meanwhile.
     */
    method Validate(tenant: string, env: Environment, entitled: bool, readable: bool)
      returns (reply: ProfileReply, ghost mid: State)
      requires Reachable(db.S())
      modifies db
      ensures reply.Tried? <==> entitled && HasLiveProfile(old(db.S()), tenant, env) && readable
      ensures !reply.Tried? ==>
        && db.S() == old(db.S())
        && reply == if !entitled then FeatureDenied
                    else if !HasLiveProfile(old(db.S()), tenant, env) then ProfileMissing
                    else KeyringUnavailable
      ensures reply.Tried? ==>
        var s, p, trial := old(db.S()), FindProfile(old(db.S()), tenant, env), |old(db.trials)|;
        && reply.valid == !db.trouble(old(db.asked)).Fails?
        && Enabled(s, BeginValidation(p)) && Reaches(OthersThanTrial(trial), Apply(s, BeginValidation(p)), mid)
        && Next(mid, FinishValidation(trial, reply.valid), db.S())
    {
      mid := db.S();
      if !entitled { return FeatureDenied, mid; }
      var found := Find(db, tenant, env);
      if found.None? { return ProfileMissing, mid; }
      if !readable { return KeyringUnavailable, mid; }
      reply, mid := Try(found.value);
    }

    /** The profile is read, tried without a lock, and its outcome written. */
    method Try(p: nat) returns (reply: ProfileReply, ghost mid: State)
      requires Reachable(db.S()) && p in db.profiles && db.profiles[p].validation != Deleted
      modifies db
      ensures reply == Tried(!db.trouble(old(db.asked)).Fails?)
      ensures Reaches(OthersThanTrial(|old(db.trials)|), Apply(old(db.S()), BeginValidation(p)), mid)
      ensures Next(mid, FinishValidation(|old(db.trials)|, reply.valid), db.S())
    {
      ghost var s := db.S();
      var trial, read := |db.trials|, db.profiles[p].validation;
      db.trials := db.trials + [Trial(p, read, db.profiles[p].revision, true)];
      ReachableNext(s, BeginValidation(p), db.S());
      ghost var begun := db.S();
      db.IdleTrying(trial);
      TrialStays(begun, db.S(), trial);
      mid := db.S();
      var answer := db.Ask();
      var outcome := if answer.Fails? then Invalid else Valid;
      db.trials := db.trials[trial := Trial(p, read, db.trials[trial].revision, false)];
      if outcome != read { db.profiles := db.profiles[p := db.profiles[p].(validation := outcome)]; }
      return Tried(!answer.Fails?), mid;
    }
  }
}
