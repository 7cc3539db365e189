/**
 Concrete runs of the invoice machine showing that properties one might expect of it fail:
 progress of a sequence, freedom from conflicts of automatic rows, that an approved row's
 voucher is its own, that a completion can be repeated, and that a deleted profile stays
 deleted. When each holds is stated exactly, for all runs, elsewhere.
 */
module InvoiceWitness {
  import opened Common
  import opened Traces
  import opened Vat
  import opened Invoice
  import opened InvoiceMachine
  import opened InvoiceInvariant
  import opened InvoiceSafety
  import opened InvoiceNumbering
  import opened InvoiceProgress
  import opened InvoiceLifecycle
  import opened InvoiceProfiles

  const TENANT := "tenant"
  const CONFIG := Config("20111111112", 1, 6, 1, 2100, 5)
  const PROFILE := Profile(TENANT, Development, CONFIG, Valid, 0)
  const KEY := Sequence(Development, CONFIG.cuit, CONFIG.pointOfSale, CONFIG.voucherType)
  const RECEIVER := Receiver(80, "20333333334", 5)

  /** A request of one line from an identified receiver. */
  predicate Plain(sub: Submission, externalId: string, number: Option<nat>) {
    && sub.tenant == TENANT && sub.env == Development && sub.number == number && !sub.automatic && sub.entitled
    && sub.request.externalId == externalId && sub.request.sale.None? && sub.request.receiver == RECEIVER
    && |sub.request.lines| == 1
  }

  /** The service has just started with one validated profile; the authority's last number is `last`. */
  ghost predicate InService(s: State, last: nat) {
    && s.base == map[KEY := last] && s.last == s.base
    && s.profiles == map[0 := PROFILE]
    && s.rows == map[] && s.jobs == map[] && s.sent == {} && s.calls == []
    && (forall k, n :: (k, n) in s.vouchers <==> 1 <= n <= s.Base(k))
    && (forall v :: v in s.vouchers ==> s.vouchers[v].owner == None)
  }

  lemma Do(s: State, st: Step) returns (t: State)
    requires Reachable(s) && Enabled(s, st)
    ensures Reachable(t) && t == Apply(s, st)
  {
    t := Apply(s, st);
    ReachableNext(s, st, t);
  }

  lemma Start(threshold: int, last: nat, vouchers: map<(Sequence, nat), Voucher>) returns (s: State)
    requires forall k, n :: (k, n) in vouchers <==> k == KEY && 1 <= n <= last
    requires forall v :: v in vouchers ==> vouchers[v].owner == None
    ensures Reachable(s) && InService(s, last) && s.vouchers == vouchers && s.threshold == threshold
  {
    var s0 := State(threshold, map[KEY := last], map[], map[], map[], map[KEY := last], vouchers, {}, [], []);
    ReachesSelf(Next, s0);
    assert Init(s0);
    s := Do(s0, SaveProfile(TENANT, Development, CONFIG, 0));
    s := Do(s, BeginValidation(0));
    s := Do(s, FinishValidation(0, true));
  }

  /** A row waiting for its first attempt, which its profile permits. */
  ghost predicate Waiting(s: State, r: Row, externalId: string, number: Option<nat>) {
    && r.status.Pending? && r.attempts == 0 && r.number == number && r.explicit == number.Some?
    && r.Key() == KEY && r.externalId == externalId && r.cae.None? && ProfileProblem(s, r).None?
  }

  lemma SomePlain(externalId: string, number: Option<nat>) returns (sub: Submission)
    ensures Plain(sub, externalId, number)
  {
    var line := Line("item", 10_000, 12_100);
    var request := Request(externalId, None, None, RECEIVER, 0, None, [line]);
    sub := Submission(TENANT, Development, request, number, false, true);
  }

  ghost function RowFor(sub: Submission): Row {
    Fresh(TENANT, Development, 0, CONFIG, sub.request, sub.number, 0, 1)
  }

  lemma PlainWaits(s: State, sub: Submission, externalId: string, number: Option<nat>)
    requires Plain(sub, externalId, number)
    requires s.profiles == map[0 := PROFILE]
    ensures Waiting(s, RowFor(sub), externalId, number)
  {
  }

  /** A fresh request is accepted as it stands. */
  lemma PlainAccepted(s: State, sub: Submission, externalId: string, number: Option<nat>, id: nat)
    requires Reachable(s) && s.threshold == 1 && Plain(sub, externalId, number)
    requires s.profiles == map[0 := PROFILE]
    requires forall j :: j in s.rows ==>
      s.rows[j].externalId != externalId && (number.Some? ==> s.rows[j].number != number)
    ensures Judge(s, sub, false, id, 0) == Insert(RowFor(sub))
  {
    ReachableInv(s);
    assert !ExternalTaken(s.rows, TENANT, externalId);
    NewAccepted(s, sub, 0, id, 0);
  }

  lemma Accepted(s: State, externalId: string, number: Option<nat>, id: nat) returns (sub: Submission, r: Row)
    requires Reachable(s) && s.threshold == 1
    requires s.profiles == map[0 := PROFILE]
    requires forall j :: j in s.rows ==>
      s.rows[j].externalId != externalId && (number.Some? ==> s.rows[j].number != number)
    ensures sub.number == number && Judge(s, sub, false, id, 0) == Insert(r) && Waiting(s, r, externalId, number)
  {
    sub := SomePlain(externalId, number);
    PlainWaits(s, sub, externalId, number);
    PlainAccepted(s, sub, externalId, number, id);
    r := RowFor(sub);
  }

  lemma Submitting(s: State, sub: Submission, id: nat, r: Row) returns (t: State)
    requires Reachable(s) && id !in s.rows && (sub.number.Some? ==> sub.number.value > 0)
    requires Judge(s, sub, false, id, 0) == Insert(r)
    ensures Reachable(t) && t == s.(rows := s.rows[id := r])
  {
    t := Do(s, Submit(sub, false, id, 0));
  }

  /** The first attempt of a row reaches the question for the last number. */
  lemma FirstAttempt(s: State, id: nat, r: Row) returns (t: State)
    requires Reachable(s) && id in s.rows && s.rows[id] == r && id !in s.jobs
    requires r.status.Pending? && r.attempts == 0 && ProfileProblem(s, r).None?
    ensures Reachable(t)
    ensures t == s.(rows := s.rows[id := Claimed(r, 60)], jobs := s.jobs[id := Sequencing])
  {
    var a := Do(s, Step.Work(id, Act.Claim(60)));
    assert a == s.(rows := s.rows[id := Claimed(r, 60)], jobs := s.jobs[id := Started]);
    t := Do(a, Step.Work(id, SkipLookup));
    assert t.rows == s.rows[id := Claimed(r, 60)] && t.jobs == s.jobs[id := Sequencing];
  }

  lemma Asked(s: State, id: nat, n: nat) returns (t: State)
    requires Reachable(s) && id in s.rows && id in s.jobs && s.jobs[id] == Sequencing
    requires n == s.Last(s.rows[id].Key()) + 1
    ensures Reachable(t) && t == s.(jobs := s.jobs[id := Numbering(n)])
  {
    t := Do(s, Step.Work(id, AskLast));
    assert s.rows[id := s.rows[id]] == s.rows;
  }

  lemma Queried(s: State, id: nat, n: nat) returns (t: State)
    requires Reachable(s) && id in s.rows && id in s.jobs && s.jobs[id] == Numbering(n) && s.rows[id].number.None?
    requires !NumberTaken(s.rows, id, s.rows[id].Key(), n)
    ensures Reachable(t) && t == s.(jobs := s.jobs[id := Reserving(n)])
  {
    assert !NumberBusy(s.rows, id, s.rows[id].Key(), n);
    t := Do(s, Step.Work(id, QueryHolder));
    assert s.rows[id := s.rows[id]] == s.rows;
  }

  lemma Committed(s: State, id: nat, n: nat) returns (t: State)
    requires Reachable(s) && id in s.rows && id in s.jobs && s.jobs[id] == Reserving(n)
    requires !NumberTaken(s.rows, id, s.rows[id].Key(), n)
    ensures Reachable(t)
    ensures t == s.(rows := s.rows[id := s.rows[id].(number := Some(n))], jobs := s.jobs[id := Sending])
  {
    t := Do(s, Step.Work(id, CommitNumber));
  }

  lemma SentOut(s: State, id: nat, n: nat) returns (t: State)
    requires Reachable(s) && id in s.rows && id in s.jobs && s.jobs[id] == Sending && s.rows[id].number == Some(n)
    ensures Reachable(t)
    ensures t == s.(jobs := s.jobs[id := Awaiting(|s.calls|)], sent := s.sent + {(id, n)},
                    calls := s.calls + [Call(id, n, true)])
  {
    t := Do(s, Step.Work(id, Send));
    assert s.rows[id := s.rows[id]] == s.rows;
  }

  /** An automatic row reserves the next number and submits it. */
  lemma ReserveAndSend(s: State, id: nat, r: Row, n: nat) returns (t: State)
    requires Reachable(s) && id in s.rows && s.rows[id] == r && id in s.jobs && s.jobs[id] == Sequencing
    requires r.number.None? && n == s.Last(r.Key()) + 1 && !NumberTaken(s.rows, id, r.Key(), n)
    ensures Reachable(t)
    ensures t == s.(rows := s.rows[id := r.(number := Some(n))], jobs := s.jobs[id := Awaiting(|s.calls|)],
                    sent := s.sent + {(id, n)}, calls := s.calls + [Call(id, n, true)])
  {
    t := Asked(s, id, n);
    t := Queried(t, id, n);
    t := Committed(t, id, n);
    t := SentOut(t, id, n);
    assert t.jobs == s.jobs[id := Awaiting(|s.calls|)];
  }

  lemma TimedOut(s: State, id: nat) returns (t: State)
    requires Reachable(s) && id in s.rows && id in s.jobs && !s.jobs[id].Started?
    ensures Reachable(t)
    ensures t == s.(rows := s.rows[id := HandledError(s.rows[id], ArcaTimeout, 0)], jobs := s.jobs - {id})
  {
    t := Do(s, Step.Work(id, Fault(ArcaTimeout, 0)));
  }

  lemma Mismatched(s: State, id: nat) returns (t: State)
    requires Reachable(s) && id in s.rows && id in s.jobs && s.jobs[id].Numbering?
    requires s.rows[id].number.Some? && s.rows[id].number.value != s.jobs[id].expected
    ensures Reachable(t)
    ensures t == s.(rows := s.rows[id := FinishedWith(s.rows[id], CorrelativeConflict)], jobs := s.jobs - {id})
  {
    t := Do(s, Step.Work(id, Compare));
  }

  lemma Conflicted(s: State, id: nat) returns (t: State)
    requires Reachable(s) && id in s.rows && id in s.jobs && s.jobs[id] == Sequencing
    requires s.rows[id].number.Some? && s.rows[id].number.value != s.Last(s.rows[id].Key()) + 1
    ensures Reachable(t)
    ensures t == s.(rows := s.rows[id := FinishedWith(s.rows[id], CorrelativeConflict)], jobs := s.jobs - {id})
  {
    t := Asked(s, id, s.Last(s.rows[id].Key()) + 1);
    t := Mismatched(t, id);
  }

  /** The authority acts on a call by issuing the voucher. */
  lemma Issued(s: State, call: nat, id: nat, n: nat) returns (t: State)
    requires Reachable(s) && id in s.rows && n == s.Last(s.rows[id].Key()) + 1
    requires call < |s.calls| && s.calls[call] == Call(id, n, true)
    ensures Reachable(t)
    ensures var k := s.rows[id].Key();
      t == s.(last := s.last[k := n], vouchers := s.vouchers[(k, n) := Voucher(Some(id), "cae")],
              calls := s.calls[call := Call(id, n, false)])
  {
    t := Do(s, Deliver(call, id, n, "cae"));
  }

  /** The authority acts on a call by refusing it. */
  lemma TurnedDown(s: State, call: nat) returns (t: State)
    requires Reachable(s) && s.Pending(call)
    ensures Reachable(t) && t == s.(calls := s.calls[call := s.calls[call].(open := false)])
  {
    t := Do(s, TurnDown(call));
  }

  lemma AnsweredWithoutCae(s: State, call: nat, id: nat) returns (t: State)
    requires Reachable(s) && id in s.rows && id in s.jobs && s.jobs[id] == Awaiting(call) && !s.Pending(call)
    ensures Reachable(t)
    ensures t == s.(rows := s.rows[id := FinishedWith(s.rows[id], ArcaRejected)], jobs := s.jobs - {id})
  {
    t := Do(s, Step.Work(id, AnswerWithoutCae));
  }

  lemma Reclaimed(s: State, id: nat) returns (t: State)
    requires Reachable(s) && id in s.rows && id !in s.jobs && s.rows[id].status.Active()
      && ProfileProblem(s, s.rows[id]).None?
    ensures Reachable(t)
    ensures t == s.(rows := s.rows[id := Claimed(s.rows[id], 60)], jobs := s.jobs[id := Started])
  {
    t := Do(s, Step.Work(id, Act.Claim(60)));
  }

  /** A new request joins the table and its first attempt gets to the last number. */
  lemma Begun(s: State, externalId: string, number: Option<nat>, id: nat) returns (t: State, r: Row)
    requires Reachable(s) && s.threshold == 1 && id !in s.rows && id !in s.jobs && (number.Some? ==> number.value > 0)
    requires s.profiles == map[0 := PROFILE]
    requires forall j :: j in s.rows ==>
      s.rows[j].externalId != externalId && (number.Some? ==> s.rows[j].number != number)
    ensures Reachable(t) && t == s.(rows := s.rows[id := r], jobs := s.jobs[id := Sequencing])
    ensures r.status.Processing? && r.attempts == 1 && r.number == number && r.explicit == number.Some?
    ensures r.Key() == KEY && r.externalId == externalId && r.cae.None? && ProfileProblem(s, r).None?
  {
    var sub, inserted := Accepted(s, externalId, number, id);
    t := Submitting(s, sub, id, inserted);
    t := FirstAttempt(t, id, inserted);
    r := Claimed(inserted, 60);
    assert s.rows[id := inserted][id := r] == s.rows[id := r];
  }

  /** An explicit request for number 2 is rejected while the last number is 0. */
  lemma AheadOfTurn() returns (s: State, r: Row)
    ensures Reachable(s) && s.calls == [] && s.jobs == map[] && s.threshold == 1 && s.last == map[KEY := 0]
    ensures s.profiles == map[0 := PROFILE]
    ensures s.rows == map[0 := r] && r.status.Rejected? && r.number == Some(2) && r.externalId == "ahead"
      && r.Key() == KEY
  {
    s := Start(1, 0, map[]);
    s, r := Begun(s, "ahead", Some(2), 0);
    s := Conflicted(s, 0);
    r := s.rows[0];
    assert s.rows == map[0 := r] && s.jobs == map[];
  }

  /** An automatic request is issued as number 1 beside it. */
  lemma SequenceArrives(s: State, ahead: Row) returns (t: State)
    requires Reachable(s) && s.calls == [] && s.jobs == map[] && s.threshold == 1 && s.last == map[KEY := 0]
    requires s.profiles == map[0 := PROFILE]
    requires s.rows == map[0 := ahead] && ahead.number == Some(2) && ahead.externalId == "ahead" && ahead.Key() == KEY
    ensures Reachable(t) && t.calls == [Call(1, 1, false)] && 0 in t.rows && t.rows[0] == ahead && t.Last(KEY) == 1
  {
    var r: Row;
    t, r := Begun(s, "next", None, 1);
    t := ReserveAndSend(t, 1, r, 1);
    t := Issued(t, 0, 1, 1);
    assert t.calls == [Call(1, 1, false)];
  }

  /**
   An explicit request one ahead of its turn is rejected; once the sequence reaches it,
   the sequence can never advance again.
   */
  lemma ProgressFails()
    ensures exists s: State, id: nat :: Reachable(s) && HoldsNext(s, id) && !CanAdvance(s, KEY)
  {
    var s, r := AheadOfTurn();
    s := SequenceArrives(s, r);
    assert HoldsNext(s, 0) && s.rows[0].Key() == KEY;
    StuckForGood(s, 0, KEY);
  }

  /** A state with one row and no worker on it, whose number 1 has been submitted. */
  ghost predicate OneSent(s: State, r: Row, last: nat) {
    && Reachable(s) && s.calls == [Call(0, 1, last == 0)] && s.last == map[KEY := last] && s.rows == map[0 := r]
    && ProfileProblem(s, r).None? && ((KEY, 1) in s.vouchers <==> last == 1)
    && r.Key() == KEY && r.number == Some(1) && !r.explicit
  }

  lemma FirstSending() returns (s: State, r: Row)
    ensures OneSent(s, r, 0) && r.status.Processing? && r.attempts == 1 && s.jobs == map[0 := Awaiting(0)]
  {
    var s0 := Start(1, 0, map[]);
    s, r := Begun(s0, "auto", None, 0);
    s := ReserveAndSend(s, 0, r, 1);
    r := r.(number := Some(1));
    assert s.rows == map[0 := r] && s.jobs == map[0 := Awaiting(0)] && s.calls == [Call(0, 1, true)];
  }

  /** A row at rest that the authority refused. */
  predicate Refused(s: State, id: nat) {
    && id in s.rows && s.jobs == map[] && !s.rows[id].explicit
    && s.rows[id].status.Rejected? && s.rows[id].error == Some(ArcaRejected)
  }

  /**
   An automatic request that the authority refuses keeps the number it reserved, which the
   sequence can then never pass.
   */
  lemma RefusedRowBlocks()
    ensures exists s: State, id: nat :: Reachable(s) && Refused(s, id) && HoldsNext(s, id) && !CanAdvance(s, KEY)
  {
    var s, r := FirstSending();
    s := TurnedDown(s, 0);
    s := AnsweredWithoutCae(s, 0, 0);
    assert Refused(s, 0) && HoldsNext(s, 0) && s.rows[0].Key() == KEY;
    StuckForGood(s, 0, KEY);
  }

  /** An automatic request is submitted as number 1 and its answer is lost. */
  lemma AnswerLost() returns (s: State, r: Row)
    ensures OneSent(s, r, 0) && r.status.Retrying? && r.attempts == 1 && s.jobs == map[]
  {
    s, r := FirstSending();
    s := TimedOut(s, 0);
    r := HandledError(r, ArcaTimeout, 0);
    assert s.rows == map[0 := r] && s.jobs == map[];
  }

  /** The retry looks number 1 up and is told it is missing. */
  lemma RetryLooksUp() returns (s: State, r: Row)
    ensures OneSent(s, r, 0) && s.jobs == map[0 := Sequencing]
  {
    s, r := AnswerLost();
    s := Reclaimed(s, 0);
    s := LookedUpMissing(s, 0);
    r := Claimed(r, 60);
    assert s.rows == map[0 := r] && s.jobs == map[0 := Sequencing];
  }

  /** Only then does the first call take effect. */
  lemma LateDelivery() returns (s: State, r: Row)
    ensures OneSent(s, r, 1) && s.jobs == map[0 := Sequencing] && s.vouchers[(KEY, 1)].owner == Some(0)
  {
    s, r := RetryLooksUp();
    s := Issued(s, 0, 0, 1);
  }

  /** A call that takes effect late makes an automatic row conflict with its own voucher. */
  lemma AutomaticConflict()
    ensures exists s: State, id: nat ::
      Reachable(s) && id in s.rows && !s.rows[id].explicit && s.rows[id].status.Rejected?
      && s.rows[id].error == Some(CorrelativeConflict) && IssuedToItself(s, id)
  {
    var s, r := LateDelivery();
    s := Conflicted(s, 0);
    assert IssuedToItself(s, 0);
  }

  lemma LookedUpMissing(s: State, id: nat) returns (t: State)
    requires Reachable(s) && id in s.rows && id in s.jobs && LooksUp(s.rows[id], s.jobs[id])
    requires (s.rows[id].Key(), s.rows[id].number.value) !in s.vouchers
    ensures Reachable(t) && t == s.(jobs := s.jobs[id := Sequencing])
  {
    t := Do(s, Step.Work(id, LookupMissing));
    assert s.rows[id := s.rows[id]] == s.rows;
  }

  lemma Adopted(s: State, id: nat) returns (t: State)
    requires Reachable(s) && id in s.rows && id in s.jobs && LooksUp(s.rows[id], s.jobs[id])
    requires (s.rows[id].Key(), s.rows[id].number.value) in s.vouchers
    ensures Reachable(t)
    ensures var cae := s.vouchers[(s.rows[id].Key(), s.rows[id].number.value)].cae;
      t == s.(rows := s.rows[id := ApprovedWith(s.rows[id], cae)], jobs := s.jobs - {id})
  {
    t := Do(s, Step.Work(id, LookupFound));
  }

  /** A retried explicit request whose number was already used adopts someone else's voucher. */
  lemma ForeignVoucherAdopted()
    ensures exists s: State, id: nat ::
      Reachable(s) && id in s.rows && s.rows[id].status.Approved? && s.rows[id].cae == Some("foreign")
      && !IssuedToItself(s, id)
  {
    var s0 := Start(1, 1, map[(KEY, 1) := Voucher(None, "foreign")]);
    var s, r := Begun(s0, "used", Some(1), 0);
    s := TimedOut(s, 0);
    s := Reclaimed(s, 0);
    s := Adopted(s, 0);
    assert s.vouchers == s0.vouchers && !IssuedToItself(s, 0);
  }

  /** A request of one line from the anonymous consumer. */
  predicate Anonymous(sub: Submission) {
    && sub.tenant == TENANT && sub.env == Development && sub.number.None? && !sub.automatic && sub.entitled
    && sub.request.externalId == "sale" && sub.request.sale.None? && sub.request.receiver == Receiver(99, "0", 5)
    && |sub.request.lines| == 1
  }

  lemma SomeAnonymous() returns (sub: Submission)
    ensures Anonymous(sub)
  {
    var line := Line("item", 10_000, 12_100);
    var request := Request("sale", None, None, Receiver(99, "0", 5), 0, None, [line]);
    sub := Submission(TENANT, Development, request, None, false, true);
  }

  /** The anonymous request, whose total is the threshold, waits for its receiver. */
  lemma ReceiverMissing() returns (s: State, sub: Submission)
    ensures Reachable(s) && Anonymous(sub) && 0 in s.rows && s.rows.Keys == {0}
    ensures s.profiles == map[0 := PROFILE]
    ensures var r := s.rows[0];
      r.status.ReceiverRequired? && r.request == sub.request && r.tenant == TENANT && r.externalId == "sale"
  {
    sub := SomeAnonymous();
    var s0 := Start(AmountsOf(sub.request.lines, CONFIG.vatRate).total, 0, map[]);
    ReachableInv(s0);
    NewAccepted(s0, sub, 0, 0, 0);
    var r := Fresh(sub.tenant, sub.env, 0, CONFIG, sub.request, None, 0, s0.threshold);
    s := Submitting(s0, sub, 0, r);
  }

  /** The completion of that request that also doubles its lines. */
  function Doubled(sub: Submission): Submission {
    var request := sub.request.(receiver := RECEIVER, lines := sub.request.lines + sub.request.lines);
    sub.(request := request, number := Some(1))
  }

  lemma CompletionAccepted(s: State, sub: Submission)
    requires Inv(s) && Anonymous(sub) && 0 in s.rows && s.rows.Keys == {0}
    requires s.profiles == map[0 := PROFILE]
    requires var r := s.rows[0];
      r.status.ReceiverRequired? && r.request == sub.request && r.tenant == TENANT && r.externalId == "sale"
    ensures Submittable(s, Doubled(sub), 0) && Judge(s, Doubled(sub), false, 1, 0) == Verdict.Complete(0, RECEIVER, 1)
  {
    assert 0 in s.profiles && HasProfile(s, TENANT, Development);
    assert FindProfile(s, TENANT, Development) == 0;
    ExternalIsUnique(s, Doubled(sub), 0);
    assert forall j :: j in s.rows ==> j in s.rows.Keys;
  }

  lemma RefusedAgain(s: State, c: Submission, id: nat, newId: nat) returns (t: State)
    requires Reachable(s) && Submittable(s, c, id) && newId !in s.rows && (c.number.Some? ==> c.number.value > 0)
    requires Judge(s, c, false, newId, 0).Complete? && c.request.lines != s.rows[id].request.lines
    ensures Next(s, Submit(c, false, newId, 0), t) && Judge(t, c, false, newId, 0) == Refuse(IdempotencyConflict)
  {
    t := Do(s, Submit(c, false, newId, 0));
    ResumeThenReplay(s, c, newId, 0, id, t);
  }

  /** A completion that also changes the lines is accepted, and refused as a conflict when repeated. */
  lemma CompletionRefusedWhenRepeated()
    ensures exists s: State, sub: Submission, t: State ::
      && Reachable(s) && Judge(s, sub, false, 1, 0).Complete? && Next(s, Submit(sub, false, 1, 0), t)
      && Judge(t, sub, false, 1, 0) == Refuse(IdempotencyConflict)
  {
    var s, sub := ReceiverMissing();
    ReachableInv(s);
    CompletionAccepted(s, sub);
    assert |Doubled(sub).request.lines| != |sub.request.lines|;
    var t := RefusedAgain(s, Doubled(sub), 0, 1);
  }

  const UNVALIDATED := PROFILE.(validation := NotValidated)

  ghost function AtStart(): State {
    State(1, map[], map[], map[], map[], map[], map[], {}, [], [])
  }

  ghost function Saved(): State { AtStart().(profiles := map[0 := UNVALIDATED]) }

  ghost function BeingValidated(): State { Saved().(trials := [Trial(0, NotValidated, 0, true)]) }

  ghost function DeletedMeanwhile(): State {
    BeingValidated().(profiles := map[0 := PROFILE.(validation := Deleted, revision := 1)])
  }

  ghost function Revived(): State {
    DeletedMeanwhile().(profiles := map[0 := PROFILE.(revision := 1)], trials := [Trial(0, NotValidated, 0, false)])
  }

  lemma SavedAndTried()
    ensures Next(AtStart(), SaveProfile(TENANT, Development, CONFIG, 0), Saved())
    ensures Next(Saved(), BeginValidation(0), BeingValidated())
  {
  }

  lemma DeletedAndRevived()
    ensures Next(BeingValidated(), DeleteProfile(TENANT, Development), DeletedMeanwhile())
    ensures Next(DeletedMeanwhile(), FinishValidation(0, true), Revived())
  {
    assert 0 in BeingValidated().profiles && BeingValidated().profiles[0] == UNVALIDATED;
    assert HasProfile(BeingValidated(), TENANT, Development);
    assert FindProfile(BeingValidated(), TENANT, Development) == 0;
    assert !HasOpenInvoice(BeingValidated().rows, 0);
  }

  /**
   A validation that was under way when its profile was deleted brings the profile back:
   the profile is saved, its validation begins, it is deleted, and the validation ends.
   */
  lemma DeletedProfileRevived()
    ensures exists states: seq<State>, steps: seq<Step> ::
      && IsRun(states, steps) && |steps| == 4 && steps[0] == SaveProfile(TENANT, Development, CONFIG, 0)
      && steps[1] == BeginValidation(0) && steps[2] == DeleteProfile(TENANT, Development) && IsDeleted(states[3], 0)
      && steps[3] == FinishValidation(0, true) && states[4].profiles == map[0 := PROFILE.(revision := 1)]
  {
    var steps := [SaveProfile(TENANT, Development, CONFIG, 0), BeginValidation(0),
                  DeleteProfile(TENANT, Development), FinishValidation(0, true)];
    var states := [AtStart(), Saved(), BeingValidated(), DeletedMeanwhile(), Revived()];
    SavedAndTried();
    DeletedAndRevived();
    assert Init(states[0]) && IsRun(states, steps);
  }
}
