/**
 The attempt on an invoice row as it is written: a session copies the row, assigns its
 columns and commits, and asks the authority in between. Each method is proved to do, on
 its row, the acts of the invoice machine that its contract names, whatever other workers,
 requests and the authority do in the meantime. Which commits are lost and which calls fail
 is decided by the environment beforehand, so an error recorded here always has a cause.
 */
module InvoiceService {
  import opened Common
  import opened Traces
  import opened Invoice
  import opened InvoiceMachine
  import opened InvoiceInvariant
  import opened InvoiceSafety
  import opened InvoiceNumbering
  import opened InvoicePath
  import opened InvoiceOutcomes

  type RemoteCode = c: Code | c.Remote() witness ArcaTimeout

  /** What befalls one thing that is asked of the outside: it works, it raises, or it answers without a CAE. */
  datatype Trouble = NoTrouble | Fails(code: RemoteCode) | NoCae

  datatype Commit = Done | Violation | Lost

  datatype Answer = Answered(cae: Option<string>) | Error(code: RemoteCode)

  /** Only after a time-out or from an unavailable authority is it open whether a call will take effect. */
  predicate Definite(a: Answer) {
    a.Error? ==> !a.code.Retryable()
  }

  /** The acts of an attempt that goes well so far. */
  predicate Plain(act: Act) {
    act.Claim? || act.SkipLookup? || act.LookupMissing? || act.AskLast? || act.Compare? || act.QueryHolder?
    || act.CommitNumber? || act.Send?
  }

  predicate AllPlain(acts: seq<Act>) {
    forall i :: 0 <= i < |acts| ==> Plain(acts[i])
  }

  ghost predicate LostIn(outage: nat -> bool, from: nat, to: nat) {
    exists k :: from <= k < to && outage(k)
  }

  lemma LostNext(outage: nat -> bool, from: nat, to: nat)
    requires from <= to
    ensures LostIn(outage, from, to + 1) <==> LostIn(outage, from, to) || outage(to)
  {
  }

  ghost predicate FailedIn(trouble: nat -> Trouble, from: nat, to: nat, code: Code) {
    exists k :: from <= k < to && trouble(k).Fails? && trouble(k).code == code
  }

  ghost predicate NoCaeIn(trouble: nat -> Trouble, from: nat, to: nat) {
    exists k :: from <= k < to && trouble(k).NoCae?
  }

  /**
   The act has a cause among these questions: it handles an error that was reported. A
   missing CAE may also mean that the authority has not issued the voucher.
   */
  ghost predicate Cause(trouble: nat -> Trouble, asked0: nat, asked1: nat, issued: bool, act: Act)
  {
    match act
    case ClientError(code, _) => FailedIn(trouble, asked0, asked1, code)
    case LookupError(code, _) => FailedIn(trouble, asked0, asked1, code)
    case Fault(code, _) => FailedIn(trouble, asked0, asked1, code)
    case LookupWithoutCae => NoCaeIn(trouble, asked0, asked1)
    case AnswerWithoutCae => NoCaeIn(trouble, asked0, asked1) || !issued
    case Crash => false
    case GiveUp => false
    case _ => true
  }

  lemma Appended(path: seq<Act>, act: Act, more: seq<Act>)
    ensures path + [act] + more == path + ([act] + more)
  {
  }

  /** A session's copy of an invoice row: the columns the service assigns, and the history of the session. */
  class Record {
    const id: nat
    const origin: Row
    var status: Status
    var attempts: nat
    var number: Option<nat>
    var nextRetry: Option<int>
    var error: Option<Code>
    var cae: Option<string>
    /** The state, and the counts of commits and questions, when the session began. */
    ghost const start: State
    ghost const commits0: nat
    ghost const asked0: nat
    /** The acts on the row since then. */
    ghost var path: seq<Act>

    constructor (id: nat, row: Row, ghost start: State, ghost commits0: nat, ghost asked0: nat)
      ensures this.id == id && ToRow() == row && path == []
      ensures this.start == start && this.commits0 == commits0 && this.asked0 == asked0
    {
      this.id, origin := id, row;
      status, attempts, number := row.status, row.attempts, row.number;
      nextRetry, error, cae := row.nextRetry, row.error, row.cae;
      this.start, this.commits0, this.asked0, path := start, commits0, asked0, [];
    }

    function ToRow(): Row
      reads this
    {
      origin.(status := status, attempts := attempts, number := number,
              nextRetry := nextRetry, error := error, cae := cae)
    }
  }

  /**
   The database and the authority, shared by everybody, as one session sees them. `jobs` says
   which rows are being worked on; `outage` and `trouble` say what happens to the session's
   own commits and questions, which `commits` and `asked` number.
   */
  class Platform {
    const threshold: int
    const base: map<Sequence, nat>
    const outage: nat -> bool
    const trouble: nat -> Trouble
    var profiles: map<nat, Profile>
    var rows: map<nat, Row>
    var jobs: map<nat, Phase>
    var last: map<Sequence, nat>
    var vouchers: map<(Sequence, nat), Voucher>
    var calls: seq<Call>
    var trials: seq<Trial>
    ghost var sent: set<(nat, nat)>
    var commits: nat
    var asked: nat

    constructor (threshold: int, base: map<Sequence, nat>, vouchers: map<(Sequence, nat), Voucher>,
                 outage: nat -> bool, trouble: nat -> Trouble)
      ensures S() == State(threshold, base, map[], map[], map[], base, vouchers, {}, [], [])
      ensures this.outage == outage && this.trouble == trouble && commits == 0 && asked == 0
    {
      this.threshold, this.base, this.outage, this.trouble := threshold, base, outage, trouble;
      profiles, rows, jobs, last, this.vouchers, sent := map[], map[], map[], base, vouchers, {};
      calls, trials, commits, asked := [], [], 0, 0;
    }

    ghost function S(): State
      reads this
    {
      State(threshold, base, profiles, rows, jobs, last, vouchers, sent, calls, trials)
    }

    // ----- Time passes -----

    /** Anybody but the worker of this row may do anything any number of times. */
    method Elapse(id: nat)
      modifies this`profiles, this`rows, this`jobs, this`last, this`vouchers, this`sent, this`calls, this`trials
      ensures Reaches(OthersThan(id), old(S()), S())
    {
      ReachesSelf(OthersThan(id), S());
    }

    /** The same for somebody who is not working on any row. */
    method Idle()
      modifies this`profiles, this`rows, this`jobs, this`last, this`vouchers, this`sent, this`calls, this`trials
      ensures Reaches(Next, old(S()), S())
    {
      ReachesSelf(Next, S());
    }

    /** The same while a profile is locked: nobody changes it. */
    method IdleHolding(p: nat)
      modifies this`profiles, this`rows, this`jobs, this`last, this`vouchers, this`sent, this`calls, this`trials
      ensures Reaches(LockedOn(p), old(S()), S())
    {
      ReachesSelf(LockedOn(p), S());
    }

    /** The same while a validation tries its profile. */
    method IdleTrying(trial: nat)
      modifies this`profiles, this`rows, this`jobs, this`last, this`vouchers, this`sent, this`calls, this`trials
      ensures Reaches(OthersThanTrial(trial), old(S()), S())
    {
      ReachesSelf(OthersThanTrial(trial), S());
    }

    // ----- What the session can rely on -----

    /** A commit from this one on was lost. */
    ghost predicate Lossy(from: nat)
      reads this
    {
      LostIn(outage, from, commits)
    }

    ghost predicate Failed(from: nat, code: Code)
      reads this
    {
      FailedIn(trouble, from, asked, code)
    }

    ghost predicate WithoutCae(from: nat)
      reads this
    {
      NoCaeIn(trouble, from, asked)
    }

    /** The authority has issued the number of the row to the row. */
    ghost predicate Issued(id: nat)
      reads this
    {
      id in rows && IssuedToItself(S(), id)
    }

    ghost predicate Caused(r: Record, act: Act)
      reads this
    {
      Cause(trouble, r.asked0, asked, Issued(r.id), act)
    }

    /** The session is on a run of the machine, with `r.path` the acts it has done on the row. */
    ghost predicate OnPath(r: Record)
      reads this, r
    {
      && Reachable(S()) && r.id in rows && Path(r.id, r.start, r.path, S())
      && r.commits0 <= commits && r.asked0 <= asked
    }

    /** This worker is at `phase`, nothing has gone wrong, and its copy agrees with the table. */
    ghost predicate At(r: Record, phase: Phase)
      reads this, r
    {
      && OnPath(r) && AllPlain(r.path) && r.id in jobs && jobs[r.id] == phase && JobOk(rows[r.id], phase)
      && r.ToRow() == rows[r.id] && !Lossy(r.commits0)
    }

    /**
     The attempt is over. It raised if and only if a commit was lost, leaving its row active,
     or its last act recorded an outcome: the row is retrying or finished and its job is closed.
     */
    ghost predicate Over(r: Record, raised: bool)
      reads this, r
    {
      && OnPath(r) && (raised <==> Lossy(r.commits0))
      && if raised then AllPlain(r.path) && rows[r.id].status.Active()
         else
           && r.id !in jobs && r.ToRow() == rows[r.id] && !r.status.Pending? && !r.status.Processing?
           && |r.path| > 0 && AllPlain(r.path[..|r.path| - 1]) && Caused(r, r.path[|r.path| - 1])
    }

    /** After `path`, which found the row as `row`, the error was handled at the end of the attempt. */
    ghost predicate Handled(r: Record, path: seq<Act>, row: Row, code: Code, now: int)
      reads r
    {
      r.path == path + [Fault(code, now)] && r.ToRow() == HandledError(row, code, now)
    }

    // ----- Commits -----

    /** The session writes its copy back; the unique index on fiscal references may refuse it. */
    method Save(r: Record) returns (c: Commit)
      modifies this`rows, this`commits
      ensures commits == old(commits) + 1 && (c.Lost? <==> outage(old(commits)))
      ensures c.Done? ==> rows == old(rows)[r.id := r.ToRow()]
      ensures !c.Done? ==> rows == old(rows)
      ensures c.Violation? ==> r.number.Some? && NumberTaken(rows, r.id, r.ToRow().Key(), r.number.value)
      ensures c.Done? && r.number.Some? ==> !NumberTaken(old(rows), r.id, r.ToRow().Key(), r.number.value)
    {
      commits := commits + 1;
      if outage(commits - 1) { return Lost; }
      var k, n := r.ToRow().Key(), r.number;
      if j :| j in rows && j != r.id && rows[j].Key() == k && rows[j].number == n && n.Some? { return Violation; }
      rows := rows[r.id := r.ToRow()];
      return Done;
    }

    /** A row that keeps its number never violates the index. */
    method Close(r: Record) returns (raised: bool)
      requires Reachable(S()) && r.id in rows
      requires r.ToRow().Key() == rows[r.id].Key() && r.number == rows[r.id].number
      modifies this`rows, this`jobs, this`commits
      ensures commits == old(commits) + 1 && (raised <==> outage(old(commits)))
      ensures raised ==> S() == old(S())
      ensures !raised ==> S() == old(S()).(rows := old(rows)[r.id := r.ToRow()], jobs := old(jobs) - {r.id})
    {
      if r.number.Some? { NumberStaysFree(S(), r.id); }
      var c := Save(r);
      if c.Done? { jobs := jobs - {r.id}; }
      raised := c.Lost?;
    }

    method Approve(r: Record, cae: string) returns (raised: bool)
      requires Reachable(S()) && r.id in rows && r.ToRow() == rows[r.id]
      modifies this`rows, this`jobs, this`commits, r
      ensures commits == old(commits) + 1 && (raised <==> outage(old(commits))) && r.path == old(r.path)
      ensures raised ==> S() == old(S())
      ensures !raised ==> r.ToRow() == ApprovedWith(old(r.ToRow()), cae)
      ensures !raised ==> S() == old(S()).(rows := old(rows)[r.id := r.ToRow()], jobs := old(jobs) - {r.id})
    {
      r.status := Approved;
      r.cae := Option.Some(cae);
      r.error := Option.None;
      r.nextRetry := Option.None;
      raised := Close(r);
    }

    method FinishError(r: Record, code: Code) returns (raised: bool)
      requires Reachable(S()) && r.id in rows && r.ToRow() == rows[r.id]
      modifies this`rows, this`jobs, this`commits, r
      ensures commits == old(commits) + 1 && (raised <==> outage(old(commits))) && r.path == old(r.path)
      ensures raised ==> S() == old(S())
      ensures !raised ==> r.ToRow() == FinishedWith(old(r.ToRow()), code)
      ensures !raised ==> S() == old(S()).(rows := old(rows)[r.id := r.ToRow()], jobs := old(jobs) - {r.id})
    {
      r.status := if code == ArcaRejected || code == CorrelativeConflict then Rejected else Status.Failed;
      r.error := Option.Some(code);
      r.nextRetry := Option.None;
      raised := Close(r);
    }

    method HandleError(r: Record, code: Code, now: int) returns (raised: bool)
      requires Reachable(S()) && r.id in rows && r.ToRow() == rows[r.id]
      modifies this`rows, this`jobs, this`commits, r
      ensures commits == old(commits) + 1 && (raised <==> outage(old(commits))) && r.path == old(r.path)
      ensures raised ==> S() == old(S())
      ensures !raised ==> r.ToRow() == HandledError(old(r.ToRow()), code, now)
      ensures !raised && old(r.attempts) >= 1 && (Transient(code) || code in {ArcaAuth, ArcaRejected, NotFound}) ==>
        HandledAs(old(r.ToRow()), r.ToRow(), code, now)
      ensures !raised ==> S() == old(S()).(rows := old(rows)[r.id := r.ToRow()], jobs := old(jobs) - {r.id})
    {
      Reschedule(r, code, now);
      raised := Close(r);
    }

    method Reschedule(r: Record, code: Code, now: int)
      modifies r`error, r`status, r`nextRetry
      ensures r.ToRow() == HandledError(old(r.ToRow()), code, now)
      ensures old(r.attempts) >= 1 && (Transient(code) || code in {ArcaAuth, ArcaRejected, NotFound}) ==>
        HandledAs(old(r.ToRow()), r.ToRow(), code, now)
    {
      if r.attempts >= 1 && (Transient(code) || code in {ArcaAuth, ArcaRejected, NotFound}) {
        HandlingWaits(r.ToRow(), code, now);
      }
      r.error := Option.Some(code);
      if code.Retryable() && r.attempts < MAX_ATTEMPTS {
        r.status := Retrying;
        r.nextRetry := Option.Some(now + 60 * RETRY_DELAYS_MINUTES[r.attempts]);
      } else {
        r.status := if code.Retryable() then Status.Failed else Rejected;
        r.nextRetry := Option.None;
      }
    }

    // ----- The outside -----

    method Ask() returns (t: Trouble)
      modifies this`asked
      ensures asked == old(asked) + 1 && t == trouble(old(asked))
    {
      t := trouble(asked);
      asked := asked + 1;
    }

    /** A lookup answers truthfully, or fails with anything but the report that the voucher does not exist. */
    method GetVoucherInfo(k: Sequence, n: nat) returns (a: Answer)
      modifies this`asked
      ensures asked == old(asked) + 1
      ensures var t := trouble(old(asked));
        if t.Fails? && t.code != NotFound then a == Error(t.code)
        else if (k, n) !in vouchers then a == Error(NotFound)
        else a == Answered(if t.NoCae? then Option.None else Option.Some(vouchers[(k, n)].cae))
    {
      var t := Ask();
      if t.Fails? && t.code != NotFound { return Error(t.code); }
      if (k, n) !in vouchers { return Error(NotFound); }
      return Answered(if t.NoCae? then Option.None else Option.Some(vouchers[(k, n)].cae));
    }

    method GetLastVoucher(k: Sequence) returns (n: nat, t: Trouble)
      modifies this`asked
      ensures asked == old(asked) + 1 && t == trouble(old(asked)) && n == S().Last(k)
    {
      t := Ask();
      n := if k in last then last[k] else 0;
    }

    /**
     The call is made, and at any time from then on the authority may act on it. Unless it
     fails, it answers with the CAE exactly if the authority has issued one by then. Only a
     time-out or an unavailable authority leaves the call open.
     */
    method CreateVoucher(id: nat, k: Sequence, n: nat) returns (a: Answer)
      requires Reachable(S()) && CanWork(S(), id, Send) && rows[id].Key() == k && rows[id].number == Some(n)
      modifies this`profiles, this`rows, this`jobs, this`last, this`vouchers, this`sent, this`calls, this`trials,
        this`asked
      ensures Reaches(OthersThan(id), Worked(old(S()), id, Send), S()) && asked == old(asked) + 1
      ensures var t := trouble(old(asked));
        && (if t.Fails? then a == Error(t.code)
            else if t.NoTrouble? && (k, n) in vouchers && vouchers[(k, n)].owner == Some(id) then
              a == Answered(Option.Some(vouchers[(k, n)].cae))
            else a == Answered(Option.None))
        && (Definite(a) ==> !S().Pending(|old(calls)|))
    {
      var call := MakeCall(id, n);
      ghost var s := S();
      Elapse(id);
      var t := Ask();
      if t.Fails? && t.code.Retryable() { return Error(t.code); }
      ActedOn(id, call, s);
      if t.Fails? { return Error(t.code); }
      if t.NoTrouble? && (k, n) in vouchers && vouchers[(k, n)].owner == Option.Some(id) {
        return Answered(Option.Some(vouchers[(k, n)].cae));
      }
      return Answered(Option.None);
    }

    method MakeCall(id: nat, n: nat) returns (call: nat)
      requires CanWork(S(), id, Send) && rows[id].number == Some(n)
      modifies this`jobs, this`sent, this`calls
      ensures S() == Worked(old(S()), id, Send) && call == |old(calls)|
    {
      call := |calls|;
      sent := sent + {(id, n)};
      jobs := jobs[id := Awaiting(call)];
      calls := calls + [InvoiceMachine.Call.Call(id, n, true)];
      assert rows[id := rows[id]] == rows;
    }

    /** A call that gets a definite answer and was not issued has been refused. */
    method ActedOn(id: nat, call: nat, ghost s: State)
      requires Reaches(OthersThan(id), s, S())
      modifies this`calls
      ensures Reaches(OthersThan(id), s, S()) && !S().Pending(call)
    {
      if call < |calls| && calls[call].open {
        ghost var t := S();
        calls := calls[call := calls[call].(open := false)];
        ReachesThen(OthersThan(id), s, t, TurnDown(call), S());
      }
    }

    // ----- One act, as the machine does it -----

    /** Waiting at a phase: others run, this row and this worker are as before. */
    method Wait(r: Record, ghost phase: Phase)
      requires At(r, phase)
      modifies this`profiles, this`rows, this`jobs, this`last, this`vouchers, this`sent, this`calls, this`trials
      ensures At(r, phase)
    {
      ghost var s := S();
      Elapse(r.id);
      OthersLeaveRow(s, S(), r.id);
      PathOthers(r.id, r.start, r.path, s, S());
    }

    /** The act just done is on the path. */
    ghost method Did(r: Record, act: Act, phase: Phase)
      requires Reachable(S()) && r.id in rows && r.ToRow() == rows[r.id] && Path(r.id, r.start, r.path + [act], S())
      requires r.commits0 <= commits && r.asked0 <= asked && !Lossy(r.commits0) && AllPlain(r.path) && Plain(act)
      requires r.id in jobs && jobs[r.id] == phase && JobOk(rows[r.id], phase)
      modifies r`path
      ensures At(r, phase) && r.path == old(r.path) + [act]
    {
      r.path := r.path + [act];
    }

    /** The act just recorded is on the path, and ends it. */
    ghost method Closed(r: Record, act: Act)
      requires Reachable(S()) && r.id in rows && r.ToRow() == rows[r.id] && Path(r.id, r.start, r.path + [act], S())
      requires r.commits0 <= commits && r.asked0 <= asked && !Lossy(r.commits0) && AllPlain(r.path) && Caused(r, act)
      requires r.id !in jobs && !r.status.Pending? && !r.status.Processing?
      modifies r`path
      ensures Over(r, false) && r.path == old(r.path) + [act]
    {
      r.path := r.path + [act];
      assert r.path[..|r.path| - 1] == old(r.path);
    }

    /** The attempt ended with the act in state `s`. */
    ghost method Concluded(r: Record, act: Act, s: State)
      requires Reachable(s) && Path(r.id, r.start, r.path, s) && CanWork(s, r.id, act) && !act.Send?
      requires r.ToRow() == Changed(s.rows[r.id], WorkChange(s, r.id, act)) && WorkPhase(s, r.id, act).None?
      requires S() == s.(rows := s.rows[r.id := r.ToRow()], jobs := s.jobs - {r.id})
      requires r.commits0 <= commits && r.asked0 <= asked && !Lossy(r.commits0) && AllPlain(r.path) && Caused(r, act)
      requires !r.status.Pending? && !r.status.Processing?
      modifies r`path
      ensures Over(r, false) && r.path == old(r.path) + [act]
    {
      Ended(r.start, r.path, s, r.id, act, r.ToRow(), S());
      Closed(r, act);
    }

    /** An act of this worker that only moves it on. */
    method Move(r: Record, ghost from: Phase, ghost act: Act, to: Phase)
      requires At(r, from) && CanWork(S(), r.id, act) && Plain(act) && !act.Send?
      requires WorkChange(S(), r.id, act) == Change.Keep && WorkPhase(S(), r.id, act) == Option.Some(to)
      modifies this`jobs, r`path
      ensures At(r, to) && r.path == old(r.path) + [act] && S() == old(S()).(jobs := old(jobs)[r.id := to])
    {
      ghost var s := S();
      jobs := jobs[r.id := to];
      Moved(r.start, r.path, s, r.id, act, to, S());
      Did(r, act, to);
    }

    /** An act of this worker that ends the attempt with an error to handle. */
    method Fail(r: Record, ghost from: Phase, ghost act: Act, code: Code, now: int) returns (raised: bool)
      requires At(r, from) && CanWork(S(), r.id, act) && !act.Send? && Caused(r, act)
      requires WorkChange(S(), r.id, act) == Change.Handle(code, now) && WorkPhase(S(), r.id, act).None?
      modifies this`rows, this`jobs, this`commits, r
      ensures commits == old(commits) + 1 && (raised <==> outage(old(commits)))
      ensures raised ==> Over(r, true) && r.path == old(r.path) && S() == old(S())
      ensures !raised ==>
        Over(r, false) && r.path == old(r.path) + [act] && r.ToRow() == HandledError(old(r.ToRow()), code, now)
    {
      ghost var s := S();
      raised := HandleError(r, code, now);
      LostNext(outage, r.commits0, commits - 1);
      if !raised {
        Concluded(r, act, s);
      }
    }

    /** An act of this worker that ends the attempt without success. */
    method Refuse(r: Record, ghost from: Phase, ghost act: Act, code: Code) returns (raised: bool)
      requires At(r, from) && CanWork(S(), r.id, act) && !act.Send? && Caused(r, act)
      requires WorkChange(S(), r.id, act) == Change.Finish(code) && WorkPhase(S(), r.id, act).None?
      modifies this`rows, this`jobs, this`commits, r
      ensures commits == old(commits) + 1 && (raised <==> outage(old(commits)))
      ensures raised ==> Over(r, true) && r.path == old(r.path) && S() == old(S())
      ensures !raised ==>
        Over(r, false) && r.path == old(r.path) + [act] && r.ToRow() == FinishedWith(old(r.ToRow()), code)
    {
      ghost var s := S();
      raised := FinishError(r, code);
      LostNext(outage, r.commits0, commits - 1);
      if !raised {
        Concluded(r, act, s);
      }
    }

    /** An act of this worker that ends the attempt with a CAE. */
    method Adopt(r: Record, ghost from: Phase, ghost act: Act, cae: string) returns (raised: bool)
      requires At(r, from) && CanWork(S(), r.id, act) && !act.Send? && Caused(r, act)
      requires WorkChange(S(), r.id, act) == Change.Approve(cae) && WorkPhase(S(), r.id, act).None?
      modifies this`rows, this`jobs, this`commits, r
      ensures commits == old(commits) + 1 && (raised <==> outage(old(commits)))
      ensures raised ==> Over(r, true) && r.path == old(r.path) && S() == old(S())
      ensures !raised ==>
        Over(r, false) && r.path == old(r.path) + [act] && r.ToRow() == ApprovedWith(old(r.ToRow()), cae)
    {
      ghost var s := S();
      raised := Approve(r, cae);
      LostNext(outage, r.commits0, commits - 1);
      if !raised {
        Concluded(r, act, s);
      }
    }

    /**
     The outside failed after the sequence lock: the exception is handled at the end of the
     attempt. A commit lost there or before is not, because the session then refuses to commit.
     */
    method Raise(r: Record, ghost from: Phase, code: RemoteCode, now: int) returns (raised: bool)
      requires At(r, from) && !from.Started? && !from.Awaiting? && Failed(r.asked0, code)
      modifies this`rows, this`jobs, this`commits, r
      ensures old(r.path) <= r.path
      ensures Over(r, raised)
      ensures !raised ==> Handled(r, old(r.path), old(r.ToRow()), code, now)
    {
      raised := Fail(r, from, Fault(code, now), code, now);
    }

    // ----- One attempt -----

    /**
     Lookup of an already numbered voucher before anything is sent again. The attempt goes on
     only for a number that has just been reported missing, or on a row's first attempt.
     */
    method LookUp(r: Record, now: int) returns (over: bool, raised: bool)
      requires At(r, Started)
      modifies this, r
      ensures old(r.path) <= r.path
      ensures if over then Over(r, raised) else At(r, Sequencing) && !raised && r.ToRow() == old(r.ToRow())
      ensures !(old(r.number).Some? && old(r.attempts) > 1) ==> !over && r.path == old(r.path) + [SkipLookup]
      ensures old(r.number).Some? && old(r.attempts) > 1 ==>
        var t, v := trouble(old(asked)), (old(r.ToRow()).Key(), old(r.number).value);
        && (!over ==> r.path == old(r.path) + [LookupMissing] && v !in vouchers)
        && (over <==> (t.Fails? && t.code != NotFound) || v in vouchers)
        && (over && !raised ==>
              if t.Fails? && t.code != NotFound then
                r.path == old(r.path) + [LookupError(t.code, now)]
                && r.ToRow() == HandledError(old(r.ToRow()), t.code, now)
              else if t.NoCae? then
                r.path == old(r.path) + [LookupWithoutCae] && r.ToRow() == FinishedWith(old(r.ToRow()), ArcaRejected)
              else
                r.path == old(r.path) + [LookupFound] && r.ToRow() == ApprovedWith(old(r.ToRow()), vouchers[v].cae))
    {
      Wait(r, Started);
      if r.number.Some? && r.attempts > 1 {
        var answer := GetVoucherInfo(r.ToRow().Key(), r.number.value);
        over, raised := UseLookup(r, answer, now);
      } else {
        Move(r, Started, SkipLookup, Sequencing);
        over, raised := false, false;
      }
    }

    method UseLookup(r: Record, answer: Answer, now: int) returns (over: bool, raised: bool)
      requires At(r, Started) && r.number.Some? && r.attempts > 1
      requires var v := (r.ToRow().Key(), r.number.value);
        match answer
        case Error(code) => if code == NotFound then v !in vouchers else Failed(r.asked0, code)
        case Answered(cae) => v in vouchers && if cae.Some? then cae.value == vouchers[v].cae else WithoutCae(r.asked0)
      modifies this`rows, this`jobs, this`commits, r
      ensures old(r.path) <= r.path
      ensures over <==> answer != Error(NotFound)
      ensures !over ==>
        At(r, Sequencing) && !raised && r.path == old(r.path) + [LookupMissing] && r.ToRow() == old(r.ToRow())
      ensures over ==> Over(r, raised)
      ensures over && !raised ==>
        match answer
        case Error(code) =>
          r.path == old(r.path) + [LookupError(code, now)] && r.ToRow() == HandledError(old(r.ToRow()), code, now)
        case Answered(cae) =>
          if cae.Some? then
              r.path == old(r.path) + [LookupFound] && r.ToRow() == ApprovedWith(old(r.ToRow()), cae.value)
          else r.path == old(r.path) + [LookupWithoutCae] && r.ToRow() == FinishedWith(old(r.ToRow()), ArcaRejected)
    {
      over, raised := true, false;
      match answer
      case Error(code) =>
        if code != NotFound {
          raised := Fail(r, Started, LookupError(code, now), code, now);
        } else {
          Move(r, Started, LookupMissing, Sequencing);
          over := false;
        }
      case Answered(cae) =>
        if cae.Some? {
          raised := Adopt(r, Started, LookupFound, cae.value);
        } else {
          raised := Refuse(r, Started, LookupWithoutCae, ArcaRejected);
        }
    }

    /** The number that comes next is asked for. */
    method AskForLast(r: Record, now: int) returns (over: bool, raised: bool, expected: nat)
      requires At(r, Sequencing)
      modifies this, r
      ensures old(r.path) <= r.path
      ensures over <==> trouble(old(asked)).Fails?
      ensures over ==> Over(r, raised)
      ensures over && !raised ==> Handled(r, old(r.path), old(r.ToRow()), trouble(old(asked)).code, now)
      ensures !over ==> At(r, Numbering(expected)) && r.ToRow() == old(r.ToRow())
      ensures !over ==> r.path == old(r.path) + [AskLast] && expected == S().Last(r.ToRow().Key()) + 1
    {
      var n, t := AskNow(r);
      over, raised, expected := t.Fails?, false, n + 1;
      if over {
        raised := Raise(r, Sequencing, t.code, now);
      } else {
        Move(r, Sequencing, AskLast, Numbering(expected));
      }
    }

    /** The question itself, some time later. */
    method AskNow(r: Record) returns (n: nat, t: Trouble)
      requires At(r, Sequencing)
      modifies this
      ensures At(r, Sequencing) && commits == old(commits)
      ensures n == S().Last(r.ToRow().Key()) && t == trouble(old(asked)) && (t.Fails? ==> Failed(r.asked0, t.code))
    {
      Wait(r, Sequencing);
      n, t := GetLastVoucher(r.ToRow().Key());
    }

    /** Looks for another row of the sequence, not rejected, that holds the number. */
    method QueryHolder(r: Record, expected: nat) returns (free: bool)
      requires At(r, Numbering(expected)) && r.number.None?
      modifies this`jobs, r`path
      ensures At(r, if free then Reserving(expected) else Busy) && r.path == old(r.path) + [Act.QueryHolder]
      ensures free <==>
        forall j :: j in rows && j != r.id && rows[j].number == Some(expected) && SameSequence(rows[j], r.ToRow()) ==>
          rows[j].status == Rejected
    {
      HoldersFound(rows, r.id, expected);
      var k, n := r.ToRow().Key(), Option.Some(expected);
      if j :| j in rows && j != r.id && rows[j].Key() == k && rows[j].number == n && !rows[j].status.Rejected? {
        free := false;
      } else {
        free := true;
      }
      Move(r, Numbering(expected), Act.QueryHolder, if free then Reserving(expected) else Busy);
    }

    /** Somebody else holds the number: the row is retried later. */
    method ReportBusy(r: Record, now: int) returns (raised: bool)
      requires At(r, Busy)
      modifies this, r
      ensures old(r.path) <= r.path
      ensures Over(r, raised)
      ensures !raised ==>
        r.path == old(r.path) + [Act.ReportBusy(now)] && r.ToRow() == HandledError(old(r.ToRow()), SequenceBusy, now)
    {
      Wait(r, Busy);
      raised := Fail(r, Busy, Act.ReportBusy(now), SequenceBusy, now);
    }

    /** Writes the number; a violated index rolls it back. */
    method WriteNumber(r: Record, n: nat) returns (c: Commit)
      requires r.id in rows && r.ToRow() == rows[r.id] && r.number.None?
      modifies this`rows, this`commits, r`number
      ensures commits == old(commits) + 1 && (c.Lost? <==> outage(old(commits)))
      ensures !c.Lost? ==> (c.Violation? <==> NumberTaken(old(rows), r.id, old(r.ToRow()).Key(), n))
      ensures !c.Done? ==> rows == old(rows)
      ensures c.Violation? ==> r.ToRow() == old(r.ToRow())
      ensures c.Done? ==> r.ToRow() == old(r.ToRow()).(number := Option.Some(n)) && rows == old(rows)[r.id := r.ToRow()]
    {
      r.number := Option.Some(n);
      c := Save(r);
      if c.Violation? { r.number := Option.None; }
    }

    /** The number is committed; the unique index decides between concurrent workers. */
    method Reserve(r: Record, expected: nat) returns (c: Commit)
      requires At(r, Reserving(expected))
      modifies this`rows, this`jobs, this`commits, r`number, r`path
      ensures commits == old(commits) + 1 && (c.Lost? <==> outage(old(commits)))
      ensures !c.Lost? ==> (c.Violation? <==> NumberTaken(old(rows), r.id, old(r.ToRow()).Key(), expected))
      ensures r.path == old(r.path) + if c.Lost? then [] else [Act.CommitNumber]
      ensures match c
        case Lost => Over(r, true)
        case Violation => At(r, Busy) && r.ToRow() == old(r.ToRow())
        case Done => At(r, Sending) && r.ToRow() == old(r.ToRow()).(number := Option.Some(expected))
    {
      ghost var s := S();
      c := WriteNumber(r, expected);
      LostNext(outage, r.commits0, commits - 1);
      if c.Done? {
        Keep(r, expected, s);
      } else if c.Violation? {
        Yield(r, expected, s);
      }
    }

    /** The number is the row's own from now on. */
    method Keep(r: Record, expected: nat, ghost s: State)
      requires Reachable(s) && Path(r.id, r.start, r.path, s)
      requires r.id in s.rows && JobOk(s.rows[r.id], Reserving(expected))
      requires r.id in s.jobs && s.jobs[r.id] == Reserving(expected)
      requires !NumberTaken(s.rows, r.id, s.rows[r.id].Key(), expected)
      requires r.ToRow() == s.rows[r.id].(number := Option.Some(expected))
      requires S() == s.(rows := s.rows[r.id := r.ToRow()])
      requires r.commits0 <= commits && r.asked0 <= asked && !Lossy(r.commits0) && AllPlain(r.path)
      modifies this`jobs, r`path
      ensures At(r, Sending) && r.path == old(r.path) + [Act.CommitNumber]
    {
      jobs := jobs[r.id := Sending];
      NumberCommitted(r.start, r.path, s, r.id, expected, S());
      Did(r, Act.CommitNumber, Sending);
    }

    /** Somebody else was faster. */
    method Yield(r: Record, expected: nat, ghost s: State)
      requires Reachable(s) && Path(r.id, r.start, r.path, s)
      requires r.id in s.rows && JobOk(s.rows[r.id], Reserving(expected))
      requires r.id in s.jobs && s.jobs[r.id] == Reserving(expected)
      requires NumberTaken(s.rows, r.id, s.rows[r.id].Key(), expected)
      requires r.ToRow() == s.rows[r.id] && S() == s
      requires r.commits0 <= commits && r.asked0 <= asked && !Lossy(r.commits0) && AllPlain(r.path)
      modifies this`jobs, r`path
      ensures At(r, Busy) && r.path == old(r.path) + [Act.CommitNumber]
    {
      jobs := jobs[r.id := Busy];
      NumberRefused(r.start, r.path, s, r.id, expected, S());
      Did(r, Act.CommitNumber, Busy);
    }

    /** Takes the number for the row, or finds that another worker was faster. */
    method CommitNumber(r: Record, expected: nat, now: int) returns (over: bool, raised: bool)
      requires At(r, Reserving(expected))
      modifies this, r
      ensures old(r.path) <= r.path
      ensures !over ==> At(r, Sending) && !raised && r.ToRow() == old(r.ToRow()).(number := Option.Some(expected))
      ensures !over ==> r.path == old(r.path) + [Act.CommitNumber]
      ensures over ==> Over(r, raised)
      ensures over <==> outage(old(commits)) || NumberTaken(old(rows), r.id, old(r.ToRow()).Key(), expected)
      ensures over && !raised ==>
        && r.path == old(r.path) + [Act.CommitNumber, Act.ReportBusy(now)]
        && r.ToRow() == HandledError(old(r.ToRow()), SequenceBusy, now)
    {
      Appended(r.path, Act.CommitNumber, [Act.ReportBusy(now)]);
      var c := Reserve(r, expected);
      match c
      case Lost =>
        over, raised := true, true;
      case Violation =>
        raised := ReportBusy(r, now);
        over := true;
      case Done =>
        over, raised := false, false;
    }

    /** After the query, `path`, somebody held the number then or at the commit, and the row is to be retried. */
    ghost predicate FoundBusy(r: Record, path: seq<Act>, row: Row, now: int)
      reads r
    {
      && (r.path == path + [Act.ReportBusy(now)] || r.path == path + [Act.CommitNumber, Act.ReportBusy(now)])
      && r.ToRow() == HandledError(row, SequenceBusy, now)
    }

    /**
     The next number is taken for the row. Otherwise somebody held it at the query or at the
     commit and the row is retried as busy, or the query failed and the error is handled. The
     method raises exactly when a commit was lost.
     */
    method TakeNumber(r: Record, expected: nat, now: int) returns (over: bool, raised: bool)
      requires At(r, Numbering(expected)) && r.number.None?
      modifies this, r
      ensures old(r.path) <= r.path
      ensures !over ==> At(r, Sending) && !raised && r.ToRow() == old(r.ToRow()).(number := Option.Some(expected))
      ensures !over ==> r.path == old(r.path) + [Act.QueryHolder] + [Act.CommitNumber]
      ensures over ==> Over(r, raised)
      ensures trouble(old(asked)).Fails? ==> over
      ensures over && !raised ==>
        if trouble(old(asked)).Fails? then Handled(r, old(r.path), old(r.ToRow()), trouble(old(asked)).code, now)
        else FoundBusy(r, old(r.path) + [Act.QueryHolder], old(r.ToRow()), now)
    {
      Wait(r, Numbering(expected));
      var t := Ask();
      if t.Fails? {
        raised := Raise(r, Numbering(expected), t.code, now);
        return true, raised;
      }
      over, raised := TakeFree(r, expected, now);
    }

    method TakeFree(r: Record, expected: nat, now: int) returns (over: bool, raised: bool)
      requires At(r, Numbering(expected)) && r.number.None?
      modifies this, r
      ensures old(r.path) <= r.path
      ensures !over ==> At(r, Sending) && !raised && r.ToRow() == old(r.ToRow()).(number := Option.Some(expected))
      ensures !over ==> r.path == old(r.path) + [Act.QueryHolder] + [Act.CommitNumber]
      ensures over ==> Over(r, raised)
      ensures over && !raised ==> FoundBusy(r, old(r.path) + [Act.QueryHolder], old(r.ToRow()), now)
    {
      var free := QueryHolder(r, expected);
      over, raised := UseQuery(r, free, expected, now);
    }

    method UseQuery(r: Record, free: bool, expected: nat, now: int) returns (over: bool, raised: bool)
      requires At(r, if free then Reserving(expected) else Busy)
      modifies this, r
      ensures old(r.path) <= r.path
      ensures !over ==> At(r, Sending) && !raised && r.ToRow() == old(r.ToRow()).(number := Option.Some(expected))
      ensures !over ==> r.path == old(r.path) + [Act.CommitNumber]
      ensures over ==> Over(r, raised)
      ensures over && !raised ==> FoundBusy(r, old(r.path), old(r.ToRow()), now)
    {
      if free {
        Wait(r, Reserving(expected));
        over, raised := CommitNumber(r, expected, now);
      } else {
        raised := ReportBusy(r, now);
        over := true;
      }
    }

    /** A number that the row already holds must be the next one: otherwise it conflicts. */
    method CompareNumber(r: Record, expected: nat, now: int) returns (over: bool, raised: bool)
      requires At(r, Numbering(expected)) && r.number.Some?
      modifies this, r
      ensures old(r.path) <= r.path
      ensures over <==> old(r.number).value != expected
      ensures !over ==> At(r, Sending) && r.ToRow() == old(r.ToRow()) && r.path == old(r.path) + [Compare]
      ensures over ==> Over(r, raised)
      ensures over && !raised ==>
        r.path == old(r.path) + [Compare] && r.ToRow() == FinishedWith(old(r.ToRow()), CorrelativeConflict)
    {
      Wait(r, Numbering(expected));
      over, raised := r.number.value != expected, false;
      if over {
        raised := Refuse(r, Numbering(expected), Compare, CorrelativeConflict);
      } else {
        Move(r, Numbering(expected), Compare, Sending);
      }
    }

    /** The last number is asked for, and the row's own number compared or a new one taken. */
    method Sequence(r: Record, now: int) returns (over: bool, raised: bool)
      requires At(r, Sequencing)
      modifies this, r
      ensures old(r.path) <= r.path
      ensures if over then Over(r, raised) else At(r, Sending) && r.number.Some?
      ensures !over ==>
        && r.ToRow() == old(r.ToRow()).(number := r.number)
        && r.path == old(r.path) +
             if old(r.number).Some? then [AskLast, Compare] else [AskLast, Act.QueryHolder, Act.CommitNumber]
    {
      var expected: nat;
      Appended(r.path, AskLast, [Act.QueryHolder, Act.CommitNumber]);
      Appended(r.path, AskLast, [Compare]);
      over, raised, expected := AskForLast(r, now);
      if over { return; }
      if r.number.None? {
        over, raised := TakeNumber(r, expected, now);
      } else {
        over, raised := CompareNumber(r, expected, now);
      }
    }

    /** The call itself: from here on the authority may issue the number to the row. */
    method Call(r: Record) returns (a: Answer)
      requires At(r, Sending)
      modifies this`profiles, this`rows, this`jobs, this`last, this`vouchers, this`sent, this`calls, this`trials,
        this`asked, r`path
      ensures At(r, Awaiting(|old(calls)|)) && r.number.Some? && r.path == old(r.path) + [Send]
      ensures r.ToRow() == old(r.ToRow()) && (Definite(a) ==> !S().Pending(|old(calls)|))
      ensures var t := trouble(old(asked));
        && asked == old(asked) + 1
        && (t.Fails? <==> a.Error?) && (t.Fails? ==> a.code == t.code)
        && (a.Answered? && a.cae.Some? <==> t.NoTrouble? && Issued(r.id))
        && (a.Answered? && a.cae.Some? ==> a.cae.value == vouchers[(r.ToRow().Key(), r.number.value)].cae)
    {
      ghost var s := S();
      a := CreateVoucher(r.id, r.ToRow().Key(), r.number.value);
      ghost var sending := Worked(s, r.id, Send);
      Acted(r.start, r.path, s, r.id, Send, sending);
      OthersLeaveRow(sending, S(), r.id);
      r.path := r.path + [Send];
      PathOthers(r.id, r.start, r.path, sending, S());
    }

    method UseAnswer(r: Record, ghost call: nat, answer: Answer, now: int) returns (raised: bool)
      requires At(r, Awaiting(call)) && r.number.Some?
      requires Definite(answer) ==> !S().Pending(call)
      requires match answer
        case Error(code) => Failed(r.asked0, code)
        case Answered(cae) =>
          if cae.None? then WithoutCae(r.asked0) || !Issued(r.id)
          else Issued(r.id) && cae.value == vouchers[(r.ToRow().Key(), r.number.value)].cae
      modifies this`rows, this`jobs, this`commits, r
      ensures old(r.path) <= r.path
      ensures Over(r, raised)
      ensures !raised ==>
        match answer
        case Error(code) => Handled(r, old(r.path), old(r.ToRow()), code, now)
        case Answered(cae) =>
          if cae.Some? then r.path == old(r.path) + [AnswerCae] && r.ToRow() == ApprovedWith(old(r.ToRow()), cae.value)
          else r.path == old(r.path) + [AnswerWithoutCae] && r.ToRow() == FinishedWith(old(r.ToRow()), ArcaRejected)
    {
      match answer
      case Error(code) =>
        raised := Fail(r, Awaiting(call), Fault(code, now), code, now);
      case Answered(cae) =>
        if cae.Some? {
          raised := Adopt(r, Awaiting(call), AnswerCae, cae.value);
        } else {
          raised := Refuse(r, Awaiting(call), AnswerWithoutCae, ArcaRejected);
        }
    }

    /** What became of a row whose submission was answered as this says. */
    ghost predicate Replied(r: Record, path: seq<Act>, row: Row, t: Trouble, now: int)
      reads this, r
    {
      if t.Fails? then
        Handled(r, path, row, t.code, now)
      else if t.NoTrouble? && Issued(r.id) then
        r.path == path + [AnswerCae]
        && r.ToRow() == ApprovedWith(row, vouchers[(rows[r.id].Key(), rows[r.id].number.value)].cae)
      else
        r.path == path + [AnswerWithoutCae] && r.ToRow() == FinishedWith(row, ArcaRejected)
    }

    /**
     The voucher is requested under the committed number and the answer recorded: approved
     with the CAE exactly when the authority answered with it, rejected without one, handled
     when the call failed. Nothing is sent when building the request fails.
     */
    method Emit(r: Record, now: int) returns (raised: bool)
      requires At(r, Sending)
      modifies this, r
      ensures old(r.path) <= r.path
      ensures Over(r, raised)
      ensures !raised ==>
        var building := trouble(old(asked));
        if building.Fails? then Handled(r, old(r.path), old(r.ToRow()), building.code, now)
        else Replied(r, old(r.path) + [Send], old(r.ToRow()), trouble(old(asked) + 1), now)
    {
      var building := Ask();
      if building.Fails? {
        raised := Raise(r, Sending, building.code, now);
      } else {
        raised := EmitBuilt(r, now);
      }
    }

    method EmitBuilt(r: Record, now: int) returns (raised: bool)
      requires At(r, Sending)
      modifies this, r
      ensures old(r.path) <= r.path
      ensures Over(r, raised)
      ensures !raised ==> Replied(r, old(r.path) + [Send], old(r.ToRow()), trouble(old(asked)), now)
    {
      ghost var call := |calls|;
      var answer := Call(r);
      raised := UseAnswer(r, call, answer, now);
    }

    /** The whole attempt after the claim: client, lookup, sequence, submission. */
    method Attempt(r: Record, now: int) returns (raised: bool)
      requires At(r, Started)
      modifies this, r
      ensures old(r.path) <= r.path && Over(r, raised)
      ensures trouble(old(asked)).Fails? && !raised ==>
        && r.path == old(r.path) + [ClientError(trouble(old(asked)).code, now)]
        && r.ToRow() == HandledError(old(r.ToRow()), trouble(old(asked)).code, now)
    {
      var client := Ask();
      if client.Fails? {
        raised := Fail(r, Started, ClientError(client.code, now), client.code, now);
        return;
      }
      var over: bool;
      over, raised := LookUp(r, now);
      if over { return; }
      over, raised := Sequence(r, now);
      if over { return; }
      raised := Emit(r, now);
    }

    /** A session that has just read the row. */
    ghost predicate Fetched(r: Record)
      reads this, r
    {
      && Reachable(S()) && r.id in rows && r.ToRow() == rows[r.id] && r.id !in jobs
      && r.start == S() && r.commits0 == commits && r.asked0 == asked && r.path == []
    }

    /** The attempt is counted and the row leased to this worker, in one commit. */
    method Begin(r: Record, now: int, lease: nat) returns (raised: bool)
      requires Fetched(r) && r.status.Active() && ProfileProblem(S(), rows[r.id]).None?
      modifies this`rows, this`jobs, this`commits, r
      ensures commits == old(commits) + 1 && (raised <==> outage(old(commits)))
      ensures raised ==> S() == old(S()) && Over(r, true) && r.path == []
      ensures !raised ==> At(r, Started) && r.path == [Act.Claim(now + lease)]
      ensures !raised ==> r.ToRow() == Claimed(old(r.ToRow()), now + lease) && rows == old(rows)[r.id := r.ToRow()]
    {
      ghost var s := S();
      assert ProfileProblem(s, s.rows[r.id]).None? && s.rows[r.id].status.Active();
      raised := CommitClaim(r, now + lease);
      if !raised { Lease(r, now + lease, s); }
    }

    method CommitClaim(r: Record, until: int) returns (raised: bool)
      requires Fetched(r) && r.status.Active()
      modifies this`rows, this`commits, r`status, r`attempts, r`nextRetry
      ensures commits == old(commits) + 1 && (raised <==> outage(old(commits)))
      ensures if raised then S() == old(S()) && Over(r, true)
              else S() == old(S()).(rows := old(rows)[r.id := r.ToRow()]) && !Lossy(r.commits0)
      ensures !raised ==> r.ToRow() == Claimed(old(r.ToRow()), until) && Path(r.id, r.start, r.path, old(S()))
    {
      PathSelf(r.id, S());
      raised := WriteClaim(r, until);
      LostNext(outage, r.commits0, commits - 1);
    }

    /** The row is this worker's from now on. */
    method Lease(r: Record, until: int, ghost s: State)
      requires Reachable(s) && Path(r.id, r.start, r.path, s) && r.path == [] && r.id in s.rows && r.id !in s.jobs
      requires s.rows[r.id].status.Active() && ProfileProblem(s, s.rows[r.id]).None?
      requires r.ToRow() == Claimed(s.rows[r.id], until) && S() == s.(rows := s.rows[r.id := r.ToRow()])
      requires r.commits0 <= commits && r.asked0 <= asked && !Lossy(r.commits0)
      modifies this`jobs, r`path
      ensures At(r, Started) && r.path == [Act.Claim(until)]
    {
      jobs := jobs[r.id := Started];
      RowClaimed(r.start, r.path, s, r.id, until, S());
      Did(r, Act.Claim(until), Started);
    }

    method WriteClaim(r: Record, leaseUntil: int) returns (raised: bool)
      requires Reachable(S()) && r.id in rows && r.ToRow() == rows[r.id]
      modifies this`rows, this`commits, r`status, r`attempts, r`nextRetry
      ensures commits == old(commits) + 1 && (raised <==> outage(old(commits)))
      ensures raised ==> S() == old(S())
      ensures !raised ==> r.ToRow() == Claimed(old(r.ToRow()), leaseUntil)
      ensures !raised ==> S() == old(S()).(rows := old(rows)[r.id := r.ToRow()])
    {
      r.status := Processing;
      r.attempts := r.attempts + 1;
      r.nextRetry := Option.Some(leaseUntil);
      if r.number.Some? { NumberStaysFree(S(), r.id); }
      var c := Save(r);
      raised := !c.Done?;
    }

    /** A row whose profile cannot be used is finished without an attempt. */
    method RejectProfile(r: Record, code: Code) returns (raised: bool)
      requires Fetched(r) && r.status.Active() && ProfileProblem(S(), rows[r.id]) == Option.Some(code)
      modifies this`rows, this`jobs, this`commits, r
      ensures Over(r, raised)
      ensures !raised ==> r.path == [Act.Claim(0)] && r.ToRow() == FinishedWith(old(r.ToRow()), code)
    {
      ghost var s := S();
      PathSelf(r.id, s);
      raised := FinishError(r, code);
      LostNext(outage, r.commits0, commits - 1);
      if !raised {
        Dismissed(r, code, s);
      }
    }

    ghost method Dismissed(r: Record, code: Code, s: State)
      requires Reachable(s) && Path(r.id, r.start, r.path, s) && r.path == []
      requires r.id in s.rows && r.id !in s.jobs && s.rows[r.id].status.Active()
      requires ProfileProblem(s, s.rows[r.id]) == Option.Some(code) && r.ToRow() == FinishedWith(s.rows[r.id], code)
      requires S() == s.(rows := s.rows[r.id := r.ToRow()], jobs := s.jobs - {r.id})
      requires r.commits0 <= commits && r.asked0 <= asked && !Lossy(r.commits0)
      modifies r`path
      ensures Over(r, false) && r.path == [Act.Claim(0)]
    {
      RowRejected(r.start, r.path, s, r.id, 0, code, S());
      Closed(r, Act.Claim(0));
    }

    /**
     One call of `process`. The acts it does on the row are those of one whole attempt of the
     machine: it starts with the claim, goes on while everything works, and ends by recording
     the outcome, each error with its cause; it raises exactly when one of its commits was lost.
     */
    method Process(r: Record, now: int, lease: nat) returns (raised: bool)
      requires Fetched(r)
      modifies this, r
      ensures old(r.status).Active() ==> Over(r, raised)
      ensures !old(r.status).Active() ==> !raised && unchanged(this) && unchanged(r)
      ensures old(r.status).Active() && !raised ==>
        var problem := ProfileProblem(old(S()), old(r.ToRow()));
        if problem.Some? then r.path == [Act.Claim(0)] && r.ToRow() == FinishedWith(old(r.ToRow()), problem.value)
        else [Act.Claim(now + lease)] <= r.path
    {
      if !r.status.Active() { return false; }
      var problem := CheckProfile(r);
      if problem.Some? {
        raised := RejectProfile(r, problem.value);
      } else {
        raised := ClaimAndAttempt(r, now, lease);
      }
    }

    method ClaimAndAttempt(r: Record, now: int, lease: nat) returns (raised: bool)
      requires Fetched(r) && r.status.Active() && ProfileProblem(S(), rows[r.id]).None?
      modifies this, r
      ensures Over(r, raised) && (!raised ==> [Act.Claim(now + lease)] <= r.path)
    {
      raised := Begin(r, now, lease);
      if !raised { raised := Attempt(r, now); }
    }

    /** The profile the row was created from must still be its tenant's, and valid. */
    method CheckProfile(r: Record) returns (problem: Option<Code>)
      requires r.id in rows && r.ToRow() == rows[r.id]
      ensures problem == ProfileProblem(S(), rows[r.id])
    {
      if r.origin.profileId !in profiles {
        return Option.Some(ProfileMismatch);
      }
      var profile := profiles[r.origin.profileId];
      if profile.tenant != r.origin.tenant || profile.env != r.origin.env {
        return Option.Some(ProfileMismatch);
      }
      if profile.validation != Valid {
        return Option.Some(ProfileNotValid);
      }
      return Option.None;
    }

    /** A row whose processing raised is set aside for good. */
    method Quarantine(r: Record)
      requires Over(r, true)
      modifies this`rows, this`jobs, r`path
      ensures Reachable(S()) && Path(r.id, r.start, r.path, S()) && r.path == old(r.path) + [GiveUp]
      ensures rows == old(rows)[r.id := QuarantinedRow(old(rows)[r.id])] && jobs == old(jobs) - {r.id}
    {
      ghost var s := S();
      var row := rows[r.id];
      row := row.(status := Quarantined, nextRetry := Option.None, error := Option.Some(WorkerUnexpected));
      rows := rows[r.id := row];
      jobs := jobs - {r.id};
      RowGivenUp(r.start, r.path, s, r.id, S());
      r.path := r.path + [GiveUp];
    }
  }
}
