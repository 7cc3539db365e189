/** The background worker: it repeatedly takes the due row that has waited longest. */
module InvoiceWorker {
  import opened Common
  import opened Traces
  import opened Invoice
  import opened InvoiceMachine
  import opened InvoiceInvariant
  import opened InvoiceSafety
  import opened InvoiceNumbering
  import opened InvoicePath
  import opened InvoiceService

  predicate Due(r: Row, now: int) {
    r.status.Active() && r.nextRetry.Some? && r.nextRetry.value <= now
  }

  /** The worker may take the row: it waits or is under way, its time has come, and the batch has not had it. */
  predicate Takeable(s: State, id: nat, now: int, seen: set<nat>) {
    && id in s.rows && id !in seen && id !in s.jobs && s.rows[id].status in {Pending, Processing, Retrying}
    && s.rows[id].nextRetry.Some? && s.rows[id].nextRetry.value <= now
  }

  /** Order of the queue: retry time, then row id. */
  predicate Before(time: int, id: nat, otherTime: int, otherId: nat) {
    time < otherTime || (time == otherTime && id <= otherId)
  }

  lemma {:induction false} FirstExists(times: map<nat, int>, ids: set<nat>)
    requires ids != {} && ids <= times.Keys
    ensures exists i :: i in ids && forall j :: j in ids ==> Before(times[i], i, times[j], j)
  {
    var x :| x in ids;
    var rest := ids - {x};
    if rest == {} {
      assert ids == {x};
      assert forall j :: j in ids ==> Before(times[x], x, times[j], j);
    } else {
      FirstExists(times, rest);
      var i :| i in rest && forall j :: j in rest ==> Before(times[i], i, times[j], j);
      var first := if Before(times[x], x, times[i], i) then x else i;
      assert forall j :: j in ids ==> j == x || j in rest;
      assert forall j :: j in ids ==> Before(times[first], first, times[j], j);
    }
  }

  /** A due row that nobody works on and that the batch has not handled. */
  predicate Candidate(s: State, id: nat, now: int, seen: set<nat>) {
    id in s.rows && Due(s.rows[id], now) && id !in s.jobs && id !in seen
  }

  /** The candidate that the query returns. */
  ghost predicate First(s: State, id: nat, now: int, seen: set<nat>) {
    && Candidate(s, id, now, seen)
    && forall j :: Candidate(s, j, now, seen) ==>
         Before(s.rows[id].nextRetry.value, id, s.rows[j].nextRetry.value, j)
  }

  /** No row that is due and free is left. */
  ghost predicate Drained(s: State, now: int, seen: set<nat>) {
    forall id :: !Candidate(s, id, now, seen)
  }

  /** What a batch did with one row: the states around it, its acts, and the worker's commits and questions. */
  datatype Handling = Handling(
    id: nat, before: State, after: State, acts: seq<Act>, raised: bool,
    commits0: nat, commits1: nat, asked0: nat, asked1: nat)

  /** The row is left alone by workers for now, or for good. */
  predicate Released(s: State, id: nat) {
    && id in s.rows && id !in s.jobs
    && !s.rows[id].status.Pending? && !s.rows[id].status.Processing? && !s.rows[id].status.ReceiverRequired?
  }

  /**
   One whole attempt on the row: it starts with the claim, every act but the last went well,
   and the last recorded an outcome that has its cause or, exactly if a commit was lost, set
   the row aside. Others may have acted in between.
   */
  ghost predicate HandledWell(h: Handling, outage: nat -> bool, trouble: nat -> Trouble) {
    && Reachable(h.before) && Reachable(h.after) && Path(h.id, h.before, h.acts, h.after) && Released(h.after, h.id)
    && |h.acts| > 0 && AllPlain(h.acts[..|h.acts| - 1])
    && (h.raised <==> LostIn(outage, h.commits0, h.commits1))
    && var end := h.acts[|h.acts| - 1];
      if h.raised then
        end.GiveUp? && h.after.rows[h.id].status.Quarantined?
      else
        h.acts[0].Claim? && Cause(trouble, h.asked0, h.asked1, IssuedToItself(h.after, h.id), end)
  }

  function Ids(log: seq<Handling>): set<nat> {
    set i | 0 <= i < |log| :: log[i].id
  }

  /** Where the machine stood after a prefix of the batch. */
  function Reached(start: State, log: seq<Handling>): State {
    if log == [] then start else log[|log| - 1].after
  }

  /** From where the batch stood, the row was the first due one not yet handled, and it was handled whole. */
  ghost predicate Follows(stood: State, seen: set<nat>, h: Handling, now: int, outage: nat -> bool,
                          trouble: nat -> Trouble) {
    Reaches(Next, stood, h.before) && First(h.before, h.id, now, seen) && HandledWell(h, outage, trouble)
  }

  ghost predicate Batch(start: State, log: seq<Handling>, clock: nat -> int, outage: nat -> bool,
                        trouble: nat -> Trouble) {
    log == [] ||
    var k := |log| - 1;
    && Batch(start, log[..k], clock, outage, trouble)
    && Follows(Reached(start, log[..k]), Ids(log[..k]), log[k], clock(k), outage, trouble)
  }

  lemma BatchGrows(start: State, log: seq<Handling>, h: Handling, clock: nat -> int, outage: nat -> bool,
                   trouble: nat -> Trouble)
    requires Batch(start, log, clock, outage, trouble)
    requires Follows(Reached(start, log), Ids(log), h, clock(|log|), outage, trouble)
    ensures Batch(start, log + [h], clock, outage, trouble) && Ids(log + [h]) == Ids(log) + {h.id}
  {
    assert (log + [h])[..|log|] == log;
    IdsGrow(log, h);
  }

  lemma IdsGrow(log: seq<Handling>, h: Handling)
    ensures Ids(log + [h]) == Ids(log) + {h.id}
  {
    var grown := log + [h];
    assert grown[|log|] == h;
    assert forall i :: 0 <= i < |log| ==> grown[i] == log[i];
    assert forall x :: x in Ids(log) ==> x in Ids(grown) by {
      forall x | x in Ids(log) ensures x in Ids(grown) {
        var i :| 0 <= i < |log| && log[i].id == x;
        assert grown[i].id == x;
      }
    }
  }

  predicate NoneTwice(log: seq<Handling>) {
    forall i, j :: 0 <= i < j < |log| ==> log[i].id != log[j].id
  }

  lemma NoneTwiceGrows(log: seq<Handling>, h: Handling)
    requires NoneTwice(log) && h.id !in Ids(log)
    ensures NoneTwice(log + [h])
  {
    forall i | 0 <= i < |log| ensures log[i].id != h.id { assert log[i].id in Ids(log); }
  }

  class ArcaInvoiceWorker {
    const db: Platform
    const batchSize: nat

    constructor (db: Platform, batchSize: nat)
      ensures this.db == db && this.batchSize == batchSize
    {
      this.db, this.batchSize := db, batchSize;
    }

    /** The first due row that nobody is working on and that this batch has not seen. */
    method SelectDue(now: int, seen: set<nat>) returns (found: Option<nat>)
      requires Reachable(db.S())
      ensures found.Some? ==> First(db.S(), found.value, now, seen)
      ensures found.None? ==> Drained(db.S(), now, seen)
      ensures found.None? <==> forall id :: !Takeable(db.S(), id, now, seen)
      ensures found.Some? ==>
        && Takeable(db.S(), found.value, now, seen)
        && forall id :: Takeable(db.S(), id, now, seen) ==>
             var first, other := db.rows[found.value].nextRetry.value, db.rows[id].nextRetry.value;
             first < other || (first == other && found.value <= id)
    {
      var due := set j | j in db.rows && Due(db.rows[j], now) && j !in seen && j !in db.jobs;
      assert forall j :: Candidate(db.S(), j, now, seen) <==> j in due;
      assert forall j :: Takeable(db.S(), j, now, seen) <==> Candidate(db.S(), j, now, seen);
      if due == {} {
        return None;
      }
      var times := map j | j in due :: db.rows[j].nextRetry.value;
      FirstExists(times, due);
      var id :| id in due && forall j :: j in due ==> Before(times[id], id, times[j], j);
      return Some(id);
    }

    /**
     One batch. `clock` is what the clock reads at each selection. Each row handled was the
     first due one not yet handled, and is handled whole; the batch stops early only when at
     its last reading no due row is left that it has not handled.
     */
    method RunOnce(clock: nat -> int, lease: nat) returns (processed: nat, ghost log: seq<Handling>)
      requires Reachable(db.S())
      modifies db
      ensures Batch(old(db.S()), log, clock, db.outage, db.trouble)
      ensures Reaches(Next, Reached(old(db.S()), log), db.S()) && Reachable(db.S())
      ensures processed == |log| <= batchSize && NoneTwice(log)
      ensures processed < batchSize ==> Drained(db.S(), clock(processed), Ids(log))
    {
      ghost var s0 := db.S();
      ReachesSelf(Next, s0);
      processed, log := 0, [];
      var seen: set<nat> := {};
      var found := true;
      while processed < batchSize && found
        invariant Reachable(db.S()) && processed == |log| <= batchSize && seen == Ids(log) && NoneTwice(log)
        invariant Batch(s0, log, clock, db.outage, db.trouble) && Reaches(Next, Reached(s0, log), db.S())
        invariant !found ==> Drained(db.S(), clock(processed), Ids(log))
        decreases batchSize - processed, found
      {
        found, seen, log := HandleNext(s0, log, seen, clock, clock(processed), lease);
        if found { processed := processed + 1; }
      }
    }

    /** One turn of the loop: some time later, the next row is handled, or there is none. */
    method HandleNext(ghost s0: State, ghost log: seq<Handling>, seen: set<nat>, ghost clock: nat -> int,
                      now: int, lease: nat)
      returns (found: bool, seen': set<nat>, ghost log': seq<Handling>)
      requires Reachable(db.S()) && seen == Ids(log) && NoneTwice(log) && now == clock(|log|)
      requires Batch(s0, log, clock, db.outage, db.trouble) && Reaches(Next, Reached(s0, log), db.S())
      modifies db
      ensures Reachable(db.S()) && seen' == Ids(log') && NoneTwice(log')
      ensures Batch(s0, log', clock, db.outage, db.trouble) && Reaches(Next, Reached(s0, log'), db.S())
      ensures if found then |log'| == |log| + 1 else log' == log && Drained(db.S(), clock(|log|), Ids(log))
    {
      ghost var s := db.S();
      db.Idle();
      ReachesReachable(s, db.S());
      ReachesFurther(Next, Reached(s0, log), s, db.S());
      var next := SelectDue(now, seen);
      if next.None? { return false, seen, log; }
      ghost var h := HandleOne(next.value, now, lease);
      NoneTwiceGrows(log, h);
      BatchGrows(s0, log, h, clock, db.outage, db.trouble);
      ReachesSelf(Next, db.S());
      return true, seen + {next.value}, log + [h];
    }

    /** Processes one row, and sets it aside if that raised. */
    method HandleOne(id: nat, now: int, lease: nat) returns (ghost h: Handling)
      requires Reachable(db.S()) && id in db.rows && id !in db.jobs && db.rows[id].status.Active()
      modifies db
      ensures h.id == id && h.before == old(db.S()) && h.after == db.S()
      ensures h.commits0 == old(db.commits) && h.commits1 == db.commits && h.asked0 == old(db.asked)
        && h.asked1 == db.asked
      ensures HandledWell(h, db.outage, db.trouble)
    {
      ghost var s := db.S();
      var record := new Record(id, db.rows[id], s, db.commits, db.asked);
      var raised := db.Process(record, now, lease);
      PathReaches(id, s, record.path, db.S());
      StaysIdentified(s, db.S(), id);
      ghost var path := record.path;
      if raised { db.Quarantine(record); }
      h := Handling(id, s, db.S(), record.path, raised, record.commits0, db.commits, record.asked0, db.asked);
      if raised { SetAside(h, path, db.outage, db.trouble); } else { Recorded(db, record, h); }
    }
  }

  lemma Recorded(db: Platform, r: Record, h: Handling)
    requires Reachable(r.start) && db.Over(r, false) && Released(db.S(), r.id) && r.path[0].Claim?
    requires h == Handling(r.id, r.start, db.S(), r.path, false, r.commits0, db.commits, r.asked0, db.asked)
    ensures HandledWell(h, db.outage, db.trouble)
  {
  }

  lemma SetAside(h: Handling, path: seq<Act>, outage: nat -> bool, trouble: nat -> Trouble)
    requires h.raised && Reachable(h.before) && Reachable(h.after) && Path(h.id, h.before, h.acts, h.after)
    requires h.acts == path + [GiveUp] && AllPlain(path) && LostIn(outage, h.commits0, h.commits1)
    requires Released(h.after, h.id) && h.after.rows[h.id].status.Quarantined?
    ensures HandledWell(h, outage, trouble)
  {
    assert h.acts[..|h.acts| - 1] == path;
  }

  lemma ReachesReachable(s: State, t: State)
    requires Reachable(s) && Reaches(Next, s, t)
    ensures Reachable(t)
  {
    forall a, st, b | Reachable(a) && Next(a, st, b) ensures Reachable(b) { ReachableNext(a, st, b); }
    ReachesInvariant(Next, Reachable, s, t);
  }

  /** A row past its identification never waits for its receiver again. */
  lemma StaysIdentified(s: State, t: State, id: nat)
    requires Reachable(s) && Reaches(Next, s, t) && id in s.rows && s.rows[id].status.Active()
    ensures id in t.rows && !t.rows[id].status.ReceiverRequired?
  {
    var kept := (x: State) => Reachable(x) && id in x.rows && !x.rows[id].status.ReceiverRequired?;
    forall a, st, b | kept(a) && Next(a, st, b) ensures kept(b) {
      ReachableInv(a);
      ReachableNext(a, st, b);
      RowPersists(a, st, b, id);
    }
    ReachesInvariant(Next, kept, s, t);
  }
}
