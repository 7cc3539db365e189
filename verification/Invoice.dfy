/**
 One invoice row and what the service assigns to it. The functions here are the row
 updates of `InvoiceService`; which of them may happen when is `InvoiceMachine`.
 */
module Invoice {
  import opened Common
  import opened Vat

  datatype Environment = Development | Production

  /** ARCA numbers vouchers separately for each of these. */
  datatype Sequence = Sequence(env: Environment, cuit: string, pointOfSale: nat, voucherType: nat)

  /** The configuration of a fiscal profile that an invoice copies when it is created. */
  datatype Config = Config(cuit: string, pointOfSale: nat, voucherType: nat, concept: nat, vatRate: Rate, vatId: nat)

  datatype Receiver = Receiver(docType: nat, docNumber: string, ivaCondition: nat) {
    /** The anonymous final consumer. */
    predicate Generic() {
      docType == 99 && (docNumber == "0" || docNumber == "")
    }
  }

  datatype Request = Request(
    externalId: string, sale: Option<string>, actor: Option<string>, receiver: Receiver,
    invoiceDate: int, serviceDates: Option<(int, int, int)>, lines: seq<Line>)

  /** The request hash, taken as injective: it is represented by what is hashed. */
  datatype Fingerprint = Fingerprint(env: Environment, number: Option<nat>, request: Request)

  datatype Status =
    | ReceiverRequired | ServiceDatesRequired
    | Pending | Processing | Retrying
    | Approved | Rejected | Failed | Quarantined
  {
    /** A worker may still pick the row up. */
    predicate Active() { Pending? || Processing? || Retrying? }

    predicate NonTerminal() { Active() || ReceiverRequired? || ServiceDatesRequired? }
  }

  datatype Code =
    | ArcaTimeout | ArcaUnavailable | ArcaAuth | ArcaRejected | NotFound
    | SequenceBusy | CorrelativeConflict | ProfileMismatch | ProfileNotValid
    | IdentificationRequired | WorkerUnexpected
  {
    predicate Retryable() { ArcaTimeout? || ArcaUnavailable? || SequenceBusy? }

    /** What the classification of a remote failure can answer. */
    predicate Remote() { ArcaTimeout? || ArcaUnavailable? || ArcaAuth? || ArcaRejected? || NotFound? }
  }

  datatype Row = Row(
    tenant: string, env: Environment, profileId: nat, config: Config,
    externalId: string, sale: Option<string>, amounts: Amounts,
    request: Request, hash: Fingerprint, receiver: Receiver,
    number: Option<nat>, explicit: bool,
    status: Status, attempts: nat, nextRetry: Option<int>, error: Option<Code>, cae: Option<string>)
  {
    function Key(): Sequence {
      Sequence(env, config.cuit, config.pointOfSale, config.voucherType)
    }
  }

  const MAX_ATTEMPTS: nat := 5
  const RETRY_DELAYS_MINUTES: seq<nat> := [0, 1, 10, 30, 60]

  /** A first attempt is starting: the row is leased to this worker. */
  function Claimed(r: Row, leaseUntil: int): Row {
    r.(status := Processing, attempts := r.attempts + 1, nextRetry := Some(leaseUntil))
  }

  function ApprovedWith(r: Row, cae: string): Row {
    r.(status := Approved, cae := Some(cae), error := None, nextRetry := None)
  }

  function FinishedWith(r: Row, code: Code): Row {
    r.(status := if code == ArcaRejected || code == CorrelativeConflict then Rejected else Failed,
       error := Some(code), nextRetry := None)
  }

  /** A failure that may be retried, on the schedule and up to the bound. */
  function HandledError(r: Row, code: Code, now: int): Row {
    if code.Retryable() && r.attempts < MAX_ATTEMPTS then
      r.(status := Retrying, error := Some(code),
         nextRetry := Some(now + 60 * RETRY_DELAYS_MINUTES[r.attempts]))
    else
      r.(status := if code.Retryable() then Failed else Rejected, error := Some(code), nextRetry := None)
  }

  function QuarantinedRow(r: Row): Row {
    r.(status := Quarantined, nextRetry := None, error := Some(WorkerUnexpected))
  }

  /** The receiver of a stored request is completed and the row is released to the workers. */
  function Resumed(r: Row, receiver: Receiver, number: nat, now: int): Row {
    var request := r.request.(receiver := receiver);
    r.(request := request, hash := Fingerprint(r.env, Some(number), request), receiver := receiver,
       number := Some(number), explicit := true, status := Pending, nextRetry := Some(now), error := None)
  }

  /** A new row for a request, from the profile's configuration. */
  function Fresh(tenant: string, env: Environment, profileId: nat, config: Config, request: Request,
                 number: Option<nat>, now: int, threshold: int): Row
  {
    var amounts := AmountsOf(request.lines, config.vatRate);
    var missing := amounts.total >= threshold && request.receiver.Generic();
    Row(tenant, env, profileId, config, request.externalId, request.sale, amounts,
        request, Fingerprint(env, number, request), request.receiver,
        number, number.Some?,
        if missing then ReceiverRequired else Pending, 0,
        if missing then None else Some(now),
        if missing then Some(IdentificationRequired) else None, None)
  }

  // ----- What is true of every row at all times -----

  /**
   Retry bookkeeping: a retry time is set exactly while the row is active, the attempt
   count matches the status (so the delay index is in range), and only an approved row
   holds a CAE.
   */
  predicate RetryOk(r: Row) {
    && (r.nextRetry.Some? <==> r.status.Active())
    && (r.status.Pending? || r.status.ReceiverRequired? ==> r.attempts == 0)
    && (r.status.Retrying? ==> 1 <= r.attempts <= 4)
    && (r.status.Processing? || r.status.Approved? ==> r.attempts >= 1)
    && (r.cae.Some? <==> r.status.Approved?)
    && !r.status.ServiceDatesRequired?
  }

  /** The columns of the row agree with the request stored in it. */
  predicate RequestOk(r: Row) {
    && r.hash == Fingerprint(r.env, if r.explicit then r.number else None, r.request)
    && r.receiver == r.request.receiver
    && r.externalId == r.request.externalId && r.sale == r.request.sale
    && r.amounts == AmountsOf(r.request.lines, r.config.vatRate)
    && (r.explicit ==> r.number.Some?)
    && (!r.explicit && (r.status.Pending? || r.status.ReceiverRequired?) ==> r.number.None?)
  }

  /** A row waits for its receiver exactly while it needs one. */
  predicate GateOk(r: Row, threshold: int) {
    r.status.ReceiverRequired? <==> r.amounts.total >= threshold && r.receiver.Generic()
  }

  predicate RowOk(r: Row, threshold: int) {
    RetryOk(r) && RequestOk(r) && GateOk(r, threshold)
  }

  // ----- How a row may change -----

  /** Columns no operation ever assigns again. */
  predicate SameIdentity(r: Row, r': Row) {
    && r'.tenant == r.tenant && r'.env == r.env && r'.profileId == r.profileId && r'.config == r.config
    && r'.externalId == r.externalId && r'.sale == r.sale && r'.amounts == r.amounts
  }

  /** Columns that change only when the receiver is completed. */
  predicate SameRequest(r: Row, r': Row) {
    r'.request == r.request && r'.hash == r.hash && r'.receiver == r.receiver && r'.explicit == r.explicit
  }

  /** The changes one step can make to a committed row. */
  datatype Change =
    | Keep
    | Resume(receiver: Receiver, newNumber: nat, now: int)
    | Claim(leaseUntil: int)
    | Reserve(reserved: nat)
    | Approve(newCae: string)
    | Finish(code: Code)
    | Handle(code: Code, now: int)
    | Quarantine

  /** When the service makes each change, in terms of the row's own columns. */
  predicate Allowed(r: Row, c: Change) {
    match c
    case Keep => true
    case Resume(receiver, _, _) => r.status.ReceiverRequired? && !receiver.Generic()
    case Claim(_) => r.status.Active()
    case Reserve(_) => r.status.Processing? && r.number.None?
    case Approve(_) => r.status.Processing?
    case Finish(_) => r.status.Active()
    case Handle(_, _) => r.status.Processing?
    case Quarantine => r.status.Active()
  }

  function Changed(r: Row, c: Change): Row {
    match c
    case Keep => r
    case Resume(receiver, number, now) => Resumed(r, receiver, number, now)
    case Claim(until) => Claimed(r, until)
    case Reserve(number) => r.(number := Some(number))
    case Approve(cae) => ApprovedWith(r, cae)
    case Finish(code) => FinishedWith(r, code)
    case Handle(code, now) => HandledError(r, code, now)
    case Quarantine => QuarantinedRow(r)
  }

  // ----- Errors -----

  /** Errors that may pass. */
  predicate Transient(code: Code) {
    code in {ArcaTimeout, ArcaUnavailable, SequenceBusy}
  }

  predicate OnlyOutcome(r: Row, r': Row) {
    r' == r.(status := r'.status, error := r'.error, nextRetry := r'.nextRetry)
  }

  /** Minutes until the next attempt after this many. */
  predicate Waits(attempts: nat, minutes: int) {
    (attempts == 1 && minutes == 1) || (attempts == 2 && minutes == 10) || (attempts == 3 && minutes == 30)
    || (attempts == 4 && minutes == 60)
  }

  /** What an error makes of a row. */
  ghost predicate HandledAs(r: Row, r': Row, code: Code, now: int) {
    && OnlyOutcome(r, r') && r'.error == Some(code) && r.attempts >= 1
    && if Transient(code) && r.attempts < 5 then
         && r'.status == Retrying
         && exists minutes :: Waits(r.attempts, minutes) && r'.nextRetry == Some(now + 60 * minutes)
       else
         && r'.nextRetry.None? && (Transient(code) || code in {ArcaAuth, ArcaRejected, NotFound})
         && r'.status == if Transient(code) then Failed else Rejected
  }

  /**
   The schedule of retries, and what ends them: a passing error is retried 1, 10, 30 or 60
   minutes after the first four attempts and fails the row after the fifth; any other error
   rejects it.
   */
  lemma HandlingWaits(r: Row, code: Code, now: int)
    requires r.attempts >= 1 && (Transient(code) || code in {ArcaAuth, ArcaRejected, NotFound})
    ensures HandledAs(r, Changed(r, Change.Handle(code, now)), code, now)
  {
    if r.attempts < 5 {
      var minutes := if r.attempts == 1 then 1 else if r.attempts == 2 then 10 else if r.attempts == 3 then 30 else 60;
      assert Waits(r.attempts, minutes);
    }
  }

  lemma FreshOk(tenant: string, env: Environment, profileId: nat, config: Config, request: Request,
                number: Option<nat>, now: int, threshold: int)
    ensures RowOk(Fresh(tenant, env, profileId, config, request, number, now, threshold), threshold)
  {
  }

  lemma ChangeKeepsRetry(r: Row, c: Change)
    requires RetryOk(r) && Allowed(r, c)
    ensures RetryOk(Changed(r, c))
  {
  }

  lemma ChangeKeepsRequest(r: Row, c: Change)
    requires RetryOk(r) && RequestOk(r) && Allowed(r, c)
    ensures RequestOk(Changed(r, c)) && SameIdentity(r, Changed(r, c))
  {
  }

  lemma ChangeKeepsGate(r: Row, c: Change, threshold: int)
    requires GateOk(r, threshold) && Allowed(r, c)
    ensures GateOk(Changed(r, c), threshold)
  {
  }

  /** Retry bookkeeping, request coherence and the identification gate survive every change. */
  lemma ChangeKeepsOk(r: Row, c: Change, threshold: int)
    requires RowOk(r, threshold) && Allowed(r, c)
    ensures RowOk(Changed(r, c), threshold) && SameIdentity(r, Changed(r, c))
  {
    ChangeKeepsRetry(r, c);
    ChangeKeepsRequest(r, c);
    ChangeKeepsGate(r, c, threshold);
  }

  /** Terminal rows never change; numbers and requests are fixed once the receiver is known. */
  lemma ChangeKeepsNumber(r: Row, c: Change)
    requires Allowed(r, c)
    ensures var r' := Changed(r, c);
      && (!r.status.NonTerminal() ==> r' == r)
      && (!r.status.ReceiverRequired? ==>
            && SameRequest(r, r') && !r'.status.ReceiverRequired?
            && (r.number.Some? ==> r'.number == r.number))
      && r'.attempts >= r.attempts
  {
  }
}
