/**
 Linking, using and unlinking Mercado Pago, step by step and for many tenants at once. An
 authorization is redeemed and committed before its code is exchanged, and the connection
 is saved after the answer, so other steps come in between.
 */
module MercadoPagoMachine {
  import opened Common
  import opened Traces
  import opened Keyring
  import opened MercadoPago

  datatype Stage = Waiting | Granted(token: Token) | Closed

  /** A code exchange: the state it redeemed, and when. */
  datatype Exchange = Exchange(raw: string, tenant: string, verifier: string, redeemed: int, stage: Stage)

  datatype State = State(
    ring: Ring, connections: map<string, Connection>, auths: map<string, AuthState>, exchanges: seq<Exchange>)
  {
    function Of(tenant: string): Option<Connection> {
      if tenant in connections then Some(connections[tenant]) else None
    }
  }

  /** `Abandon` is a request that dies after redeeming its state and before its save, answered or not. */
  datatype Step =
    | Start(tenant: string, raw: string, verifier: string, now: int, ttl: nat)
    | Redeem(raw: string, now: int)
    | Exchanged(k: nat, grant: Grant)
    | Save(k: nat, now: int)
    | Abandon(k: nat)
    | UseToken(tenant: string, now: int, skew: nat, grant: Grant)
    | Unlink(tenant: string, now: int)
    | Reconfigure(ring: Ring)

  predicate Enabled(s: State, st: Step) {
    RingOk(s.ring) &&
    match st
    case Exchanged(k, _) => k < |s.exchanges| && s.exchanges[k].stage.Waiting?
    case Save(k, _) => k < |s.exchanges| && s.exchanges[k].stage.Granted?
    case Abandon(k) => k < |s.exchanges| && !s.exchanges[k].stage.Closed?
    case Reconfigure(ring) => Extends(s.ring, ring)
    case _ => true
  }

  /** Marks every open state of the tenant consumed. */
  function ConsumeAll(auths: map<string, AuthState>, tenant: string, now: int): map<string, AuthState> {
    map raw | raw in auths ::
      if auths[raw].tenant == tenant && auths[raw].consumed.None? then auths[raw].(consumed := Some(now))
      else auths[raw]
  }

  /** `start_authorization`; a repeated state violates its unique index. */
  function Started(s: State, tenant: string, raw: string, verifier: string, now: int, ttl: nat): State
    requires RingOk(s.ring)
  {
    var cipher := Encrypt(s.ring, verifier);
    if cipher.None? || raw in s.auths then s
    else
      var auth := AuthState(tenant, cipher.value, s.ring.active, now + ttl, None);
      s.(auths := ConsumeAll(s.auths, tenant, now)[raw := auth])
  }

  datatype RedeemReply = InvalidState | StateUsed | StateExpired | VerifierLost | Redeemed

  /** `complete_authorization` up to the call. */
  function RedeemState(s: State, raw: string, now: int): (State, RedeemReply) {
    if raw !in s.auths then (s, InvalidState)
    else
      var auth := s.auths[raw];
      if auth.consumed.Some? then (s, StateUsed)
      else if auth.expires <= now then (s.(auths := s.auths[raw := auth.(consumed := Some(now))]), StateExpired)
      else
        var verifier := Decrypt(s.ring, auth.verifier, auth.keyId);
        if verifier.None? then (s, VerifierLost)
        else
          (s.(auths := s.auths[raw := auth.(consumed := Some(now))],
              exchanges := s.exchanges + [Exchange(raw, auth.tenant, verifier.value, now, Waiting)]), Redeemed)
  }

  /** A grant without refresh token or collector links nothing. */
  predicate Renewable(grant: Grant) {
    grant.Answered? && CarriedRefresh(grant.token).Some? && grant.token.user.Some?
  }

  function Saved(s: State, k: nat, now: int): State
    requires RingOk(s.ring) && k < |s.exchanges| && s.exchanges[k].stage.Granted?
  {
    var e := s.exchanges[k];
    var row := Linked(s.ring, s.Of(e.tenant), e.stage.token, now);
    s.(exchanges := s.exchanges[k := e.(stage := Closed)],
       connections := if row.Some? then s.connections[e.tenant := row.value] else s.connections)
  }

  function UnlinkTenant(s: State, tenant: string, now: int): State {
    var connections :=
      if tenant !in s.connections then s.connections
      else s.connections[tenant := UnlinkedRow(s.connections[tenant], now)];
    s.(connections := connections, auths := ConsumeAll(s.auths, tenant, now))
  }

  function Used(s: State, tenant: string, now: int, skew: nat, grant: Grant): State
    requires RingOk(s.ring)
  {
    var (c, _) := AccessToken(s.ring, s.Of(tenant), now, skew, grant);
    if c.Some? then s.(connections := s.connections[tenant := c.value]) else s
  }

  function Apply(s: State, st: Step): State
    requires Enabled(s, st)
  {
    match st
    case Start(tenant, raw, verifier, now, ttl) => Started(s, tenant, raw, verifier, now, ttl)
    case Redeem(raw, now) => RedeemState(s, raw, now).0
    case Exchanged(k, grant) =>
      var e := s.exchanges[k].(stage := if Renewable(grant) then Granted(grant.token) else Closed);
      s.(exchanges := s.exchanges[k := e])
    case Save(k, now) => Saved(s, k, now)
    case Abandon(k) => s.(exchanges := s.exchanges[k := s.exchanges[k].(stage := Closed)])
    case UseToken(tenant, now, skew, grant) => Used(s, tenant, now, skew, grant)
    case Unlink(tenant, now) => UnlinkTenant(s, tenant, now)
    case Reconfigure(ring) => s.(ring := ring)
  }

  predicate Next(s: State, st: Step, t: State) {
    Enabled(s, st) && t == Apply(s, st)
  }

  ghost predicate Init(s: State) {
    RingOk(s.ring) && s.connections == map[] && s.auths == map[] && s.exchanges == []
  }

  // ----- The invariant -----

  ghost predicate KeysCoherent(s: State) {
    && RingOk(s.ring)
    && (forall tenant :: tenant in s.connections ==> Coherent(s.ring, s.connections[tenant]))
    && (forall raw :: raw in s.auths ==> Readable(s.ring, s.auths[raw].verifier, s.auths[raw].keyId))
  }

  ghost predicate OneOpenState(s: State) {
    forall a, b | a in s.auths && b in s.auths && s.auths[a].consumed.None? && s.auths[b].consumed.None? ::
      s.auths[a].tenant == s.auths[b].tenant ==> a == b
  }

  /** Every exchange redeemed its own state, in time, with that state's tenant and verifier. */
  ghost predicate ExchangesOk(s: State) {
    && (forall k :: 0 <= k < |s.exchanges| ==> Redeems(s, s.exchanges[k]))
    && (forall j, k :: 0 <= j < k < |s.exchanges| ==> s.exchanges[j].raw != s.exchanges[k].raw)
  }

  predicate Redeems(s: State, e: Exchange) {
    && e.raw in s.auths && s.auths[e.raw].consumed == Some(e.redeemed) && e.redeemed < s.auths[e.raw].expires
    && e.tenant == s.auths[e.raw].tenant && e.verifier == s.auths[e.raw].verifier.plain
    && (e.stage.Granted? ==> Renewable(Answered(e.stage.token)))
  }

  ghost predicate Inv(s: State) {
    KeysCoherent(s) && OneOpenState(s) && ExchangesOk(s)
  }

  lemma KeysStayCoherent(s: State, st: Step, t: State)
    requires KeysCoherent(s) && Next(s, st, t)
    ensures KeysCoherent(t)
  {
    match st
    case Start(_, _, verifier, _, _) =>
      if Encrypt(s.ring, verifier).Some? { EncryptRoundTrip(s.ring, s.ring, verifier); }
    case Save(k, now) =>
      var e := s.exchanges[k];
      if Linked(s.ring, s.Of(e.tenant), e.stage.token, now).Some? {
        LinkedIsCoherent(s.ring, s.Of(e.tenant), e.stage.token, now);
      }
    case UseToken(tenant, now, skew, grant) => AccessIsCoherent(s.ring, s.Of(tenant), now, skew, grant);
    case Reconfigure(ring) =>
      forall tenant | tenant in s.connections ensures Coherent(ring, s.connections[tenant]) {
        KeysExtended(s.ring, ring, s.connections[tenant]);
      }
    case _ =>
  }

  lemma StatesStaySingle(s: State, st: Step, t: State)
    requires OneOpenState(s) && Next(s, st, t)
    ensures OneOpenState(t)
  {
  }

  /** What is consumed stays consumed, and a state never changes otherwise. */
  lemma StatePersists(s: State, st: Step, t: State, raw: string)
    requires Next(s, st, t) && raw in s.auths
    ensures raw in t.auths
    ensures t.auths[raw] == s.auths[raw] || (s.auths[raw].consumed.None? && t.auths[raw].consumed.Some?
      && t.auths[raw] == s.auths[raw].(consumed := t.auths[raw].consumed))
  {
  }

  lemma ExchangesStayOk(s: State, st: Step, t: State)
    requires KeysCoherent(s) && ExchangesOk(s) && Next(s, st, t)
    ensures ExchangesOk(t)
  {
    forall k | 0 <= k < |t.exchanges| ensures Redeems(t, t.exchanges[k]) {
      if k < |s.exchanges| {
        StatePersists(s, st, t, s.exchanges[k].raw);
      }
    }
  }

  ghost predicate IsRun(states: seq<State>, steps: seq<Step>) {
    IsTrace(Next, states, steps) && Init(states[0])
  }

  lemma RunsAreSound(states: seq<State>, steps: seq<Step>, i: nat)
    requires IsRun(states, steps) && i < |states|
    ensures Inv(states[i])
  {
    forall s, st, t | Inv(s) && Next(s, st, t) ensures Inv(t) {
      KeysStayCoherent(s, st, t);
      StatesStaySingle(s, st, t);
      ExchangesStayOk(s, st, t);
    }
    InvariantHolds(Next, Inv, states, steps);
  }

  // ----- Keys and tokens -----

  /**
   In every run that retires no key, each ciphertext of a connection and each stored
   verifier opens under the key identifier stored beside it; a tenant is connected exactly
   when its row is active, and an unlinked row holds no secret.
   */
  lemma TokensAlwaysOpen(states: seq<State>, steps: seq<Step>, i: nat, tenant: string, raw: string)
    requires IsRun(states, steps) && i < |states|
    ensures RingOk(states[i].ring)
    ensures tenant in states[i].connections ==>
      var c := states[i].connections[tenant];
      && (c.access.Some? ==> AccessPlain(states[i].ring, c).Some?)
      && (c.refresh.Some? ==> RefreshPlain(states[i].ring, c).Some?)
      && (IsConnected(Some(c)) <==> c.status.Active?)
      && (c.status.Unlinked? ==> c.access.None? && c.refresh.None?)
    ensures raw in states[i].auths ==>
      Decrypt(states[i].ring, states[i].auths[raw].verifier, states[i].auths[raw].keyId).Some?
  {
    RunsAreSound(states, steps, i);
  }

  /** The step neither unlinks the tenant nor brings it a refresh token. */
  predicate KeepsRefresh(s: State, st: Step, tenant: string) {
    match st
    case Save(k, _) => k < |s.exchanges| && s.exchanges[k].tenant != tenant
    case UseToken(other, _, _, grant) => other == tenant && grant.Answered? ==> CarriedRefresh(grant.token).None?
    case Unlink(other, _) => other != tenant
    case _ => true
  }

  lemma StepKeepsRefresh(s: State, st: Step, t: State, tenant: string)
    requires KeysCoherent(s) && Next(s, st, t) && tenant in s.connections && KeepsRefresh(s, st, tenant)
    ensures tenant in t.connections
      && RefreshPlain(t.ring, t.connections[tenant]) == RefreshPlain(s.ring, s.connections[tenant])
  {
    match st
    case UseToken(other, now, skew, grant) =>
      if other == tenant && grant.Answered? { TokenApplied(s.ring, s.connections[tenant], grant.token, now); }
    case Reconfigure(ring) => KeysExtended(s.ring, ring, s.connections[tenant]);
    case _ =>
  }

  /**
   The refresh token survives, in clear, any run of refreshes that omit it, failed refreshes
   and key changes; each refresh re-encrypts it under the key that is then active.
   */
  lemma {:induction false} RefreshTokenSurvives(states: seq<State>, steps: seq<Step>, i: nat, j: nat, tenant: string)
    requires IsRun(states, steps) && i <= j < |states| && tenant in states[i].connections
    requires forall m :: i <= m < j ==> KeepsRefresh(states[m], steps[m], tenant)
    ensures tenant in states[j].connections
    ensures RefreshPlain(states[j].ring, states[j].connections[tenant]) ==
      RefreshPlain(states[i].ring, states[i].connections[tenant])
    decreases j - i
  {
    if i < j {
      RunsAreSound(states, steps, i);
      assert Next(states[i], steps[i], states[i + 1]);
      StepKeepsRefresh(states[i], steps[i], states[i + 1], tenant);
      RefreshTokenSurvives(states, steps, i + 1, j, tenant);
    }
  }

  // ----- Authorization states -----

  lemma {:induction false} AuthPersists(states: seq<State>, steps: seq<Step>, i: nat, j: nat, raw: string)
    requires IsTrace(Next, states, steps) && i <= j < |states| && raw in states[i].auths
    ensures raw in states[j].auths
    ensures states[i].auths[raw].consumed.Some? ==> states[j].auths[raw] == states[i].auths[raw]
    decreases j - i
  {
    if i < j {
      assert Next(states[i], steps[i], states[i + 1]);
      StatePersists(states[i], steps[i], states[i + 1], raw);
      AuthPersists(states, steps, i + 1, j, raw);
    }
  }

  /**
   Single use. In every state of every run each authorization state has triggered at most
   one code exchange, before it expired; consumption is permanent; and a tenant has at most
   one state that is still open.
   */
  lemma SingleUse(states: seq<State>, steps: seq<Step>, i: nat, j: nat)
    requires IsRun(states, steps) && i <= j < |states|
    ensures forall k, m :: 0 <= k < m < |states[i].exchanges| ==>
      states[i].exchanges[k].raw != states[i].exchanges[m].raw
    ensures forall k :: 0 <= k < |states[i].exchanges| ==>
      var e := states[i].exchanges[k];
      && e.raw in states[i].auths && states[i].auths[e.raw].consumed == Some(e.redeemed)
      && e.redeemed < states[i].auths[e.raw].expires
    ensures forall raw :: raw in states[i].auths && states[i].auths[raw].consumed.Some? ==>
      raw in states[j].auths && states[j].auths[raw] == states[i].auths[raw]
    ensures OneOpenState(states[i])
  {
    RunsAreSound(states, steps, i);
    forall raw | raw in states[i].auths && states[i].auths[raw].consumed.Some?
      ensures raw in states[j].auths && states[j].auths[raw] == states[i].auths[raw]
    {
      AuthPersists(states, steps, i, j, raw);
    }
  }

  /** Redeeming starts an exchange exactly for a known, open, unexpired state; the stored verifier is never lost. */
  lemma RedeemExactly(states: seq<State>, steps: seq<Step>, i: nat, raw: string, now: int)
    requires IsRun(states, steps) && i < |states|
    ensures var s := states[i]; var (t, reply) := RedeemState(s, raw, now);
      && reply != VerifierLost
      && (reply == Redeemed <==> raw in s.auths && s.auths[raw].consumed.None? && now < s.auths[raw].expires)
      && (|t.exchanges| > |s.exchanges| <==> reply == Redeemed)
      && (raw in s.auths <==> raw in t.auths && t.auths[raw].consumed.Some?)
      && (reply == InvalidState <==> raw !in s.auths)
      && (reply == StateUsed <==> raw in s.auths && s.auths[raw].consumed.Some?)
      && (reply == StateExpired <==>
            raw in s.auths && s.auths[raw].consumed.None? && s.auths[raw].expires <= now)
      && (reply in {StateExpired, Redeemed} ==> t.auths == s.auths[raw := s.auths[raw].(consumed := Some(now))])
      && (reply in {InvalidState, StateUsed} ==> t == s)
  {
    RunsAreSound(states, steps, i);
  }

  /** The step concerns the state: it starts or unlinks its tenant, or redeems it. */
  predicate Uses(s: State, st: Step, raw: string) {
    raw in s.auths &&
    match st
    case Start(tenant, _, _, _, _) => tenant == s.auths[raw].tenant
    case Unlink(tenant, _) => tenant == s.auths[raw].tenant
    case Redeem(other, _) => other == raw
    case _ => false
  }

  /**
   A state stays open. Whatever other tenants do, and whatever happens to connections and
   keys, an open state is untouched until its own tenant starts again or unlinks, or it is
   redeemed; so it can be redeemed at any time before it expires, with its verifier.
   */
  lemma {:induction false} OpenUntilUsed(states: seq<State>, steps: seq<Step>, i: nat, j: nat, raw: string)
    requires IsRun(states, steps) && i <= j < |states| && raw in states[i].auths
    requires forall m :: i <= m < j ==> !Uses(states[m], steps[m], raw)
    ensures raw in states[j].auths && states[j].auths[raw] == states[i].auths[raw]
    ensures forall now: int ::
      RedeemState(states[j], raw, now).1 == Redeemed <==>
      states[i].auths[raw].consumed.None? && now < states[i].auths[raw].expires
    decreases j - i
  {
    if i < j {
      assert Next(states[i], steps[i], states[i + 1]);
      UnusedStays(states[i], steps[i], states[i + 1], raw);
      OpenUntilUsed(states, steps, i + 1, j, raw);
    } else {
      forall now: int
        ensures RedeemState(states[j], raw, now).1 == Redeemed <==>
          states[i].auths[raw].consumed.None? && now < states[i].auths[raw].expires
      {
        RedeemExactly(states, steps, j, raw, now);
      }
    }
  }

  lemma UnusedStays(s: State, st: Step, t: State, raw: string)
    requires Next(s, st, t) && raw in s.auths && !Uses(s, st, raw)
    ensures raw in t.auths && t.auths[raw] == s.auths[raw]
  {
  }

  /** Only the tenant's own steps change its connection. */
  lemma ConnectionIsOwn(s: State, st: Step, t: State, tenant: string)
    requires Next(s, st, t)
    requires match st
      case Save(k, _) => s.exchanges[k].tenant != tenant
      case UseToken(other, _, _, _) => other != tenant
      case Unlink(other, _) => other != tenant
      case _ => true
    ensures t.Of(tenant) == s.Of(tenant)
  {
  }

  /** What a start leaves: its own state, open for exactly the time to live, and none before it. */
  lemma StartOpens(s: State, tenant: string, raw: string, verifier: string, now: int, ttl: nat, t: State)
    requires Next(s, Start(tenant, raw, verifier, now, ttl), t) && raw !in s.auths && Strip(verifier) != ""
    ensures t.auths.Keys == s.auths.Keys + {raw}
    ensures var auth := t.auths[raw];
      && auth.tenant == tenant && auth.consumed.None? && auth.expires == now + ttl
      && Decrypt(s.ring, auth.verifier, auth.keyId) == Some(Strip(verifier))
    ensures forall other :: other in s.auths && s.auths[other].tenant == tenant ==>
      t.auths[other].consumed == if s.auths[other].consumed.None? then Some(now) else s.auths[other].consumed
    ensures forall other :: other in s.auths && s.auths[other].tenant != tenant ==> t.auths[other] == s.auths[other]
  {
    EncryptRoundTrip(s.ring, s.ring, verifier);
  }

  /** What an unlink leaves of the tenant's row. */
  lemma UnlinkClears(s: State, tenant: string, now: int, t: State)
    requires Next(s, Unlink(tenant, now), t)
    ensures tenant in t.connections <==> tenant in s.connections
    ensures tenant in t.connections ==>
      var c := t.connections[tenant];
      && c.access.None? && c.refresh.None? && c.keyId.None? && c.expires.None? && c.status.Unlinked?
      && c.disconnected == Some(now) && c.lastError.None? && c.collector == s.connections[tenant].collector
    ensures forall raw :: raw in s.auths && s.auths[raw].tenant == tenant ==>
      raw in t.auths
      && t.auths[raw].consumed == if s.auths[raw].consumed.None? then Some(now) else s.auths[raw].consumed
  {
  }

  /** This step created the state, with this verifier. */
  predicate Creates(st: Step, raw: string, auth: AuthState) {
    && st.Start? && st.raw == raw && st.tenant == auth.tenant
    && auth.verifier.plain == Strip(st.verifier) && auth.expires == st.now + st.ttl
  }

  lemma {:induction false} StateWasStarted(states: seq<State>, steps: seq<Step>, i: nat, raw: string)
    requires IsRun(states, steps) && i < |states| && raw in states[i].auths
    ensures exists m :: 0 <= m < i && Creates(steps[m], raw, states[i].auths[raw])
  {
    assert Next(states[i - 1], steps[i - 1], states[i]);
    if raw in states[i - 1].auths {
      StateWasStarted(states, steps, i - 1, raw);
      var m :| 0 <= m < i - 1 && Creates(steps[m], raw, states[i - 1].auths[raw]);
      StatePersists(states[i - 1], steps[i - 1], states[i], raw);
      assert Creates(steps[m], raw, states[i].auths[raw]);
    } else {
      assert Creates(steps[i - 1], raw, states[i].auths[raw]);
    }
  }

  /**
   The proof key. Each exchange sends the verifier generated by the very start that created
   its state, links the tenant that started it, and was redeemed before the state expired.
   */
  lemma VerifierIsItsOwn(states: seq<State>, steps: seq<Step>, i: nat, k: nat)
    requires IsRun(states, steps) && i < |states| && k < |states[i].exchanges|
    ensures var e := states[i].exchanges[k];
      exists m :: 0 <= m < i && steps[m].Start? && steps[m].raw == e.raw && steps[m].tenant == e.tenant
        && e.verifier == Strip(steps[m].verifier) && e.redeemed < steps[m].now + steps[m].ttl
  {
    RunsAreSound(states, steps, i);
    var e := states[i].exchanges[k];
    StateWasStarted(states, steps, i, e.raw);
    var m :| 0 <= m < i && Creates(steps[m], e.raw, states[i].auths[e.raw]);
    assert steps[m].Start?;
  }

  // ----- After unlinking -----

  /** The exchange can link nobody any more: it ended, or its answer carries a blank secret. */
  predicate Spent(e: Exchange) {
    e.stage.Closed? || (e.stage.Granted? && Blank(e.stage.token))
  }

  predicate NothingInFlight(s: State, tenant: string) {
    forall k :: 0 <= k < |s.exchanges| && s.exchanges[k].tenant == tenant ==> Spent(s.exchanges[k])
  }

  /** Nothing can link the tenant without a new authorization. */
  ghost predicate Severed(s: State, tenant: string) {
    && (tenant in s.connections ==> s.connections[tenant].status.Unlinked?)
    && NothingInFlight(s, tenant)
    && (forall raw :: raw in s.auths && s.auths[raw].tenant == tenant ==> s.auths[raw].consumed.Some?)
  }

  lemma StepKeepsSevered(s: State, st: Step, t: State, tenant: string)
    requires Next(s, st, t) && Severed(s, tenant) && !(st.Start? && st.tenant == tenant)
    ensures Severed(t, tenant)
  {
  }

  /** Steps among which the tenant starts no authorization. */
  ghost function NotStarting(tenant: string): (State, Step, State) -> bool {
    (s: State, st: Step, t: State) => Next(s, st, t) && !(st.Start? && st.tenant == tenant)
  }

  /** Without a new authorization the tenant is never connected again. */
  ghost predicate StaysUnlinked(s: State, tenant: string) {
    forall t: State :: Reaches(NotStarting(tenant), s, t) ==> !IsConnected(t.Of(tenant))
  }

  lemma SeveredForGood(s: State, tenant: string)
    requires Severed(s, tenant)
    ensures StaysUnlinked(s, tenant)
  {
    var severed := (x: State) => Severed(x, tenant);
    forall t: State | Reaches(NotStarting(tenant), s, t) ensures !IsConnected(t.Of(tenant)) {
      forall a, st, b | severed(a) && NotStarting(tenant)(a, st, b) ensures severed(b) {
        StepKeepsSevered(a, st, b, tenant);
      }
      ReachesInvariant(NotStarting(tenant), severed, s, t);
    }
  }

  /** Saving a good answer links the tenant. */
  lemma GrantedLinks(s: State, k: nat, now: int)
    requires RingOk(s.ring) && k < |s.exchanges| && s.exchanges[k].stage.Granted? && !Blank(s.exchanges[k].stage.token)
    requires var tenant := s.exchanges[k].tenant;
      tenant in s.connections ==> s.connections[tenant].access.None? && s.connections[tenant].refresh.None?
    ensures Next(s, Save(k, now), Apply(s, Save(k, now)))
    ensures IsConnected(Apply(s, Save(k, now)).Of(s.exchanges[k].tenant))
  {
    var c := s.Of(s.exchanges[k].tenant);
    TokenApplied(s.ring, if c.Some? then c.value else NEW_CONNECTION, s.exchanges[k].stage.token, now);
  }

  /** An exchange that still waits can be answered well. */
  lemma WaitingIsGranted(s: State, k: nat) returns (st: Step)
    requires RingOk(s.ring) && k < |s.exchanges| && s.exchanges[k].stage.Waiting?
    ensures Enabled(s, st) && st.Exchanged?
    ensures var t := Apply(s, st);
      && t.ring == s.ring && t.connections == s.connections && k < |t.exchanges|
      && t.exchanges[k].tenant == s.exchanges[k].tenant
      && t.exchanges[k].stage.Granted? && !Blank(t.exchanges[k].stage.token)
  {
    assert Clean("access") && Clean("refresh");
    st := Exchanged(k, Answered(Token("access", Some("refresh"), 1, Some("collector"))));
  }

  lemma LiveExchangeLinks(s: State, k: nat)
    requires RingOk(s.ring) && k < |s.exchanges| && !Spent(s.exchanges[k])
    requires var tenant := s.exchanges[k].tenant;
      tenant in s.connections ==> s.connections[tenant].access.None? && s.connections[tenant].refresh.None?
    ensures !StaysUnlinked(s, s.exchanges[k].tenant)
  {
    var tenant := s.exchanges[k].tenant;
    ReachesSelf(NotStarting(tenant), s);
    var granted := s;
    if s.exchanges[k].stage.Waiting? {
      var st := WaitingIsGranted(s, k);
      granted := Apply(s, st);
      ReachesThen(NotStarting(tenant), s, s, st, granted);
    }
    GrantedLinks(granted, k, 0);
    ReachesThen(NotStarting(tenant), s, granted, Save(k, 0), Apply(granted, Save(k, 0)));
  }

  /**
   Exactly when unlinking holds. After an unlink the tenant stays unlinked until it starts a
   new authorization if and only if, at the unlink, each of its exchanges had ended (its request done or dead)
   or had been answered with a blank secret. Any other exchange in flight may link it again.
   */
  lemma UnlinkHoldsUnlessInFlight(states: seq<State>, steps: seq<Step>, i: nat, tenant: string, now: int)
    requires IsRun(states, steps) && i < |states|
    ensures Enabled(states[i], Unlink(tenant, now))
    ensures StaysUnlinked(Apply(states[i], Unlink(tenant, now)), tenant) <==> NothingInFlight(states[i], tenant)
  {
    RunsAreSound(states, steps, i);
    var s := Apply(states[i], Unlink(tenant, now));
    if NothingInFlight(states[i], tenant) {
      SeveredForGood(s, tenant);
    } else {
      var k :| 0 <= k < |s.exchanges| && s.exchanges[k].tenant == tenant && !Spent(s.exchanges[k]);
      LiveExchangeLinks(s, k);
    }
  }

  lemma RunGoesOn(states: seq<State>, steps: seq<Step>, st: Step)
    requires IsRun(states, steps) && Enabled(states[|steps|], st)
    ensures IsRun(states + [Apply(states[|steps|], st)], steps + [st])
  {
  }

  /** A run up to an answered exchange. */
  lemma AnsweredRun() returns (states: seq<State>, steps: seq<Step>)
    ensures IsRun(states, steps) && |steps| == 3
    ensures states[3].exchanges ==
      [Exchange("state", "tenant", "verifier", 1, Granted(Token("access", Some("refresh"), 60, Some("collector"))))]
  {
    var ring := Ring(map["key" := 7], "key");
    assert Clean("verifier");
    var s0 := State(ring, map[], map[], []);
    var auth := AuthState("tenant", Cipher(7, "verifier"), "key", 600, None);
    var s1 := s0.(auths := map["state" := auth]);
    assert Encrypt(ring, "verifier") == Some(auth.verifier);
    assert s1 == Started(s0, "tenant", "state", "verifier", 0, 600);
    var start, redeem := Start("tenant", "state", "verifier", 0, 600), Redeem("state", 1);
    assert IsRun([s0], []);
    RunGoesOn([s0], [], start);
    assert RedeemState(s1, "state", 1).1 == Redeemed;
    RunGoesOn([s0, s1], [start], redeem);
    var s2 := Apply(s1, redeem);
    var answered := Exchanged(0, Answered(Token("access", Some("refresh"), 60, Some("collector"))));
    assert [s0] + [s1] == [s0, s1] && [s0, s1] + [s2] == [s0, s1, s2];
    RunGoesOn([s0, s1, s2], [start, redeem], answered);
    states, steps := [s0, s1, s2] + [Apply(s2, answered)], [start, redeem] + [answered];
  }

  /** Such a run exists: start, redeem, answered, unlink, save. */
  lemma UnlinkIsOvertaken()
    ensures exists states: seq<State>, steps: seq<Step> ::
      IsRun(states, steps) && |steps| == 5 && steps[3] == Unlink("tenant", 2)
      && !IsConnected(states[4].Of("tenant")) && IsConnected(states[5].Of("tenant"))
  {
    var states, steps := AnsweredRun();
    assert Clean("access") && Clean("refresh");
    RunsAreSound(states, steps, 3);
    var s4 := Apply(states[3], Unlink("tenant", 2));
    GrantedLinks(s4, 0, 3);
    RunGoesOn(states, steps, Unlink("tenant", 2));
    RunGoesOn(states + [s4], steps + [Unlink("tenant", 2)], Save(0, 3));
    var all := states + [s4] + [Apply(s4, Save(0, 3))];
    assert all[4] == s4 && all[5] == Apply(s4, Save(0, 3));
    assert IsRun(all, steps + [Unlink("tenant", 2)] + [Save(0, 3)]);
  }
}
