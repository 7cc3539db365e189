/**
 The Mercado Pago service as it is written: rows are locked, copied, assigned and committed,
 and the provider is called in between. Every method is proved to be the corresponding step,
 or steps, of the machine.
 */
module MercadoPagoService {
  import opened Common
  import opened Traces
  import opened Keyring
  import opened MercadoPago
  import opened MercadoPagoMachine

  /** Steps others may take while one request works on its exchange; no request spans a change of keys. */
  ghost function OthersThan(k: nat): (State, Step, State) -> bool {
    (s: State, st: Step, t: State) =>
      Next(s, st, t) && !st.Reconfigure? && !((st.Exchanged? || st.Save? || st.Abandon?) && st.k == k)
  }

  lemma OthersLeaveExchange(s: State, t: State, k: nat)
    requires Reaches(OthersThan(k), s, t) && k < |s.exchanges|
    ensures Reaches(Next, s, t) && k < |t.exchanges| && t.exchanges[k] == s.exchanges[k] && t.ring == s.ring
  {
    var kept := (x: State) => Reaches(Next, s, x) && k < |x.exchanges| && x.exchanges[k] == s.exchanges[k]
        && x.ring == s.ring;
    ReachesSelf(Next, s);
    forall a, st, b | kept(a) && OthersThan(k)(a, st, b) ensures kept(b) { ReachesThen(Next, s, a, st, b); }
    ReachesInvariant(OthersThan(k), kept, s, t);
  }

  /** A session's copy of a connection row. */
  class ConnectionRecord {
    var access: Option<Cipher>
    var refresh: Option<Cipher>
    var keyId: Option<string>
    var expires: Option<int>
    var collector: Option<string>
    var status: Status
    var disconnected: Option<int>
    var lastError: Option<string>

    constructor (c: Connection)
      ensures ToRow() == c
    {
      access, refresh, keyId, expires := c.access, c.refresh, c.keyId, c.expires;
      collector, status, disconnected, lastError := c.collector, c.status, c.disconnected, c.lastError;
    }

    function ToRow(): Connection
      reads this
    {
      Connection(access, refresh, keyId, expires, collector, status, disconnected, lastError)
    }
  }

  datatype CompleteReply =
    | Rejected(reason: RedeemReply)
    | ExchangeRefused
    | InvalidGrant
    | SecretsInvalid
    | NowLinked

  class Service {
    const ring: Ring
    var connections: map<string, Connection>
    var auths: map<string, AuthState>
    /** The calls made to the token endpoint with an authorization code. */
    ghost var exchanges: seq<Exchange>

    ghost function S(): State
      reads this
    {
      State(ring, connections, auths, exchanges)
    }

    constructor (ring: Ring)
      requires RingOk(ring)
      ensures this.ring == ring && Init(S())
    {
      this.ring, connections, auths, exchanges := ring, map[], map[], [];
    }

    /** Other requests do anything, while this one waits for its exchange. */
    method Elapse(ghost k: nat)
      modifies this
      ensures Reaches(OthersThan(k), old(S()), S())
    {
      ReachesSelf(OthersThan(k), S());
    }

    /** The token endpoint: any answer at all. */
    method AskProvider() returns (grant: Grant)
    {
      grant := *;
    }

    /** The loop that consumes the open states of a tenant. */
    method ConsumeOpen(tenant: string, now: int)
      modifies this`auths
      ensures auths == ConsumeAll(old(auths), tenant, now)
    {
      var open := set raw | raw in auths && auths[raw].tenant == tenant && auths[raw].consumed.None?;
      var todo := open;
      while todo != {}
        invariant todo <= open && auths.Keys == old(auths).Keys
        invariant forall raw :: raw in auths ==>
          auths[raw] == if raw in open && raw !in todo then old(auths)[raw].(consumed := Some(now)) else old(auths)[raw]
        decreases |todo|
      {
        var raw :| raw in todo;
        auths := auths[raw := auths[raw].(consumed := Some(now))];
        todo := todo - {raw};
      }
    }

    /** `start_authorization`: closes the earlier states of the tenant and opens one. */
    method StartAuthorization(tenant: string, raw: string, verifier: string, now: int, ttl: nat) returns (started: bool)
      requires RingOk(ring)
      modifies this`auths
      ensures Next(old(S()), Start(tenant, raw, verifier, now, ttl), S())
      ensures started <==> Strip(verifier) != "" && raw !in old(auths)
    {
      var cipher := Encrypt(ring, verifier);
      if cipher.None? {
        return false;
      }
      if raw in auths {
        return false;
      }
      ConsumeOpen(tenant, now);
      auths := auths[raw := AuthState(tenant, cipher.value, ring.active, now + ttl, None)];
      return true;
    }

    /** The checks of `complete_authorization`, under the lock of the state; commits the consumption. */
    method RedeemAuthorization(raw: string, now: int) returns (reply: RedeemReply)
      requires RingOk(ring)
      modifies this`auths, this`exchanges
      ensures Next(old(S()), Redeem(raw, now), S()) && reply == RedeemState(old(S()), raw, now).1
    {
      if raw !in auths {
        return InvalidState;
      }
      var auth := auths[raw];
      if auth.consumed.Some? {
        return StateUsed;
      }
      if auth.expires <= now {
        auths := auths[raw := auth.(consumed := Some(now))];
        return StateExpired;
      }
      var verifier := Decrypt(ring, auth.verifier, auth.keyId);
      if verifier.None? {
        return VerifierLost;
      }
      auths := auths[raw := auth.(consumed := Some(now))];
      exchanges := exchanges + [Exchange(raw, auth.tenant, verifier.value, now, Waiting)];
      return Redeemed;
    }

    /**
     `complete_authorization`. Whatever others do while the provider is asked, the request
     is a run of the machine in which its exchange ends closed. `grant` is what the provider
     answered and `mid` the state the save found: the reply says exactly what became of them.
     */
    method CompleteAuthorization(raw: string, now: int, later: int)
      returns (reply: CompleteReply, ghost grant: Grant, ghost mid: State)
      requires RingOk(ring)
      modifies this
      ensures Reaches(Next, old(S()), S())
      ensures var (redeemed, reason) := RedeemState(old(S()), raw, now);
        var k := |old(exchanges)|;
        if reason != Redeemed then reply == Rejected(reason) && S() == redeemed
        else
          && k < |exchanges| && exchanges[k].raw == raw && exchanges[k].stage.Closed?
          && (reply.ExchangeRefused? <==> grant.Refused?)
          && (reply.InvalidGrant? <==> grant.Answered? && !(Brings(grant.token) && grant.token.user.Some?))
          && (Renewable(grant) ==>
                && Next(mid, Save(k, later), S()) && mid.exchanges[k].stage == Granted(grant.token)
                && reply ==
                     if Linked(ring, mid.Of(old(auths)[raw].tenant), grant.token, later).Some? then NowLinked
                     else SecretsInvalid)
          && (reply.NowLinked? ==> IsConnected(S().Of(old(auths)[raw].tenant)))
    {
      ghost var k, s0 := |exchanges|, S();
      grant, mid := Refused(""), s0;
      ReachesSelf(Next, s0);
      var reason := RedeemAuthorization(raw, now);
      ReachesThen(Next, s0, s0, Redeem(raw, now), S());
      if reason != Redeemed {
        return Rejected(reason), grant, mid;
      }
      var tenant := auths[raw].tenant;
      ghost var s1 := S();
      Elapse(k);
      OthersLeaveExchange(s1, S(), k);
      ReachesFurther(Next, s0, s1, S());
      var answer := AskProvider();
      grant := answer;
      ghost var s2 := S();
      exchanges := exchanges[k := exchanges[k].(stage := if Renewable(grant) then Granted(grant.token) else Closed)];
      ReachesThen(Next, s0, s2, Exchanged(k, grant), S());
      if answer.Refused? {
        return ExchangeRefused, grant, mid;
      }
      if CarriedRefresh(answer.token).None? || answer.token.user.None? {
        return InvalidGrant, grant, mid;
      }
      ghost var s3 := S();
      Elapse(k);
      OthersLeaveExchange(s3, S(), k);
      ReachesFurther(Next, s0, s3, S());
      mid := S();
      var saved := SaveConnection(tenant, answer.token, later);
      exchanges := exchanges[k := exchanges[k].(stage := Closed)];
      assert S() == Apply(mid, Save(k, later));
      ReachesThen(Next, s0, mid, Save(k, later), S());
      reply := if saved then NowLinked else SecretsInvalid;
    }

    /** `_save_connection`: inserts or updates the tenant's only row. */
    method SaveConnection(tenant: string, token: Token, now: int) returns (saved: bool)
      requires RingOk(ring)
      modifies this`connections
      ensures var row := Linked(ring, old(S()).Of(tenant), token, now);
        && (saved <==> row.Some?)
        && connections == (if row.Some? then old(connections)[tenant := row.value] else old(connections))
      ensures saved ==>
        IsConnected(S().Of(tenant)) && AccessPlain(ring, connections[tenant]) == Some(Strip(token.access))
    {
      var record := new ConnectionRecord(if tenant in connections then connections[tenant] else NEW_CONNECTION);
      saved := ApplyTokenTo(record, token, now);
      if !saved {
        return false;
      }
      record.status := Active;
      record.disconnected := None;
      record.lastError := None;
      connections := connections[tenant := record.ToRow()];
    }

    /** `_apply_token`: writes the new secrets under the active key, keeping an omitted refresh token. */
    method ApplyTokenTo(record: ConnectionRecord, token: Token, now: int) returns (applied: bool)
      requires RingOk(ring)
      modifies record
      ensures applied <==> ApplyToken(ring, old(record.ToRow()), token, now).Some?
      ensures applied ==> Some(record.ToRow()) == ApplyToken(ring, old(record.ToRow()), token, now)
    {
      var carried := CarriedRefresh(token);
      var refresh := carried;
      if carried.None? && record.refresh.Some? && record.keyId.Some? {
        refresh := Decrypt(ring, record.refresh.value, record.keyId.value);
        if refresh.None? {
          return false;
        }
      }
      record.access := Encrypt(ring, token.access);
      if record.access.None? {
        return false;
      }
      if refresh.Some? && refresh.value != "" {
        record.refresh := Encrypt(ring, refresh.value);
        if record.refresh.None? {
          return false;
        }
      }
      record.keyId := Some(ring.active);
      record.expires := Some(now + token.expiresIn);
      if token.user.Some? {
        record.collector := token.user;
      }
      return true;
    }

    /** `_access_token`: the provider is asked, with the row locked, only when the token is about to expire. */
    method GetAccessToken(tenant: string, now: int, skew: nat)
      returns (reply: AccessReply, ghost grant: Grant, ghost asked: bool)
      requires RingOk(ring)
      modifies this`connections
      ensures Next(old(S()), UseToken(tenant, now, skew, grant), S())
      ensures reply == AccessToken(ring, old(S()).Of(tenant), now, skew, grant).1
      ensures asked <==>
        && tenant in old(connections)
        && var c := old(connections)[tenant];
          && c.status.Active? && c.access.Some? && c.keyId.Some? && c.expires.Some? && c.expires.value <= now + skew
          && RefreshPlain(ring, c).Some?
    {
      grant, asked := Refused(""), false;
      if tenant !in connections {
        return NotConnected, grant, asked;
      }
      var row := connections[tenant];
      if !row.status.Active? || row.access.None? || row.keyId.None? {
        assert connections == connections[tenant := row];
        return NotConnected, grant, asked;
      }
      if row.expires.None? || row.expires.value > now + skew {
        assert connections == connections[tenant := row];
        return ReplyOf(Decrypt(ring, row.access.value, row.keyId.value)), grant, asked;
      }
      if row.refresh.None? {
        connections := connections[tenant := row.(status := Failed, lastError := Some("refresh_token_missing"))];
        return RefreshTokenMissing, grant, asked;
      }
      var refreshToken := Decrypt(ring, row.refresh.value, row.keyId.value);
      if refreshToken.None? {
        assert connections == connections[tenant := row];
        return CipherError, grant, asked;
      }
      var answer := AskProvider();
      grant, asked := answer, true;
      if answer.Refused? {
        connections := connections[tenant := row.(lastError := Some(answer.code))];
        return RefreshFailed(answer.code), grant, asked;
      }
      var record := new ConnectionRecord(row);
      var applied := ApplyTokenTo(record, answer.token, now);
      if !applied {
        assert connections == connections[tenant := row];
        return CipherError, grant, asked;
      }
      connections := connections[tenant := record.ToRow()];
      return ReplyOf(Decrypt(ring, record.access.value, record.keyId.value)), grant, asked;
    }

    /** `unlink`: destroys the secrets and closes every open state. */
    method UnlinkConnection(tenant: string, now: int)
      requires RingOk(ring)
      modifies this`connections, this`auths
      ensures Next(old(S()), Unlink(tenant, now), S())
      ensures forall raw :: raw in auths && auths[raw].tenant == tenant ==> auths[raw].consumed.Some?
      ensures tenant in connections ==> connections[tenant].access.None? && connections[tenant].refresh.None?
    {
      if tenant in connections {
        var record := new ConnectionRecord(connections[tenant]);
        record.access, record.refresh, record.keyId, record.expires := None, None, None, None;
        record.status, record.disconnected, record.lastError := Unlinked, Some(now), None;
        connections := connections[tenant := record.ToRow()];
      }
      ConsumeOpen(tenant, now);
    }
  }
}
