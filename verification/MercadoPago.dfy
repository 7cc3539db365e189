/** The Mercado Pago connection of a tenant: its columns, and what each operation makes of them. */
module MercadoPago {
  import opened Common
  import opened Keyring

  datatype Status = Active | Failed | Unlinked

  datatype Connection = Connection(
    access: Option<Cipher>, refresh: Option<Cipher>, keyId: Option<string>, expires: Option<int>,
    collector: Option<string>, status: Status, disconnected: Option<int>, lastError: Option<string>)

  /** A row about to be inserted. */
  const NEW_CONNECTION: Connection := Connection(None, None, None, None, None, Active, None, None)

  /** What the token endpoint answers. */
  datatype Token = Token(access: string, refresh: Option<string>, expiresIn: nat, user: Option<string>)

  datatype Grant = Answered(token: Token) | Refused(code: string)

  /** An authorization state; the hash that identifies it is taken as injective. */
  datatype AuthState = AuthState(tenant: string, verifier: Cipher, keyId: string, expires: int, consumed: Option<int>)

  /** The refresh token carried by a token answer; the empty string counts as none. */
  function CarriedRefresh(token: Token): Option<string> {
    if token.refresh == Some("") then None else token.refresh
  }

  /** `_apply_token`; none when a secret cannot be decrypted or encrypted, which rolls back. */
  function ApplyToken(ring: Ring, c: Connection, token: Token, now: int): Option<Connection>
    requires RingOk(ring)
  {
    var carried := CarriedRefresh(token);
    var retains := carried.None? && c.refresh.Some? && c.keyId.Some?;
    var retained := if retains then Decrypt(ring, c.refresh.value, c.keyId.value) else None;
    var access := Encrypt(ring, token.access);
    var refresh := if carried.Some? then carried else retained;
    if (retains && retained.None?) || access.None? then None
    else if refresh.Some? && refresh.value != "" && Encrypt(ring, refresh.value).None? then None
    else
      Some(c.(
        access := access,
        refresh := if refresh.Some? && refresh.value != "" then Encrypt(ring, refresh.value) else c.refresh,
        keyId := Some(ring.active),
        expires := Some(now + token.expiresIn),
        collector := if token.user.Some? then token.user else c.collector))
  }

  /** `_save_connection`: links the tenant, or links it again. */
  function Linked(ring: Ring, c: Option<Connection>, token: Token, now: int): Option<Connection>
    requires RingOk(ring)
  {
    var applied := ApplyToken(ring, if c.Some? then c.value else NEW_CONNECTION, token, now);
    if applied.None? then None
    else Some(applied.value.(status := Active, disconnected := None, lastError := None))
  }

  /** `unlink` of a connection that exists: no secret is left. */
  function UnlinkedRow(c: Connection, now: int): Connection {
    c.(access := None, refresh := None, keyId := None, expires := None,
       status := Unlinked, disconnected := Some(now), lastError := None)
  }

  datatype AccessReply =
    | Access(token: string)
    | NotConnected
    | RefreshTokenMissing
    | RefreshFailed(code: string)
    | CipherError

  /** Whether `_access_token` must ask for a new token. */
  predicate NeedsRefresh(c: Connection, now: int, skew: nat) {
    c.expires.Some? && c.expires.value <= now + skew
  }

  predicate IsConnected(c: Option<Connection>) {
    c.Some? && c.value.status.Active? && c.value.access.Some? && c.value.keyId.Some?
  }

  /** `_access_token`, with the connection row locked: the row it leaves and its answer. */
  function AccessToken(ring: Ring, c: Option<Connection>, now: int, skew: nat, grant: Grant)
    : (Option<Connection>, AccessReply)
    requires RingOk(ring)
  {
    if !IsConnected(c) then (c, NotConnected)
    else
      var row := c.value;
      if !NeedsRefresh(row, now, skew) then
        (c, ReplyOf(Decrypt(ring, row.access.value, row.keyId.value)))
      else if row.refresh.None? then
        (Some(row.(status := Failed, lastError := Some("refresh_token_missing"))), RefreshTokenMissing)
      else if Decrypt(ring, row.refresh.value, row.keyId.value).None? then (c, CipherError)
      else
        match grant
        case Refused(code) => (Some(row.(lastError := Some(code))), RefreshFailed(code))
        case Answered(token) =>
          var applied := ApplyToken(ring, row, token, now);
          if applied.None? then (c, CipherError)
          else (applied, ReplyOf(Decrypt(ring, applied.value.access.value, applied.value.keyId.value)))
  }

  function ReplyOf(plain: Option<string>): AccessReply {
    if plain.Some? then Access(plain.value) else CipherError
  }

  // ----- Coherence of one row -----

  /** Whatever ciphertext the row has opens under the row's key identifier; a new row has none. */
  ghost predicate Holds(ring: Ring, c: Connection) {
    && (c.access.Some? ==> c.keyId.Some? && Readable(ring, c.access.value, c.keyId.value))
    && (c.refresh.Some? ==> c.keyId.Some? && Readable(ring, c.refresh.value, c.keyId.value))
  }

  /** A stored row: its ciphertexts open, and its status says which it has. */
  ghost predicate Coherent(ring: Ring, c: Connection) {
    && Holds(ring, c)
    && (c.status.Active? ==> c.access.Some?)
    && (c.status.Unlinked? ==> c.access.None? && c.refresh.None? && c.keyId.None? && c.expires.None?)
    && (c.status.Unlinked? <==> c.disconnected.Some?)
  }

  /** The stored refresh token in clear. */
  function RefreshPlain(ring: Ring, c: Connection): Option<string> {
    if c.refresh.Some? && c.keyId.Some? then Decrypt(ring, c.refresh.value, c.keyId.value) else None
  }

  function AccessPlain(ring: Ring, c: Connection): Option<string> {
    if c.access.Some? && c.keyId.Some? then Decrypt(ring, c.access.value, c.keyId.value) else None
  }

  /** The answer brings a refresh token. */
  predicate Brings(token: Token) {
    token.refresh.Some? && token.refresh.value != ""
  }

  /** The answer carries a blank secret, which the cipher refuses. */
  predicate Blank(token: Token) {
    Strip(token.access) == "" || (Brings(token) && Strip(token.refresh.value) == "")
  }

  /**
   Applying a token succeeds exactly when the access token and any refresh token it carries
   are not blank. The row then holds the new access token and either the new refresh token
   or, when the answer omits it, the same refresh token as before, all under the active key;
   it expires as long after now as the answer says, and keeps its collector unless one is named.
   */
  lemma TokenApplied(ring: Ring, c: Connection, token: Token, now: int)
    requires RingOk(ring) && Holds(ring, c)
    ensures ApplyToken(ring, c, token, now).Some? <==> !Blank(token)
    ensures ApplyToken(ring, c, token, now).Some? ==>
      var c' := ApplyToken(ring, c, token, now).value;
      && Holds(ring, c') && c'.keyId == Some(ring.active) && c'.access.Some?
      && AccessPlain(ring, c') == Some(Strip(token.access))
      && RefreshPlain(ring, c') ==
          (if Brings(token) then Some(Strip(token.refresh.value)) else RefreshPlain(ring, c))
      && c'.expires == Some(now + token.expiresIn)
      && c'.collector == (if token.user.Some? then token.user else c.collector)
      && c'.status == c.status && c'.disconnected == c.disconnected && c'.lastError == c.lastError
  {
    TokenSecrets(ring, c, token, now);
  }

  lemma TokenSecrets(ring: Ring, c: Connection, token: Token, now: int)
    requires RingOk(ring) && Holds(ring, c)
    ensures ApplyToken(ring, c, token, now).Some? <==> !Blank(token)
    ensures ApplyToken(ring, c, token, now).Some? ==>
      var c' := ApplyToken(ring, c, token, now).value;
      && Holds(ring, c') && AccessPlain(ring, c') == Some(Strip(token.access))
      && RefreshPlain(ring, c') == (if Brings(token) then Some(Strip(token.refresh.value)) else RefreshPlain(ring, c))
  {
    if c.refresh.Some? { ReencryptKeepsPlaintext(ring, c.refresh.value, c.keyId.value); }
    Stripped(token.access);
    if Brings(token) { Stripped(token.refresh.value); }
  }

  lemma Stripped(s: string)
    ensures Strip(s) == "" || Clean(Strip(s))
    ensures Strip(Strip(s)) == Strip(s)
  {
    StripIsClean(s);
  }

  lemma LinkedIsCoherent(ring: Ring, c: Option<Connection>, token: Token, now: int)
    requires RingOk(ring) && (c.Some? ==> Coherent(ring, c.value)) && Linked(ring, c, token, now).Some?
    ensures var c' := Linked(ring, c, token, now).value;
      && Coherent(ring, c') && c'.status.Active? && c'.disconnected.None? && c'.lastError.None?
      && c'.expires == Some(now + token.expiresIn)
      && c'.collector == if token.user.Some? then token.user else if c.Some? then c.value.collector else None
  {
    TokenApplied(ring, if c.Some? then c.value else NEW_CONNECTION, token, now);
  }

  /** The stored token is about to expire, or has expired. */
  predicate Expiring(c: Connection, now: int, skew: nat) {
    c.expires.Some? && c.expires.value - skew <= now
  }

  /** Using the connection keeps it coherent, and its only cipher errors come from a blank token in the answer. */
  lemma AccessIsCoherent(ring: Ring, c: Option<Connection>, now: int, skew: nat, grant: Grant)
    requires RingOk(ring) && (c.Some? ==> Coherent(ring, c.value))
    ensures var (c', reply) := AccessToken(ring, c, now, skew, grant);
      && (c'.Some? <==> c.Some?) && (c'.Some? ==> Coherent(ring, c'.value))
      && (reply.NotConnected? <==> c.None? || !c.value.status.Active?)
      && (reply.CipherError? <==>
            && c.Some? && c.value.status.Active? && Expiring(c.value, now, skew) && c.value.refresh.Some?
            && grant.Answered? && Blank(grant.token))
      && (reply.Access? ==> Some(reply.token) == AccessPlain(ring, c'.value))
      && (reply.NotConnected? || reply.CipherError? ==> c' == c)
  {
    if IsConnected(c) && grant.Answered? {
      TokenApplied(ring, c.value, grant.token, now);
    }
  }

  /**
   An active connection yields its stored token exactly while that is not about to expire;
   then it must have a refresh token, and the provider's answer decides: its token is stored
   and answered, or its refusal is noted.
   */
  lemma AccessSucceeds(ring: Ring, row: Connection, now: int, skew: nat, grant: Grant)
    requires RingOk(ring) && Coherent(ring, row) && row.status.Active?
    ensures var (c', reply) := AccessToken(ring, Some(row), now, skew, grant);
      if !Expiring(row, now, skew) then c' == Some(row) && Some(reply) == AccessOf(AccessPlain(ring, row))
      else if row.refresh.None? then
        reply == RefreshTokenMissing && c' == Some(row.(status := Failed, lastError := Some("refresh_token_missing")))
      else
        match grant
        case Refused(code) => reply == RefreshFailed(code) && c' == Some(row.(lastError := Some(code)))
        case Answered(token) =>
          !Blank(token) ==>
            && reply == Access(Strip(token.access)) && c'.Some? && c'.value.expires == Some(now + token.expiresIn)
            && c'.value.status.Active? && c'.value.lastError == row.lastError
            && (!Brings(token) ==> RefreshPlain(ring, c'.value) == RefreshPlain(ring, row))
  {
    if grant.Answered? { TokenApplied(ring, row, grant.token, now); }
  }

  /**
   No expiring token is answered: what a use of the connection answers is good beyond the
   margin, or was granted by the provider just now because the stored one was not. And a
   connection whose token is not expiring is never touched.
   */
  lemma AnsweredTokenIsLive(ring: Ring, c: Option<Connection>, now: int, skew: nat, grant: Grant)
    requires RingOk(ring) && (c.Some? ==> Coherent(ring, c.value))
    ensures var (c', reply) := AccessToken(ring, c, now, skew, grant);
      && (reply.Access? ==>
            || c'.value.expires.None? || c'.value.expires.value > now + skew
            || (c.value.expires.Some? && c.value.expires.value <= now + skew && grant.Answered?
                && c'.value.expires == Some(now + grant.token.expiresIn)
                && reply.token == Strip(grant.token.access)))
      && (c' != c ==> c.Some? && c.value.expires.Some? && c.value.expires.value <= now + skew)
  {
    AccessIsCoherent(ring, c, now, skew, grant);
    if c.Some? && c.value.status.Active? { AccessSucceeds(ring, c.value, now, skew, grant); }
  }

  function AccessOf(plain: Option<string>): Option<AccessReply> {
    if plain.Some? then Some(Access(plain.value)) else None
  }

  lemma KeysExtended(ring: Ring, later: Ring, c: Connection)
    requires Coherent(ring, c) && Extends(ring, later)
    ensures Coherent(later, c)
    ensures RefreshPlain(later, c) == RefreshPlain(ring, c) && AccessPlain(later, c) == AccessPlain(ring, c)
  {
  }
}
