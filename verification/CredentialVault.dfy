/** The ARCA credentials of the fiscal profiles, and their rotation to a new active key. */
module CredentialVault {
  import opened Common
  import opened Traces
  import opened Keyring

  datatype Secrets = Secrets(certificate: string, privateKey: string, accessToken: string)

  /** The credential columns of a profile. */
  datatype Sealed = Sealed(certificate: Cipher, privateKey: Cipher, accessToken: Cipher, keyId: string, rotatedAt: int)

  function Open(ring: Ring, p: Sealed): Option<Secrets> {
    var certificate, privateKey, accessToken :=
      Decrypt(ring, p.certificate, p.keyId), Decrypt(ring, p.privateKey, p.keyId),
          Decrypt(ring, p.accessToken, p.keyId);
    if certificate.Some? && privateKey.Some? && accessToken.Some? then
      Some(Secrets(certificate.value, privateKey.value, accessToken.value))
    else None
  }

  function Seal(ring: Ring, s: Secrets, now: int): Option<Sealed>
    requires RingOk(ring)
  {
    var certificate, privateKey, accessToken :=
      Encrypt(ring, s.certificate), Encrypt(ring, s.privateKey), Encrypt(ring, s.accessToken);
    if certificate.Some? && privateKey.Some? && accessToken.Some? then
      Some(Sealed(certificate.value, privateKey.value, accessToken.value, ring.active, now))
    else None
  }

  /** The row after rotation; none if it cannot be opened or sealed again. */
  function Rotated(ring: Ring, p: Sealed, now: int): Option<Sealed>
    requires RingOk(ring)
  {
    if p.keyId == ring.active then Some(p)
    else if Open(ring, p).None? then None
    else Seal(ring, Open(ring, p).value, now)
  }

  function Stale(ring: Ring, rows: seq<Sealed>): nat {
    if rows == [] then 0
    else Stale(ring, rows[..|rows| - 1]) + if rows[|rows| - 1].keyId == ring.active then 0 else 1
  }

  /** The whole table after rotation; one bad row fails it all. */
  function RotatedAll(ring: Ring, rows: seq<Sealed>, now: int): (r: Option<seq<Sealed>>)
    requires RingOk(ring)
    ensures r.Some? <==> forall i :: 0 <= i < |rows| ==> Rotated(ring, rows[i], now).Some?
    ensures r.Some? ==>
      |r.value| == |rows| && forall i :: 0 <= i < |rows| ==> Some(r.value[i]) == Rotated(ring, rows[i], now)
  {
    if rows == [] then Some([])
    else
      var init, last := RotatedAll(ring, rows[..|rows| - 1], now), Rotated(ring, rows[|rows| - 1], now);
      if init.Some? && last.Some? then Some(init.value + [last.value]) else None
  }

  ghost predicate Coherent(ring: Ring, p: Sealed) {
    Readable(ring, p.certificate, p.keyId) && Readable(ring, p.privateKey, p.keyId)
        && Readable(ring, p.accessToken, p.keyId)
  }

  lemma SealIsCoherent(ring: Ring, s: Secrets, now: int)
    requires RingOk(ring) && Seal(ring, s, now).Some?
    ensures Coherent(ring, Seal(ring, s, now).value)
    ensures Open(ring, Seal(ring, s, now).value) ==
      Some(Secrets(Strip(s.certificate), Strip(s.privateKey), Strip(s.accessToken)))
  {
    EncryptRoundTrip(ring, ring, s.certificate);
    EncryptRoundTrip(ring, ring, s.privateKey);
    EncryptRoundTrip(ring, ring, s.accessToken);
  }

  /** A coherent row always rotates: to the active key, coherent, with the same three secrets. */
  lemma RotationKeepsSecrets(ring: Ring, p: Sealed, now: int)
    requires RingOk(ring) && Coherent(ring, p)
    ensures Rotated(ring, p, now).Some?
    ensures var q := Rotated(ring, p, now).value;
      && q.keyId == ring.active && Coherent(ring, q) && Open(ring, q) == Open(ring, p) && Open(ring, q).Some?
      && (if p.keyId == ring.active then q == p else q.rotatedAt == now)
  {
    ReencryptKeepsPlaintext(ring, p.certificate, p.keyId);
    ReencryptKeepsPlaintext(ring, p.privateKey, p.keyId);
    ReencryptKeepsPlaintext(ring, p.accessToken, p.keyId);
  }

  /** Rotating a rotated table finds nothing stale and changes nothing. */
  lemma RotationIsIdempotent(ring: Ring, rows: seq<Sealed>, now: int, later: int)
    requires RingOk(ring) && RotatedAll(ring, rows, now).Some?
    ensures RotatedAll(ring, RotatedAll(ring, rows, now).value, later) == RotatedAll(ring, rows, now)
    ensures Stale(ring, RotatedAll(ring, rows, now).value) == 0
  {
    var once := RotatedAll(ring, rows, now).value;
    assert forall i :: 0 <= i < |once| ==> once[i].keyId == ring.active by {
      forall i | 0 <= i < |once| ensures once[i].keyId == ring.active {
        assert Some(once[i]) == Rotated(ring, rows[i], now);
      }
    }
    NothingStale(ring, once);
    assert RotatedAll(ring, once, later).value == once;
  }

  lemma {:induction false} NothingStale(ring: Ring, rows: seq<Sealed>)
    ensures Stale(ring, rows) == 0 <==> forall i :: 0 <= i < |rows| ==> rows[i].keyId == ring.active
  {
    if rows != [] { NothingStale(ring, rows[..|rows| - 1]); }
  }

  /** The rows that are not on the active key. */
  function StaleRows(ring: Ring, rows: seq<Sealed>): set<nat> {
    set i: nat | i < |rows| && rows[i].keyId != ring.active
  }

  lemma {:induction false} StaleCounts(ring: Ring, rows: seq<Sealed>)
    ensures Stale(ring, rows) == |StaleRows(ring, rows)|
  {
    if rows != [] {
      var k := |rows| - 1;
      StaleCounts(ring, rows[..k]);
      assert StaleRows(ring, rows) == StaleRows(ring, rows[..k]) + if rows[k].keyId == ring.active then {} else {k};
    }
  }

  // ----- Runs -----

  datatype State = State(ring: Ring, rows: seq<Sealed>)

  datatype Step =
    | Add(secrets: Secrets, now: int)
    | Replace(row: nat, secrets: Secrets, now: int)
    | RotateAll(now: int)
    | Reconfigure(ring: Ring)

  predicate Enabled(s: State, st: Step) {
    match st
    case Add(_, _) => RingOk(s.ring)
    case Replace(row, _, _) => RingOk(s.ring) && row < |s.rows|
    case RotateAll(_) => RingOk(s.ring)
    case Reconfigure(ring) => Extends(s.ring, ring)
  }

  /** Replacing covers both an upsert and the tombstone of a deletion; a blank secret writes nothing. */
  function Apply(s: State, st: Step): State
    requires Enabled(s, st)
  {
    match st
    case Add(secrets, now) =>
      var p := Seal(s.ring, secrets, now);
      if p.None? then s else s.(rows := s.rows + [p.value])
    case Replace(row, secrets, now) =>
      var p := Seal(s.ring, secrets, now);
      if p.None? then s else s.(rows := s.rows[row := p.value])
    case RotateAll(now) =>
      var rows := RotatedAll(s.ring, s.rows, now);
      if rows.None? then s else s.(rows := rows.value)
    case Reconfigure(ring) => s.(ring := ring)
  }

  predicate Next(s: State, st: Step, t: State) {
    Enabled(s, st) && t == Apply(s, st)
  }

  ghost predicate Inv(s: State) {
    RingOk(s.ring) && forall i :: 0 <= i < |s.rows| ==> Coherent(s.ring, s.rows[i])
  }

  ghost predicate IsRun(states: seq<State>, steps: seq<Step>) {
    IsTrace(Next, states, steps) && RingOk(states[0].ring) && states[0].rows == []
  }

  /** What one step leaves of a row that it does not replace: coherent, with the same secrets. */
  lemma StepKeepsSecrets(s: State, st: Step, t: State, i: nat)
    requires Inv(s) && Next(s, st, t) && i < |s.rows| && !(st.Replace? && st.row == i)
    ensures i < |t.rows| && Coherent(t.ring, t.rows[i]) && Open(t.ring, t.rows[i]) == Open(s.ring, s.rows[i])
  {
    var p := s.rows[i];
    if st.RotateAll? {
      RotationKeepsSecrets(s.ring, p, st.now);
    }
  }

  lemma StepKeepsInv(s: State, st: Step, t: State)
    requires Inv(s) && Next(s, st, t)
    ensures Inv(t)
  {
    forall i | 0 <= i < |t.rows| ensures Coherent(t.ring, t.rows[i]) {
      if i < |s.rows| && !(st.Replace? && st.row == i) { StepKeepsSecrets(s, st, t, i); }
      else if Seal(s.ring, st.secrets, st.now).Some? { SealIsCoherent(s.ring, st.secrets, st.now); }
    }
  }

  lemma RunsAreSound(states: seq<State>, steps: seq<Step>, i: nat)
    requires IsRun(states, steps) && i < |states|
    ensures Inv(states[i])
  {
    forall s, st, t | Inv(s) && Next(s, st, t) ensures Inv(t) { StepKeepsInv(s, st, t); }
    InvariantHolds(Next, Inv, states, steps);
  }

  /**
   In every run that retires no key, each profile's three ciphertexts open under its key
   identifier, and a rotation therefore always succeeds, leaving every row on the active key.
   */
  lemma RotationAlwaysSucceeds(states: seq<State>, steps: seq<Step>, i: nat, now: int)
    requires IsRun(states, steps) && i < |states|
    ensures forall k :: 0 <= k < |states[i].rows| ==> Coherent(states[i].ring, states[i].rows[k])
    ensures RingOk(states[i].ring) && RotatedAll(states[i].ring, states[i].rows, now).Some?
    ensures Stale(states[i].ring, RotatedAll(states[i].ring, states[i].rows, now).value) == 0
  {
    RunsAreSound(states, steps, i);
    forall k | 0 <= k < |states[i].rows| ensures Rotated(states[i].ring, states[i].rows[k], now).Some? {
      RotationKeepsSecrets(states[i].ring, states[i].rows[k], now);
    }
    RotationIsIdempotent(states[i].ring, states[i].rows, now, now);
  }

  /** The secrets of a profile survive any number of rotations and key changes until it is replaced. */
  lemma {:induction false} SecretsSurvive(states: seq<State>, steps: seq<Step>, i: nat, j: nat, k: nat)
    requires IsRun(states, steps) && i <= j < |states| && k < |states[i].rows|
    requires forall m :: i <= m < j ==> !(steps[m].Replace? && steps[m].row == k)
    ensures k < |states[j].rows| && Open(states[j].ring, states[j].rows[k]) == Open(states[i].ring, states[i].rows[k])
    ensures Open(states[j].ring, states[j].rows[k]).Some?
    decreases j - i
  {
    RunsAreSound(states, steps, i);
    if i < j {
      assert Next(states[i], steps[i], states[i + 1]);
      StepKeepsSecrets(states[i], steps[i], states[i + 1], k);
      SecretsSurvive(states, steps, i + 1, j, k);
    } else {
      assert Coherent(states[i].ring, states[i].rows[k]);
    }
  }

  // ----- The rotation loop -----

  class FiscalProfiles {
    const ring: Ring
    var rows: seq<Sealed>

    constructor (ring: Ring, rows: seq<Sealed>)
      ensures this.ring == ring && this.rows == rows
    {
      this.ring, this.rows := ring, rows;
    }

    method Reencrypt(profile: Sealed, now: int) returns (p: Option<Sealed>)
      requires RingOk(ring) && profile.keyId != ring.active
      ensures p == Rotated(ring, profile, now)
    {
      var credentials := Open(ring, profile);
      if credentials.None? {
        return None;
      }
      var certificate := Encrypt(ring, credentials.value.certificate);
      var privateKey := Encrypt(ring, credentials.value.privateKey);
      var accessToken := Encrypt(ring, credentials.value.accessToken);
      if certificate.None? || privateKey.None? || accessToken.None? {
        return None;
      }
      return Some(Sealed(certificate.value, privateKey.value, accessToken.value, ring.active, now));
    }

    /**
     `rotate_all_to_active_key`: re-encrypts every row that is not on the active key and
     commits once. A row that cannot be opened aborts the session, which commits nothing.
     */
    method RotateAllToActiveKey(now: int) returns (rotated: Option<nat>)
      requires RingOk(ring)
      modifies this
      ensures rotated.Some? <==> RotatedAll(ring, old(rows), now).Some?
      ensures rotated.Some? ==>
        Some(rows) == RotatedAll(ring, old(rows), now) && rotated.value == Stale(ring, old(rows))
      ensures rotated.None? ==> rows == old(rows)
    {
      var profiles := rows;
      var session, count := [], 0;
      for i := 0 to |profiles|
        invariant rows == profiles
        invariant RotatedAll(ring, profiles[..i], now) == Some(session) && count == Stale(ring, profiles[..i])
      {
        assert profiles[..i + 1][..i] == profiles[..i];
        var profile := profiles[i];
        if profile.keyId != ring.active {
          var resealed := Reencrypt(profile, now);
          if resealed.None? {
            return None;
          }
          profile := resealed.value;
          count := count + 1;
        }
        session := session + [profile];
      }
      assert profiles[..|profiles|] == profiles;
      rows := session;
      return Some(count);
    }
  }
}
