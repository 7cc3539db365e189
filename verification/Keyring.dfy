/**
 The keyring of the credential ciphers. Encryption is ideal: a ciphertext is its key
 material and its plaintext, and opens only with that material.
 */
module Keyring {
  import opened Common

  datatype Cipher = Cipher(material: nat, plain: string)

  /** Key material by identifier, and the identifier new ciphertexts are written under. */
  datatype Ring = Ring(keys: map<string, nat>, active: string)

  /** What the constructor of the cipher insists on. */
  predicate RingOk(ring: Ring) {
    ring.active != "" && ring.active in ring.keys
  }

  /** Keys are added and the active one may change, but none is retired or replaced. */
  predicate Extends(old_: Ring, new_: Ring) {
    && RingOk(new_)
    && forall k :: k in old_.keys ==> k in new_.keys && new_.keys[k] == old_.keys[k]
  }

  // ----- Stripping -----

  /** The characters removed by `str.strip()`. */
  predicate IsSpace(c: char) {
    var n := c as int;
    || 9 <= n <= 13 || 28 <= n <= 32 || n == 133 || n == 160 || n == 5760 || 8192 <= n <= 8202
    || n == 8232 || n == 8233 || n == 8239 || n == 8287 || n == 12288
  }

  function StripLeft(s: string): string {
    if s != "" && IsSpace(s[0]) then StripLeft(s[1..]) else s
  }

  function StripRight(s: string): string {
    if s != "" && IsSpace(s[|s| - 1]) then StripRight(s[..|s| - 1]) else s
  }

  function Strip(s: string): string {
    StripRight(StripLeft(s))
  }

  /** A secret as the cipher stores it. */
  predicate Clean(s: string) {
    s != "" && !IsSpace(s[0]) && !IsSpace(s[|s| - 1])
  }

  lemma {:induction false} StripLeftStarts(s: string)
    ensures StripLeft(s) == "" || !IsSpace(StripLeft(s)[0])
  {
    if s != "" && IsSpace(s[0]) { StripLeftStarts(s[1..]); }
  }

  lemma {:induction false} StripRightEnds(s: string)
    ensures StripRight(s) <= s
    ensures StripRight(s) == "" || !IsSpace(StripRight(s)[|StripRight(s)| - 1])
  {
    if s != "" && IsSpace(s[|s| - 1]) { StripRightEnds(s[..|s| - 1]); }
  }

  predicate AllSpace(s: string) {
    forall i :: 0 <= i < |s| ==> IsSpace(s[i])
  }

  /** `s` is `kept` between blanks. */
  predicate Surrounds(s: string, left: nat, kept: string, right: nat) {
    left <= right <= |s| && s[left..right] == kept && AllSpace(s[..left]) && AllSpace(s[right..])
  }

  lemma {:induction false} StripLeftKeeps(s: string) returns (left: nat)
    ensures left <= |s| && StripLeft(s) == s[left..] && AllSpace(s[..left])
  {
    if s != "" && IsSpace(s[0]) {
      var rest := StripLeftKeeps(s[1..]);
      left := rest + 1;
      assert s[..left] == [s[0]] + s[1..][..rest];
    } else {
      left := 0;
    }
  }

  lemma {:induction false} StripRightKeeps(s: string)
    ensures StripRight(s) <= s && AllSpace(s[|StripRight(s)|..])
  {
    if s != "" && IsSpace(s[|s| - 1]) {
      var front := s[..|s| - 1];
      StripRightKeeps(front);
      assert s[|StripRight(s)|..] == front[|StripRight(s)|..] + [s[|s| - 1]];
    }
  }

  /** Nothing but blanks at the ends is removed, and all of those; storing it again changes nothing. */
  lemma StripIsClean(s: string)
    ensures Strip(s) == "" || Clean(Strip(s))
    ensures Strip(Strip(s)) == Strip(s)
    ensures exists left: nat, right: nat :: Surrounds(s, left, Strip(s), right)
  {
    StripLeftStarts(s);
    StripRightEnds(StripLeft(s));
    var left := StripLeftKeeps(s);
    StripRightKeeps(StripLeft(s));
    var right := left + |Strip(s)|;
    assert s[left..][|Strip(s)|..] == s[right..];
    assert Surrounds(s, left, Strip(s), right);
  }

  // ----- The cipher -----

  function Encrypt(ring: Ring, value: string): Option<Cipher>
    requires RingOk(ring)
  {
    if Strip(value) == "" then None else Some(Cipher(ring.keys[ring.active], Strip(value)))
  }

  function Decrypt(ring: Ring, c: Cipher, keyId: string): Option<string> {
    if keyId in ring.keys && ring.keys[keyId] == c.material then Some(c.plain) else None
  }

  /** The ciphertext opens under its key identifier, to a secret the cipher could have stored. */
  predicate Readable(ring: Ring, c: Cipher, keyId: string) {
    Decrypt(ring, c, keyId).Some? && Clean(c.plain)
  }

  /** What is encrypted reads back stripped, under this ring and every later one. */
  lemma EncryptRoundTrip(ring: Ring, later: Ring, value: string)
    requires RingOk(ring) && Extends(ring, later) && Encrypt(ring, value).Some?
    ensures Decrypt(later, Encrypt(ring, value).value, ring.active) == Some(Strip(value))
    ensures Readable(later, Encrypt(ring, value).value, ring.active)
  {
    StripIsClean(value);
  }

  /** Moving a readable ciphertext to the active key never fails and keeps its plaintext. */
  lemma ReencryptKeepsPlaintext(ring: Ring, c: Cipher, keyId: string)
    requires RingOk(ring) && Readable(ring, c, keyId)
    ensures Encrypt(ring, c.plain) == Some(Cipher(ring.keys[ring.active], c.plain))
    ensures Decrypt(ring, Encrypt(ring, c.plain).value, ring.active) == Decrypt(ring, c, keyId)
  {
    assert StripLeft(c.plain) == c.plain;
  }
}
