/**
 The primitives the object envelope is built from, as abstract functions with
 ideal laws: X25519 agreement, HKDF-SHA256 and XChaCha20-Poly1305.

 No byte-level function on 32-byte keys can satisfy "distinct inputs never
 collide" outright, so the laws are relative to the keys that occur in one
 deployment: `world` holds the DH public keys in use, `secrets`, `salts` and
 `infos` what goes into HKDF, `derived` the wrapping keys that come out, and
 `sealed` records the one plaintext a single-use content key is used for.
 */
module Crypto {
  import opened Prelude
  import opened Bytes

  const KEY_LEN: nat := 32
  const NONCE_LEN: nat := 24
  const TAG_LEN: nat := 16

  type Key = k: Octets | |k| == KEY_LEN witness Zeros(KEY_LEN)
  type Nonce = n: Octets | |n| == NONCE_LEN witness Zeros(NONCE_LEN)

  /** The ASCII octets of "canopee/object-wrap/v1". */
  const WRAP_INFO: Octets := [
    0x63, 0x61, 0x6e, 0x6f, 0x70, 0x65, 0x65, 0x2f, 0x6f, 0x62, 0x6a,
    0x65, 0x63, 0x74, 0x2d, 0x77, 0x72, 0x61, 0x70, 0x2f, 0x76, 0x31]

  datatype Suite = Suite(
    publicKey: Key -> Key,
    agree: (Key, Key) -> Key,
    hkdf: (Key, Octets, Octets) -> Key,
    encrypt: (Key, Nonce, Octets) -> Octets,
    decrypt: (Key, Nonce, Octets) -> Option<Octets>,
    world: Key -> bool,
    secrets: Key -> bool,
    salts: Octets -> bool,
    infos: Octets -> bool,
    derived: Key -> bool,
    sealed: (Key, Nonce) -> Option<Octets>)

  /** The context string binding a wrapping key to both public keys. */
  function WrapContext(epk: Key, recipient: Key): Octets {
    WRAP_INFO + epk + recipient
  }

  function DeriveWrapKey(c: Suite, shared: Key, salt: Octets, epk: Key, recipient: Key): Key {
    c.hkdf(shared, salt, WrapContext(epk, recipient))
  }

  // ---- the ideal laws ----------------------------------------------------

  /** Both ends of an exchange agree on a secret, and no key in use is the all-zero point. */
  ghost predicate AgreementLaw(c: Suite) {
    && (forall a, b :: c.agree(a, c.publicKey(b)) == c.agree(b, c.publicKey(a)))
    && (forall a, p {:trigger c.secrets(c.agree(a, p))} | c.world(c.publicKey(a)) && c.world(p) :: c.secrets(c.agree(a, p)))
    && !c.world(Zeros(KEY_LEN))
  }

  /** The contexts of keys in use are among the infos. */
  ghost predicate ContextLaw(c: Suite) {
    forall e, p {:trigger c.infos(WRAP_INFO + e + p)} | c.world(e) && c.world(p) :: c.infos(WRAP_INFO + e + p)
  }

  /** Different secrets, salts or infos in use give different wrapping keys. */
  ghost predicate DerivationLaw(c: Suite) {
    && (forall s, salt, info {:trigger c.derived(c.hkdf(s, salt, info))} | c.secrets(s) && c.salts(salt) && c.infos(info) ::
          c.derived(c.hkdf(s, salt, info)))
    && (forall s, salt, info, s', salt', info'
          {:trigger c.derived(c.hkdf(s, salt, info)), c.derived(c.hkdf(s', salt', info'))} |
          && c.secrets(s) && c.salts(salt) && c.infos(info)
          && c.secrets(s') && c.salts(salt') && c.infos(info')
          && c.hkdf(s, salt, info) == c.hkdf(s', salt', info') ::
          s == s' && salt == salt' && info == info')
  }

  /** What was encrypted decrypts again, unless the key is recorded for another plaintext. */
  ghost predicate CorrectnessLaw(c: Suite) {
    && (forall k, n, m :: |c.encrypt(k, n, m)| == |m| + TAG_LEN)
    && (forall k, n, m | c.sealed(k, n).None? || c.sealed(k, n) == Some(m) ::
          c.decrypt(k, n, c.encrypt(k, n, m)) == Some(m))
    && (forall k, n, x | c.decrypt(k, n, x).Some? ::
          |x| == |c.decrypt(k, n, x).value| + TAG_LEN)
    && (forall k, n | c.derived(k) :: c.sealed(k, n).None?)
  }

  /**
   A wrapping key opens nothing another wrapping key closed, and under a
   single-use key the only ciphertext that opens is the one that was made.
   */
  ghost predicate IntegrityLaw(c: Suite) {
    && (forall k, k', n, m | c.derived(k) && c.derived(k') && k != k' ::
          c.decrypt(k', n, c.encrypt(k, n, m)).None?)
    && (forall k, n, x | c.sealed(k, n).Some? && c.decrypt(k, n, x).Some? ::
          x == c.encrypt(k, n, c.sealed(k, n).value))
  }

  ghost predicate Ideal(c: Suite) {
    AgreementLaw(c) && ContextLaw(c) && DerivationLaw(c) && CorrectnessLaw(c) && IntegrityLaw(c)
  }

  // ---- a concrete instance: the laws are consistent ------------------------

  /** Toy keys and secrets carry three significant octets, toy salts seven. */
  predicate ToySecret(k: Key) {
    k[3..] == Zeros(29)
  }

  predicate ToyWorld(k: Key) {
    ToySecret(k) && k[..3] != [0, 0, 0]
  }

  predicate ToySalt(salt: Octets) {
    |salt| == 8 && salt[7] == 0
  }

  predicate ToyInfo(info: Octets) {
    && |info| == |WRAP_INFO| + 64 && info[..|WRAP_INFO|] == WRAP_INFO
    && ToyWorld(info[|WRAP_INFO|..|WRAP_INFO| + 32]) && ToyWorld(info[|WRAP_INFO| + 32..])
  }

  predicate ToyDerived(k: Key) {
    k[16..] == Zeros(16)
  }

  function ToyAdd(x: int, y: int): Byte {
    (x + y) % 256
  }

  function ToyAgree(a: Key, b: Key): Key {
    seq(KEY_LEN, i requires 0 <= i < KEY_LEN => ToyAdd(a[i], b[i]))
  }

  /** All that is significant, and nothing else. */
  function ToyHkdf(s: Key, salt: Octets, info: Octets): Key {
    if |salt| < 7 || |info| < |WRAP_INFO| + 64 then Zeros(KEY_LEN)
    else s[..3] + salt[..7] + info[|WRAP_INFO|..|WRAP_INFO| + 3] + info[|WRAP_INFO| + 32..|WRAP_INFO| + 35] + Zeros(16)
  }

  function ToyDecrypt(k: Key, x: Octets, recorded: Option<Octets>): Option<Octets> {
    if |x| < TAG_LEN || x[|x| - TAG_LEN..] != k[..TAG_LEN] then None
    else if recorded.Some? && x[..|x| - TAG_LEN] != recorded.value then None
    else Some(x[..|x| - TAG_LEN])
  }

  function ToySealed(k0: Key, n0: Nonce, p: Octets, k: Key, n: Nonce): Option<Octets> {
    if k == k0 && n == n0 then Some(p) else None
  }

  /** A suite in which `k0` and `n0` are spent on the plaintext `p`. */
  function ToySuite(k0: Key, n0: Nonce, p: Octets): Suite {
    Suite(
      k => k,
      ToyAgree,
      ToyHkdf,
      (k, n, m) => m + k[..TAG_LEN],
      (k, n, x) => ToyDecrypt(k, x, ToySealed(k0, n0, p, k, n)),
      ToyWorld,
      ToySecret,
      ToySalt,
      ToyInfo,
      ToyDerived,
      (k, n) => ToySealed(k0, n0, p, k, n))
  }

  lemma {:induction false} ToyContextIsInfo(e: Key, p: Key)
    requires ToyWorld(e) && ToyWorld(p)
    ensures ToyInfo(WRAP_INFO + e + p)
  {
    var info := WRAP_INFO + e + p;
    assert info[|WRAP_INFO|..|WRAP_INFO| + 32] == e && info[|WRAP_INFO| + 32..] == p;
  }

  lemma {:induction false} ToySeparates(
    s: Key, salt: Octets, info: Octets, s': Key, salt': Octets, info': Octets)
    requires ToySecret(s) && ToySalt(salt) && ToyInfo(info) && ToySecret(s') && ToySalt(salt') && ToyInfo(info')
    requires ToyHkdf(s, salt, info) == ToyHkdf(s', salt', info')
    ensures s == s' && salt == salt' && info == info'
  {
    var n, k := |WRAP_INFO|, ToyHkdf(s, salt, info);
    assert k[..3] == s[..3] == s'[..3] && k[3..10] == salt[..7] == salt'[..7];
    assert k[10..13] == info[n..n + 3] == info'[n..n + 3] && k[13..16] == info[n + 32..n + 35] == info'[n + 32..n + 35];
    SplitAt(s, s', 3);
    SplitAt(salt, salt', 7);
    var e, e', p, p' := info[n..n + 32], info'[n..n + 32], info[n + 32..], info'[n + 32..];
    assert e[..3] == info[n..n + 3] && e'[..3] == info'[n..n + 3];
    assert p[..3] == info[n + 32..n + 35] && p'[..3] == info'[n + 32..n + 35];
    SplitAt(e, e', 3);
    SplitAt(p, p', 3);
    assert info == info[..n] + e + p && info' == info'[..n] + e' + p';
  }

  lemma {:induction false} SplitAt(a: Octets, b: Octets, n: nat)
    requires n <= |a| == |b| && a[..n] == b[..n] && a[n..] == b[n..]
    ensures a == b
  {
    assert a == a[..n] + a[n..] && b == b[..n] + b[n..];
  }

  /** The label spells out in ASCII. */
  lemma {:induction false} LabelSpellsOut()
    ensures |WRAP_INFO| == |"canopee/object-wrap/v1"| == 22
    ensures forall i :: 0 <= i < 22 ==> WRAP_INFO[i] == "canopee/object-wrap/v1"[i] as int
  {
  }

  /** The laws hold of a concrete suite, whatever plaintext is sealed in it. */
  lemma {:induction false} ToySuiteIsIdeal(k0: Key, n0: Nonce, p: Octets)
    requires !ToyDerived(k0)
    ensures Ideal(ToySuite(k0, n0, p))
    ensures ToySuite(k0, n0, p).sealed(k0, n0) == Some(p)
  {
    var c := ToySuite(k0, n0, p);
    forall a, b ensures c.agree(a, c.publicKey(b)) == c.agree(b, c.publicKey(a)) {
      assert ToyAgree(a, b) == ToyAgree(b, a);
    }
    forall a, q | c.world(c.publicKey(a)) && c.world(q) ensures c.secrets(c.agree(a, q)) {
      assert ToyAgree(a, q)[3..] == Zeros(29) by {
        assert forall i :: 0 <= i < 29 ==> a[3..][i] == 0 && q[3..][i] == 0;
      }
    }
    forall e, q | c.world(e) && c.world(q) ensures c.infos(WRAP_INFO + e + q) {
      ToyContextIsInfo(e, q);
    }
    forall s, salt, info | c.secrets(s) && c.salts(salt) && c.infos(info) ensures c.derived(c.hkdf(s, salt, info)) {
      assert ToyHkdf(s, salt, info)[16..] == Zeros(16);
    }
    forall s, salt, info, s', salt', info' |
      && c.secrets(s) && c.salts(salt) && c.infos(info)
      && c.secrets(s') && c.salts(salt') && c.infos(info')
      && c.hkdf(s, salt, info) == c.hkdf(s', salt', info')
      ensures s == s' && salt == salt' && info == info'
    {
      ToySeparates(s, salt, info, s', salt', info');
    }
    ToyAeadIsIdeal(c, k0, n0, p);
  }

  lemma {:induction false} ToyAeadIsIdeal(c: Suite, k0: Key, n0: Nonce, p: Octets)
    requires !ToyDerived(k0) && c == ToySuite(k0, n0, p)
    ensures CorrectnessLaw(c) && IntegrityLaw(c)
  {
    forall k, n, m | c.sealed(k, n).None? || c.sealed(k, n) == Some(m)
      ensures c.decrypt(k, n, c.encrypt(k, n, m)) == Some(m)
    {
      var x := c.encrypt(k, n, m);
      assert x[..|m|] == m && x[|m|..] == k[..TAG_LEN];
    }
    forall k, k', n, m | c.derived(k) && c.derived(k') && k != k'
      ensures c.decrypt(k', n, c.encrypt(k, n, m)).None?
    {
      var x := c.encrypt(k, n, m);
      assert x[|m|..] == k[..TAG_LEN];
      assert k == k[..16] + k[16..] && k' == k'[..16] + k'[16..];
    }
    forall k, n, x | c.sealed(k, n).Some? && c.decrypt(k, n, x).Some?
      ensures x == c.encrypt(k, n, c.sealed(k, n).value)
    {
      assert x == x[..|x| - TAG_LEN] + x[|x| - TAG_LEN..];
    }
  }
}
