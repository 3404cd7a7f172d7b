/** Blind issuance of write tokens (fdh, mgf1, blind, sign_blinded, unblind, verify and request_tokens in
    blindrange/token.py). */
module BlindToken {
  import opened Basics
  import opened NumberTheory
  import Dyadic

  type Byte = b: nat | b < 256

  /** A hash of fixed output length; which one does not matter here. */
  type Hash = seq<Byte> -> seq<Byte>

  const DIGEST: nat := 32
  const NONCE_BYTES: nat := 32

  ghost predicate IsDigest(hash: Hash) {
    forall x :: |hash(x)| == DIGEST
  }

  /** Four bytes, most significant first. */
  function Counter(c: nat): seq<Byte> {
    [c / 0x1000000 % 256, c / 0x10000 % 256, c / 0x100 % 256, c % 256]
  }

  /** The mask generation function: digests of the seed and a counter, cut to length. */
  method Mgf1(hash: Hash, seed: seq<Byte>, length: nat) returns (mask: seq<Byte>)
    requires IsDigest(hash)
    ensures |mask| == length
    ensures forall i :: 0 <= i < length ==> mask[i] == hash(seed + Counter(i / DIGEST))[i % DIGEST]
  {
    var out: seq<Byte>, counter := [], 0;
    while |out| < length
      invariant |out| == counter * DIGEST
      invariant forall i :: 0 <= i < |out| ==> out[i] == hash(seed + Counter(i / DIGEST))[i % DIGEST]
      decreases length - |out|
    {
      out := out + hash(seed + Counter(counter));
      counter := counter + 1;
    }
    mask := out[..length];
  }

  /** A byte string read as a number, most significant byte first. */
  function FromBytes(bytes: seq<Byte>): (x: nat)
    ensures x < Pow2(8 * |bytes|)
  {
    if bytes == [] then 0
    else
      Pow2Add(8 * (|bytes| - 1), 8);
      assert Pow2(8) == 256;
      256 * FromBytes(bytes[..|bytes| - 1]) + bytes[|bytes| - 1]
  }

  /** Binary digits of a positive number bracket it. */
  lemma {:induction false} BitLengthBounds(n: nat)
    requires n >= 1
    ensures Dyadic.BitLength(n) >= 1 && Pow2(Dyadic.BitLength(n) - 1) <= n < Pow2(Dyadic.BitLength(n))
  {
    if n == 1 {
      assert Dyadic.BitLength(0) == 0;
    } else {
      BitLengthBounds(n / 2);
    }
  }

  /** Dropping the lowest k binary digits. */
  function ShiftRight(x: nat, k: nat): nat {
    Quotient(x, Pow2(k))
  }

  function Quotient(x: nat, d: nat): nat
    requires d >= 1
  {
    x / d
  }

  lemma QuotientBelow(x: nat, d: nat, b: nat)
    requires d >= 1 && x < b * d
    ensures Quotient(x, d) < b
  {
    Dyadic.DivisionUnique(x, d, x / d);
    if x / d >= b {
      AtLeast(x / d, b, d);
    }
  }

  lemma AtLeast(q: nat, b: nat, d: nat)
    requires q >= b
    ensures q * d >= b * d
  {
  }

  lemma ShiftBound(x: nat, bits: nat, total: nat)
    requires bits <= total && x < Pow2(total)
    ensures ShiftRight(x, total - bits) < Pow2(bits)
  {
    Pow2Add(bits, total - bits);
    QuotientBelow(x, Pow2(total - bits), Pow2(bits));
  }

  /** The full-domain hash: as many bits as fit below the modulus. */
  method Fdh(hash: Hash, msg: seq<Byte>, n: nat) returns (x: nat)
    requires IsDigest(hash) && n >= 1
    ensures x == FdhOf(hash, msg, n)
    ensures x < n
    ensures forall bits, mask :: MaskOf(hash, msg, n, bits, mask) ==> BeginsWith(mask, bits, x)
  {
    hide MaskOf, BeginsWith, Mask, TopBits, Counter, Dyadic.BitLength, Pow2;
    forall bits: nat, mask: seq<Byte> | MaskOf(hash, msg, n, bits, mask)
      ensures BeginsWith(mask, bits, FdhOf(hash, msg, n)) {
      FdhValue(hash, msg, n, bits, mask);
    }
    BitLengthBounds(n);
    var bits := Dyadic.BitLength(n) - 1;
    var nbytes := (bits + 7) / 8;
    var mask := Mgf1(hash, PREFIX + msg, nbytes);
    MaskIs(hash, PREFIX + msg, nbytes, mask);
    x := TopBits(mask, bits);
  }

  /** The bytes of the label that separates this use of the hash from others. */
  const PREFIX: seq<Byte> :=
    [98, 108, 105, 110, 100, 114, 97, 110, 103, 101, 47, 116, 111, 107, 101, 110, 47, 102, 100, 104, 124]

  /** The mask as a value: the only byte string of that length made of those digests. */
  function Mask(hash: Hash, seed: seq<Byte>, length: nat): (mask: seq<Byte>)
    requires IsDigest(hash)
    ensures |mask| == length
  {
    seq(length, i requires 0 <= i < length => hash(seed + Counter(i / DIGEST))[i % DIGEST])
  }

  lemma MaskIs(hash: Hash, seed: seq<Byte>, length: nat, mask: seq<Byte>)
    requires IsDigest(hash) && |mask| == length
    requires forall i :: 0 <= i < length ==> mask[i] == hash(seed + Counter(i / DIGEST))[i % DIGEST]
    ensures mask == Mask(hash, seed, length)
  {
  }

  /** How many bits are sure to fit below a number. */
  function BitsBelow(n: nat): (bits: nat)
    requires n >= 1
    ensures Pow2(bits) <= n
  {
    BitLengthBounds(n);
    Dyadic.BitLength(n) - 1
  }

  lemma BitsBelowBracket(n: nat)
    requires n >= 1
    ensures Pow2(BitsBelow(n)) <= n < Pow2(BitsBelow(n) + 1)
  {
    BitLengthBounds(n);
  }

  function FdhOf(hash: Hash, msg: seq<Byte>, n: nat): (x: nat)
    requires IsDigest(hash) && n >= 1
    ensures x < n
  {
    var bits := BitsBelow(n);
    TopBits(Mask(hash, PREFIX + msg, (bits + 7) / 8), bits)
  }

  /** The first so many bits of a byte string, as a number. */
  function TopBits(mask: seq<Byte>, bits: nat): (x: nat)
    requires bits <= 8 * |mask|
    ensures x < Pow2(bits)
  {
    ShiftBound(FromBytes(mask), bits, 8 * |mask|);
    ShiftRight(FromBytes(mask), 8 * |mask| - bits)
  }

  /** As many bits as a number below the modulus is sure to have room for, and the bytes they are taken from: digests
      of the label, the message and a counter, one after another. */
  ghost predicate MaskOf(hash: Hash, msg: seq<Byte>, n: nat, bits: nat, mask: seq<Byte>)
    requires IsDigest(hash)
  {
    && Pow2(bits) <= n < Pow2(bits + 1) && bits <= 8 * |mask| < bits + 8
    && forall i :: 0 <= i < |mask| ==> mask[i] == hash(PREFIX + msg + Counter(i / 32))[i % 32]
  }

  /** A byte string, read as one number, is x followed by further bits. */
  ghost predicate BeginsWith(mask: seq<Byte>, bits: nat, x: nat) {
    bits <= 8 * |mask| && var unit := Pow2(8 * |mask| - bits); x * unit <= FromBytes(mask) < (x + 1) * unit
  }

  lemma SameBits(n: nat, a: nat, b: nat)
    requires Pow2(a) <= n < Pow2(a + 1) && Pow2(b) <= n < Pow2(b + 1)
    ensures a == b
  {
    Pow2Unique(a, b);
  }

  /** The hash is what is left of those bytes, read as one number, when the lowest bits are dropped. */
  lemma FdhValue(hash: Hash, msg: seq<Byte>, n: nat, bits: nat, mask: seq<Byte>)
    requires IsDigest(hash) && n >= 1 && MaskOf(hash, msg, n, bits, mask)
    ensures BeginsWith(mask, bits, FdhOf(hash, msg, n))
  {
    hide TopBits, Counter, BeginsWith, BitsBelow;
    BitsBelowBracket(n);
    SameBits(n, bits, BitsBelow(n));
    MaskIs(hash, PREFIX + msg, |mask|, mask);
    TopBitsValue(mask, bits);
  }

  lemma TopBitsValue(mask: seq<Byte>, bits: nat)
    requires bits <= 8 * |mask|
    ensures BeginsWith(mask, bits, TopBits(mask, bits))
  {
    hide FromBytes;
    DivideOut(FromBytes(mask), Pow2(8 * |mask| - bits));
  }

  lemma DivideOut(x: nat, d: nat)
    requires d >= 1
    ensures Quotient(x, d) * d <= x < (Quotient(x, d) + 1) * d
  {
  }

  /** The counter's four bytes are its value, most significant first. */
  lemma CounterBytes(c: nat)
    requires c < 0x1_0000_0000
    ensures |Counter(c)| == 4 && FromBytes(Counter(c)) == c
  {
    hide FromBytes;
    var b := Counter(c);
    LastByte(b);
    LastByte(b[..3]);
    LastByte(b[..2]);
    LastByte(b[..1]);
    assert b[..3][..2] == b[..2] && b[..2][..1] == b[..1] && b[..1][..0] == [];
    FourBytes(c);
  }

  lemma LastByte(bytes: seq<Byte>)
    requires bytes != []
    ensures FromBytes(bytes) == 256 * FromBytes(bytes[..|bytes| - 1]) + bytes[|bytes| - 1]
  {
  }

  lemma FourBytes(c: nat)
    requires c < 0x1_0000_0000
    ensures ((c / 0x1000000 % 256 * 256 + c / 0x10000 % 256) * 256 + c / 0x100 % 256) * 256 + c % 256 == c
  {
  }

  // ------------------------------------------------------------ keys and signatures

  datatype PublicKey = PublicKey(n: nat, e: nat)

  /** An issuer's key: two different primes, and exponents inverse to each other modulo both less one. */
  datatype KeyPair = KeyPair(p: nat, q: nat, e: nat, d: nat) {
    ghost predicate Valid() {
      && Prime(p) && Prime(q) && p != q
      && e * d >= 1 && Divides(p - 1, e * d - 1) && Divides(q - 1, e * d - 1)
    }

    function Modulus(): nat {
      p * q
    }
  }

  function PowMod(x: int, k: nat, n: nat): nat
    requires n > 0
  {
    Pow(x, k) % n
  }

  function SignBlinded(blinded: int, n: nat, d: nat): nat
    requires n > 0
  {
    PowMod(blinded % n, d, n)
  }

  function Unblind(blindSig: nat, r: nat, n: nat): nat
    requires n > 0 && Gcd(r, n) == 1
  {
    (blindSig * Inverse(r, n)) % n
  }

  predicate Verify(hash: Hash, nonce: seq<Byte>, sig: int, key: PublicKey)
    requires IsDigest(hash) && key.n >= 1
  {
    PowMod(sig, key.e, key.n) == FdhOf(hash, nonce, key.n)
  }

  /** Blind a nonce with the first of the drawn numbers that is coprime to the modulus. */
  method Blind(hash: Hash, nonce: seq<Byte>, key: PublicKey, draws: seq<nat>) returns (blinded: nat, r: nat)
    requires IsDigest(hash) && key.n >= 1
    requires exists i :: 0 <= i < |draws| && Gcd(draws[i], key.n) == 1
    ensures Gcd(r, key.n) == 1 && r in draws
    ensures blinded == BlindedOf(hash, nonce, r, key)
  {
    var m := Fdh(hash, nonce, key.n);
    var i := 0;
    while Gcd(draws[i], key.n) != 1
      invariant i < |draws| && forall j :: 0 <= j < i ==> Gcd(draws[j], key.n) != 1
      decreases |draws| - i
    {
      i := i + 1;
    }
    r := draws[i];
    blinded := (m * PowMod(r, key.e, key.n)) % key.n;
  }

  function BlindedOf(hash: Hash, nonce: seq<Byte>, r: nat, key: PublicKey): nat
    requires IsDigest(hash) && key.n >= 1
  {
    (FdhOf(hash, nonce, key.n) * PowMod(r, key.e, key.n)) % key.n
  }

  // ------------------------------------------------------------ the round trip

  /** Signing and verifying undo each other modulo the product of the primes, for every base. */
  lemma SignThenVerify(k: KeyPair, x: nat)
    requires k.Valid()
    ensures Cong(k.Modulus(), Pow(x, k.e * k.d), x)
  {
    var j :| k.e * k.d - 1 == Times(k.p - 1, j);
    var i :| k.e * k.d - 1 == Times(k.q - 1, i);
    Positive(k.p - 1, j);
    Positive(k.q - 1, i);
    FermatExponent(k.p, x, j);
    FermatExponent(k.q, x, i);
    Commute(k.p - 1, j);
    Commute(k.q - 1, i);
    ChineseRemainder(k.p, k.q, Pow(x, k.e * k.d), x);
  }

  lemma Commute(a: int, b: int)
    ensures a * b == b * a == Times(a, b)
  {
  }

  lemma Positive(a: int, b: int)
    requires a >= 1 && Times(a, b) >= 0
    ensures b >= 0
  {
    MultipleIsLarge(a, b);
  }

  lemma ModulusPositive(k: KeyPair)
    requires k.Valid()
    ensures k.Modulus() >= 1
  {
    MultipleIsLarge(k.p, k.q);
  }

  /** The unblinded signature is the signature of the nonce's hash. */
  lemma UnblindedPower(k: KeyPair, m: nat, r: nat, inv: nat)
    requires k.Valid() && Cong(k.Modulus(), inv * r, 1)
    ensures var n := k.Modulus();
            n >= 1 && Cong(n, Pow(Pow(m * Pow(r, k.e), k.d) * inv, k.e), m)
  {
    hide Cong, Prime;
    ModulusPositive(k);
    var n, b := k.Modulus(), m * Pow(r, k.e);
    PowProduct(Pow(b, k.d), inv, k.e);
    PowTimes(b, k.d, k.e);
    Commute(k.d, k.e);
    PowNat(r, k.e);
    SignThenVerify(k, b);
    CongRefl(n, Pow(inv, k.e));
    CongMul(n, Pow(b, k.e * k.d), b, Pow(inv, k.e), Pow(inv, k.e));
    PowProduct(inv, r, k.e);
    CongPow(n, inv * r, 1, k.e);
    PowOfOne(k.e);
    CongRefl(n, m);
    CongMul(n, m, m, Pow(inv, k.e) * Pow(r, k.e), 1);
    Regroup(m, Pow(r, k.e), Pow(inv, k.e));
    CongTrans(n, Pow(Pow(b, k.d) * inv, k.e), b * Pow(inv, k.e), m * 1);
  }

  lemma Regroup(m: int, x: int, y: int)
    ensures (m * x) * y == m * (y * x)
  {
  }

  lemma {:induction false} PowNat(x: nat, k: nat)
    ensures Pow(x, k) >= 0
  {
    if k > 0 {
      PowNat(x, k - 1);
    }
  }

  /** Reducing along the way changes nothing. */
  lemma ReducedOnce(n: nat, m: nat, r: nat, e: nat, d: nat, inv: nat)
    requires n >= 1
    ensures var blinded := (m * (Pow(r, e) % n)) % n;
            Cong(n, ((Pow(blinded % n, d) % n) * inv) % n, Pow(m * Pow(r, e), d) * inv)
  {
    hide Cong, Pow;
    var b := m * Pow(r, e);
    var blinded := (m * (Pow(r, e) % n)) % n;
    CongMod(n, Pow(r, e));
    CongRefl(n, m);
    CongMul(n, m, m, Pow(r, e) % n, Pow(r, e));
    CongMod(n, m * (Pow(r, e) % n));
    CongTrans(n, blinded, m * (Pow(r, e) % n), b);
    CongMod(n, blinded);
    CongTrans(n, blinded % n, blinded, b);
    CongPow(n, blinded % n, b, d);
    var s := Pow(blinded % n, d);
    CongMod(n, s);
    CongTrans(n, s % n, s, Pow(b, d));
    CongRefl(n, inv);
    CongMul(n, s % n, Pow(b, d), inv, inv);
    CongMod(n, (s % n) * inv);
    CongTrans(n, ((s % n) * inv) % n, (s % n) * inv, Pow(b, d) * inv);
  }

  /** Blind issuance always yields a token that verifies: whatever the nonce, the coprime draw and the key pair. */
  lemma RoundTrip(hash: Hash, nonce: seq<Byte>, r: nat, k: KeyPair)
    requires IsDigest(hash) && k.Valid() && k.Modulus() >= 1 && Gcd(r, k.Modulus()) == 1
    ensures var key := PublicKey(k.Modulus(), k.e);
            Verify(hash, nonce, Unblind(SignBlinded(BlindedOf(hash, nonce, r, key), key.n, k.d), r, key.n), key)
  {
    hide Cong, Pow, FdhOf, Inverse;
    var n, m := k.Modulus(), FdhOf(hash, nonce, k.Modulus());
    var inv := Inverse(r, n);
    var sig := Unblind(SignBlinded(BlindedOf(hash, nonce, r, PublicKey(n, k.e)), n, k.d), r, n);
    UnblindedPower(k, m, r, inv);
    ReducedOnce(n, m, r, k.e, k.d, inv);
    CongPow(n, sig, Pow(m * Pow(r, k.e), k.d) * inv, k.e);
    CongTrans(n, Pow(sig, k.e), Pow(Pow(m * Pow(r, k.e), k.d) * inv, k.e), m);
    CongMod(n, Pow(sig, k.e));
    CongTrans(n, Pow(sig, k.e) % n, Pow(sig, k.e), m);
    CongSmall(n, Pow(sig, k.e) % n, m);
  }

  /** What unblinding leaves does not depend on the blinding at all: it is the plain signature of the nonce's hash. */
  lemma UnblindIsSignature(hash: Hash, nonce: seq<Byte>, r: nat, k: KeyPair)
    requires IsDigest(hash) && k.Valid() && k.Modulus() >= 1 && Gcd(r, k.Modulus()) == 1
    ensures var key := PublicKey(k.Modulus(), k.e);
            Unblind(SignBlinded(BlindedOf(hash, nonce, r, key), key.n, k.d), r,
                    key.n) == PowMod(FdhOf(hash, nonce, key.n), k.d, key.n)
  {
    hide Cong, Pow, FdhOf, Inverse;
    var n, m := k.Modulus(), FdhOf(hash, nonce, k.Modulus());
    var inv := Inverse(r, n);
    var sig := Unblind(SignBlinded(BlindedOf(hash, nonce, r, PublicKey(n, k.e)), n, k.d), r, n);
    ReducedOnce(n, m, r, k.e, k.d, inv);
    BlindingCancels(k, m, r, inv);
    CongTrans(n, sig, Pow(m * Pow(r, k.e), k.d) * inv, Pow(m, k.d));
    CongMod(n, Pow(m, k.d));
    CongSym(n, Pow(m, k.d) % n, Pow(m, k.d));
    CongTrans(n, sig, Pow(m, k.d), Pow(m, k.d) % n);
    CongSmall(n, sig, Pow(m, k.d) % n);
  }

  lemma BlindingCancels(k: KeyPair, m: nat, r: nat, inv: nat)
    requires k.Valid() && Cong(k.Modulus(), inv * r, 1)
    ensures Cong(k.Modulus(), Pow(m * Pow(r, k.e), k.d) * inv, Pow(m, k.d))
  {
    hide Cong, Prime;
    var n := k.Modulus();
    PowProduct(m, Pow(r, k.e), k.d);
    PowTimes(r, k.e, k.d);
    SignThenVerify(k, r);
    var power := Pow(r, k.e * k.d);
    CongRefl(n, inv);
    CongMul(n, power, r, inv, inv);
    Swap(r, inv);
    CongTrans(n, power * inv, r * inv, 1);
    CongRefl(n, Pow(m, k.d));
    CongMul(n, Pow(m, k.d), Pow(m, k.d), power * inv, 1);
    Assoc(Pow(m, k.d), power, inv);
  }

  lemma Swap(a: int, b: int)
    ensures a * b == b * a
  {
  }

  lemma Assoc(a: int, b: int, c: int)
    ensures (a * b) * c == a * (b * c)
  {
  }

  // ------------------------------------------------------------ issuance

  datatype Signed = Signed(nonce: seq<Byte>, sig: nat)

  /** Client side of issuance: blind each nonce, have it signed, unblind, and check before keeping it. What is kept
      verifies, whatever the issuer answered; an issuer that signs is never refused. */
  method RequestTokens(hash: Hash, key: PublicKey, nonces: seq<seq<Byte>>, draws: seq<seq<nat>>, issuer: nat -> nat)
    returns (tokens: Result<seq<Signed>, string>)
    requires IsDigest(hash) && key.n >= 1 && |draws| == |nonces|
    requires forall j :: 0 <= j < |draws| ==> exists i :: 0 <= i < |draws[j]| && Gcd(draws[j][i], key.n) == 1
    ensures tokens.Success? ==>
              && |tokens.value| == |nonces|
              && forall j :: 0 <= j < |nonces| ==>
                   tokens.value[j].nonce == nonces[j] && Verify(hash, nonces[j], tokens.value[j].sig, key)
    ensures (exists k: KeyPair :: Signs(k, key, issuer)) ==> tokens.Success?
  {
    hide Verify, FdhOf, BlindedOf, Unblind, SignBlinded;
    var out: seq<Signed> := [];
    for j := 0 to |nonces|
      invariant |out| == j
      invariant forall t :: 0 <= t < j ==> out[t].nonce == nonces[t] && Verify(hash, nonces[t], out[t].sig, key)
    {
      var blinded, r := Blind(hash, nonces[j], key, draws[j]);
      var sig := Unblind(issuer(blinded), r, key.n);
      if !Verify(hash, nonces[j], sig, key) {
        forall k: KeyPair ensures !Signs(k, key, issuer) {
          if Signs(k, key, issuer) {
            RoundTrip(hash, nonces[j], r, k);
          }
        }
        return Failure("issuer returned an invalid signature");
      }
      out := out + [Signed(nonces[j], sig)];
    }
    return Success(out);
  }

  /** The issuer answers every blinded number with its signature under the private half of the key. */
  ghost predicate Signs(k: KeyPair, key: PublicKey, issuer: nat -> nat) {
    && k.Valid() && key == PublicKey(k.Modulus(), k.e) && key.n >= 1
    && forall b: nat :: issuer(b) == SignBlinded(b, key.n, k.d)
  }
}
