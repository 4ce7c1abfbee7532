/** Password-based key derivation: the in-place XOR loops against section 5.2 of RFC 8018.  The
    pseudorandom function (HMAC-SHA-256) is any function with 32-octet results. */
module Pbkdf2 {

  newtype byte = n: int | 0 <= n < 256

  type Octets = seq<byte>
  type Prf = (Octets, Octets) -> Octets

  const HASH_LENGTH: nat := 32

  ghost predicate IsPrf(prf: Prf) {
    forall key, message :: |prf(key, message)| == HASH_LENGTH
  }

  function Power2(i: nat): (p: nat)
    ensures p > 0
  {
    if i == 0 then 1 else 2 * Power2(i - 1)
  }

  // The exclusive or of the lowest w bits.
  function XorDigits(a: nat, b: nat, w: nat): (r: nat)
    ensures r < Power2(w)
  {
    if w == 0 then 0 else (a + b) % 2 + 2 * XorDigits(a / 2, b / 2, w - 1)
  }

  lemma EightBits()
    ensures Power2(8) == 256
  {
    assert Power2(4) == 16;
  }

  function Xor(a: byte, b: byte): byte {
    EightBits();
    XorDigits(a as nat, b as nat, 8) as byte
  }

  // Four octets, most significant first, of i modulo 2^32.
  function BigEndian(i: nat): Octets {
    [(i / 0x100_0000 % 0x100) as byte, (i / 0x1_0000 % 0x100) as byte, (i / 0x100 % 0x100) as byte, (i % 0x100) as byte]
  }

  // ----- Section 5.2 of RFC 8018 -----

  // U_1 = PRF(P, S || INT(i)), U_j = PRF(P, U_{j-1}).
  function U(prf: Prf, password: Octets, salt: Octets, i: nat, j: nat): Octets
    requires j >= 1
  {
    if j == 1 then prf(password, salt + BigEndian(i)) else prf(password, U(prf, password, salt, i, j - 1))
  }

  lemma ULength(prf: Prf, password: Octets, salt: Octets, i: nat, j: nat)
    requires IsPrf(prf) && j >= 1
    ensures |U(prf, password, salt, i, j)| == HASH_LENGTH
  {
  }

  // Octet k of U_1 xor ... xor U_c.
  ghost function Folded(prf: Prf, password: Octets, salt: Octets, i: nat, c: nat, k: nat): byte
    requires IsPrf(prf) && c >= 1 && k < HASH_LENGTH
  {
    ULength(prf, password, salt, i, c);
    if c == 1 then U(prf, password, salt, i, 1)[k]
    else Xor(Folded(prf, password, salt, i, c - 1, k), U(prf, password, salt, i, c)[k])
  }

  ghost function T(prf: Prf, password: Octets, salt: Octets, c: nat, i: nat): Octets
    requires IsPrf(prf) && c >= 1
  {
    seq(HASH_LENGTH, k requires 0 <= k < HASH_LENGTH => Folded(prf, password, salt, i, c, k))
  }

  // T_1 || ... || T_l.
  ghost function Blocks(prf: Prf, password: Octets, salt: Octets, c: nat, l: nat): (r: Octets)
    requires IsPrf(prf) && c >= 1
    ensures |r| == l * HASH_LENGTH
  {
    if l == 0 then [] else Blocks(prf, password, salt, c, l - 1) + T(prf, password, salt, c, l)
  }

  // The number of blocks: the key length over the hash length, rounded up.
  function BlockCount(keyLength: nat): (l: nat)
    ensures l * HASH_LENGTH >= keyLength > (l - 1) * HASH_LENGTH || keyLength == l == 0
  {
    (keyLength + HASH_LENGTH - 1) / HASH_LENGTH
  }

  ghost function DerivedKey(prf: Prf, password: Octets, salt: Octets, c: nat, keyLength: nat): Octets
    requires IsPrf(prf) && c >= 1
  {
    Blocks(prf, password, salt, c, BlockCount(keyLength))[..keyLength]
  }

  // Octet k of the key is octet k modulo 32 of block T_(k / 32 + 1): the blocks come in order, none is
  // skipped, and the last is cut.
  lemma {:induction false} KeyOctets(prf: Prf, password: Octets, salt: Octets, c: nat, keyLength: nat, k: nat)
    requires IsPrf(prf) && c >= 1 && k < keyLength
    ensures |DerivedKey(prf, password, salt, c, keyLength)| == keyLength
    ensures DerivedKey(prf, password, salt, c, keyLength)[k]
            == Folded(prf, password, salt, k / HASH_LENGTH + 1, c, k % HASH_LENGTH)
  {
    BlockOctets(prf, password, salt, c, BlockCount(keyLength), k);
  }

  lemma {:induction false} BlockOctets(prf: Prf, password: Octets, salt: Octets, c: nat, l: nat, k: nat)
    requires IsPrf(prf) && c >= 1 && k < l * HASH_LENGTH
    ensures Blocks(prf, password, salt, c, l)[k] == Folded(prf, password, salt, k / HASH_LENGTH + 1, c, k % HASH_LENGTH)
  {
    if k < (l - 1) * HASH_LENGTH {
      BlockOctets(prf, password, salt, c, l - 1, k);
    } else {
      assert k / HASH_LENGTH == l - 1 && k - (l - 1) * HASH_LENGTH == k % HASH_LENGTH;
    }
  }

  // ----- The key, bit by bit -----

  // Bit i of a number, the least significant being bit 0.
  function Bit(n: nat, i: nat): nat { n / Power2(i) % 2 }

  lemma LessOf(p: nat, a: int, b: int)
    requires p * a < p * b
    ensures a < b
  {
  }

  lemma QuotientIs(n: nat, p: nat, q: nat, low: nat)
    requires low < p && n == p * q + low
    ensures n / p == q
  {
    assert p * (n / p) <= n < p * (n / p) + p;
    LessOf(p, n / p, q + 1);
    LessOf(p, q, n / p + 1);
  }

  lemma Distributed(k: nat, p: nat, q: nat, low: nat)
    ensures k * (p * q + low) == k * p * q + k * low
  {
  }

  lemma RoomFor(k: nat, p: nat, low: nat)
    requires low < p
    ensures k * low + k <= k * p
  {
    assert k * (low + 1) <= k * p;
  }

  // Dividing by k and then by p.
  lemma DividedTwice(n: nat, k: nat, p: nat)
    requires k > 0 && p > 0
    ensures k * p > 0 && n / (k * p) == n / k / p
  {
    var m := n / k;
    var q, low := m / p, m % p;
    Remainder(n, k);
    Remainder(m, p);
    Distributed(k, p, q, low);
    RoomFor(k, p, low);
    QuotientIs(n, k * p, q, k * low + n % k);
  }

  lemma Remainder(n: nat, k: nat)
    requires k > 0
    ensures n == k * (n / k) + n % k
  {
  }

  lemma NextBit(n: nat, i: nat)
    ensures Bit(n, i) == if i == 0 then n % 2 else Bit(n / 2, i - 1)
  {
    if i > 0 { DividedTwice(n, 2, Power2(i - 1)); }
  }

  lemma XorParts(a: nat, b: nat, w: nat)
    requires w > 0
    ensures XorDigits(a, b, w) % 2 == (a % 2 + b % 2) % 2
    ensures XorDigits(a, b, w) / 2 == XorDigits(a / 2, b / 2, w - 1)
  {
    hide Power2;
  }

  lemma {:induction false} XorDigitsBits(a: nat, b: nat, w: nat, i: nat)
    requires i < w
    ensures Bit(XorDigits(a, b, w), i) == (Bit(a, i) + Bit(b, i)) % 2
  {
    hide *;
    XorParts(a, b, w);
    NextBit(XorDigits(a, b, w), i);
    NextBit(a, i);
    NextBit(b, i);
    if i > 0 { XorDigitsBits(a / 2, b / 2, w - 1, i - 1); }
  }

  // The exclusive or adds the bits of its operands modulo 2.
  lemma XorBits(a: byte, b: byte, i: nat)
    requires i < 8
    ensures Bit(Xor(a, b) as nat, i) == (Bit(a as nat, i) + Bit(b as nat, i)) % 2
  {
    hide Bit;
    XorDigitsBits(a as nat, b as nat, 8, i);
  }

  // The block's number in four octets, the most significant first.
  lemma BigEndianIs(i: nat)
    ensures var b := BigEndian(i);
            |b| == 4
            && b[0] as nat * 0x100_0000 + b[1] as nat * 0x1_0000 + b[2] as nat * 0x100 + b[3] as nat
               == i % 0x1_0000_0000
  {
    var a := i / 0x100;
    var b := a / 0x100;
    var c := b / 0x100;
    DividedTwice(i, 0x100, 0x100);
    DividedTwice(i, 0x1_0000, 0x100);
    DividedTwice(i, 0x100_0000, 0x100);
    hide *;
    assert i == 0x100 * a + i % 0x100 && a == 0x100 * b + a % 0x100 && b == 0x100 * c + b % 0x100;
    assert c == 0x100 * (i / 0x1_0000_0000) + c % 0x100;
  }

  // The values U_1 .. U_c of block i, each applied to the one before, the first to the salt and the number.
  ghost predicate IsChain(us: seq<Octets>, prf: Prf, password: Octets, salt: Octets, i: nat) {
    && us != [] && us[0] == prf(password, salt + BigEndian(i))
    && forall j :: 1 <= j < |us| ==> us[j] == prf(password, us[j - 1])
  }

  // How many of the values have bit i of octet o set.
  function SetBits(us: seq<Octets>, o: nat, i: nat): nat
    requires forall u :: u in us ==> o < |u|
  {
    if us == [] then 0
    else
      assert us[|us| - 1] in us;
      SetBits(us[..|us| - 1], o, i) + Bit(us[|us| - 1][o] as nat, i)
  }

  lemma {:induction false} ChainIsU(us: seq<Octets>, prf: Prf, password: Octets, salt: Octets, i: nat, j: nat)
    requires IsPrf(prf) && IsChain(us, prf, password, salt, i) && j < |us|
    ensures us[j] == U(prf, password, salt, i, j + 1) && |us[j]| == HASH_LENGTH
  {
    if j > 0 { ChainIsU(us, prf, password, salt, i, j - 1); }
  }

  lemma {:induction false} FoldedBits(us: seq<Octets>, prf: Prf, password: Octets, salt: Octets, n: nat, o: nat, i: nat)
    requires IsPrf(prf) && IsChain(us, prf, password, salt, n) && o < HASH_LENGTH && i < 8
    requires forall u :: u in us ==> |u| == HASH_LENGTH
    ensures Bit(Folded(prf, password, salt, n, |us|, o) as nat, i) == SetBits(us, o, i) % 2
    decreases |us|
  {
    var c := |us|;
    hide Bit, Xor, BigEndian;
    ChainIsU(us, prf, password, salt, n, c - 1);
    if c == 1 {
      BitIsBit(us[0][o] as nat, i);
      assert us[..0] == [];
    } else {
      var before := us[..c - 1];
      assert forall u :: u in before ==> u in us;
      assert us[c - 1] in us;
      FoldedBits(before, prf, password, salt, n, o, i);
      XorBits(Folded(prf, password, salt, n, c - 1, o), us[c - 1][o], i);
    }
  }

  lemma BitIsBit(n: nat, i: nat)
    ensures Bit(n, i) < 2
  {
  }

  // A bit of the key is set exactly when an odd number of the values of its block have it set.
  lemma KeyBits(us: seq<Octets>, prf: Prf, password: Octets, salt: Octets, keyLength: nat, k: nat, i: nat)
    requires IsPrf(prf) && k < keyLength && i < 8 && IsChain(us, prf, password, salt, k / HASH_LENGTH + 1)
    ensures forall u :: u in us ==> |u| == HASH_LENGTH
    ensures var key := DerivedKey(prf, password, salt, |us|, keyLength);
            |key| == keyLength && Bit(key[k] as nat, i) == SetBits(us, k % HASH_LENGTH, i) % 2
  {
    hide Bit, Folded, BigEndian;
    forall u | u in us ensures |u| == HASH_LENGTH {
      var j :| 0 <= j < |us| && us[j] == u;
      ChainIsU(us, prf, password, salt, k / HASH_LENGTH + 1, j);
    }
    KeyOctets(prf, password, salt, |us|, keyLength, k);
    FoldedBits(us, prf, password, salt, k / HASH_LENGTH + 1, k % HASH_LENGTH, i);
  }

  // A shorter key is a prefix of a longer one.
  lemma ShorterKeyIsPrefix(prf: Prf, password: Octets, salt: Octets, c: nat, short: nat, long: nat)
    requires IsPrf(prf) && c >= 1 && short <= long
    ensures |DerivedKey(prf, password, salt, c, short)| == short && |DerivedKey(prf, password, salt, c, long)| == long
    ensures DerivedKey(prf, password, salt, c, short) <= DerivedKey(prf, password, salt, c, long)
  {
    forall k | 0 <= k < short
      ensures DerivedKey(prf, password, salt, c, short)[k] == DerivedKey(prf, password, salt, c, long)[k]
    {
      KeyOctets(prf, password, salt, c, short, k);
      KeyOctets(prf, password, salt, c, long, k);
    }
  }

  // ----- The code -----

  // XORs u into t, in place.
  method XorInto(t: array<byte>, u: Octets)
    requires t.Length == |u|
    modifies t
    ensures forall k :: 0 <= k < t.Length ==> t[k] == Xor(old(t[k]), u[k])
  {
    hide Xor;
    for k := 0 to t.Length
      invariant forall m :: 0 <= m < k ==> t[m] == Xor(old(t[m]), u[m])
      invariant forall m :: k <= m < t.Length ==> t[m] == old(t[m])
    {
      t[k] := Xor(t[k], u[k]);
    }
  }

  method Block(prf: Prf, password: Octets, salt: Octets, iterations: int, index: nat) returns (t: array<byte>)
    requires IsPrf(prf)
    ensures fresh(t) && t[..] == T(prf, password, salt, if iterations < 1 then 1 else iterations, index)
  {
    hide Xor, BigEndian;
    var u := prf(password, salt + BigEndian(index));
    assert u == U(prf, password, salt, index, 1);
    t := new byte[|u|](k requires 0 <= k < |u| => u[k]);
    var i := 1;
    while i < iterations
      invariant 1 <= i && (iterations < 1 || i <= iterations) && (iterations < 1 ==> i == 1)
      invariant t.Length == |u| == HASH_LENGTH && u == U(prf, password, salt, index, i)
      invariant forall k :: 0 <= k < HASH_LENGTH ==> t[k] == Folded(prf, password, salt, index, i, k)
    {
      u := prf(password, u);
      XorInto(t, u);
      i := i + 1;
    }
  }

  method DeriveKey(prf: Prf, password: Octets, salt: Octets, iterations: int, keyLength: nat) returns (key: Octets)
    requires IsPrf(prf)
    ensures key == DerivedKey(prf, password, salt, if iterations < 1 then 1 else iterations, keyLength)
  {
    var blocks := (keyLength + HASH_LENGTH - 1) / HASH_LENGTH;
    key := [];
    var index := 1;
    while index <= blocks
      invariant 1 <= index <= blocks + 1
      invariant key == Blocks(prf, password, salt, if iterations < 1 then 1 else iterations, index - 1)
    {
      var t := Block(prf, password, salt, iterations, index);
      key := key + t[..];
      index := index + 1;
    }
    key := key[..keyLength];
  }
}
