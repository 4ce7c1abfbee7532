/** Client secrets: the stored text "algorithm$iterations$salt$key" with base64url fields (section 5 of
    RFC 4648, unpadded), and its verification.  A secret is the octets of a Go string. */
module Secret {
  import opened Text
  import opened Pbkdf2

  const ALGORITHM := "pbkdf2_sha256"
  const ITERATIONS: nat := 120000
  const KEY_LENGTH: nat := 32

  // ----- base64url without padding -----

  predicate InAlphabet(c: char) {
    'A' <= c <= 'Z' || 'a' <= c <= 'z' || '0' <= c <= '9' || c == '-' || c == '_'
  }

  function SextetChar(n: nat): char
    requires n < 64
  {
    if n < 26 then 'A' + n as char
    else if n < 52 then 'a' + (n - 26) as char
    else if n < 62 then '0' + (n - 52) as char
    else if n == 62 then '-'
    else '_'
  }

  function CharSextet(c: char): nat
    requires InAlphabet(c)
  {
    if c <= '-' then 62
    else if c <= '9' then (c as int - '0' as int) + 52
    else if c <= 'Z' then c as int - 'A' as int
    else if c == '_' then 63
    else (c as int - 'a' as int) + 26
  }

  lemma SextetRoundTrip(n: nat)
    requires n < 64
    ensures InAlphabet(SextetChar(n)) && CharSextet(SextetChar(n)) == n
  {
  }

  function Encode(b: Octets): string {
    if |b| == 0 then ""
    else
      var n := b[0] as int;
      if |b| == 1 then [SextetChar(n / 4), SextetChar(n % 4 * 16)]
      else
        var m := b[1] as int;
        if |b| == 2 then [SextetChar(n / 4), SextetChar(n % 4 * 16 + m / 16), SextetChar(m % 16 * 4)]
        else
          var l := b[2] as int;
          [SextetChar(n / 4), SextetChar(n % 4 * 16 + m / 16), SextetChar(m % 16 * 4 + l / 64), SextetChar(l % 64)]
          + Encode(b[3..])
  }

  predicate AllInAlphabet(s: string) {
    forall i :: 0 <= i < |s| ==> InAlphabet(s[i])
  }

  function Octet(high: nat, low: nat): byte {
    ((high + low) % 256) as byte
  }

  // Groups of four characters; a last group of two or three drops its spare bits unchecked.
  function DecodeGroups(s: string): Option<Octets>
    requires AllInAlphabet(s)
  {
    if s == [] then Some([])
    else if |s| == 1 then None
    else
      var a, b := CharSextet(s[0]), CharSextet(s[1]);
      var first := Octet(a * 4, b / 16);
      if |s| == 2 then Some([first])
      else
        var c := CharSextet(s[2]);
        var second := Octet(b % 16 * 16, c / 4);
        if |s| == 3 then Some([first, second])
        else
          var third := Octet(c % 4 * 64, CharSextet(s[3]));
          match DecodeGroups(s[4..])
          case None => None
          case Some(rest) => Some([first, second, third] + rest)
  }

  function WithoutLineBreaks(s: string): string {
    if s == [] then []
    else if s[0] == '\r' || s[0] == '\n' then WithoutLineBreaks(s[1..])
    else [s[0]] + WithoutLineBreaks(s[1..])
  }

  // Line breaks are skipped wherever they stand; any other stranger is an error.
  function Decode(s: string): Option<Octets> {
    var t := WithoutLineBreaks(s);
    if AllInAlphabet(t) then DecodeGroups(t) else None
  }

  lemma {:induction false} EncodeInAlphabet(b: Octets)
    ensures AllInAlphabet(Encode(b))
  {
    hide SextetChar, InAlphabet;
    forall n: nat | n < 64 ensures InAlphabet(SextetChar(n)) { SextetRoundTrip(n); }
    if |b| >= 3 { EncodeInAlphabet(b[3..]); }
  }

  lemma {:induction false} NoLineBreaks(s: string)
    requires AllInAlphabet(s)
    ensures WithoutLineBreaks(s) == s
  {
    if s != [] { NoLineBreaks(s[1..]); }
  }

  lemma TwoParts(high: nat, low: nat)
    ensures low < 16 ==> (high * 16 + low) / 16 == high && (high * 16 + low) % 16 == low
    ensures low < 4 ==> (high * 4 + low) / 4 == high && (high * 4 + low) % 4 == low
  {
  }

  // The sextets of three octets, and the octets back.
  lemma SextetsOfOctets(n: nat, m: nat, l: nat)
    requires n < 256 && m < 256 && l < 256
    ensures var b, c := n % 4 * 16 + m / 16, m % 16 * 4 + l / 64;
            && n / 4 < 64 && b < 64 && c < 64 && l % 64 < 64
            && Octet(n / 4 * 4, b / 16) == n as byte
            && Octet(b % 16 * 16, c / 4) == m as byte
            && Octet(c % 4 * 64, l % 64) == l as byte
  {
    TwoParts(n % 4, m / 16);
    TwoParts(m % 16, l / 64);
  }

  lemma LastGroup(b: Octets)
    requires 0 < |b| < 3
    ensures AllInAlphabet(Encode(b)) && DecodeGroups(Encode(b)) == Some(b)
  {
    EncodeInAlphabet(b);
    hide SextetChar, InAlphabet, DecodeGroups;
    if |b| == 1 {
      GroupOfOne(b[0]);
      assert b == [b[0]];
    } else {
      GroupOfTwo(b[0], b[1]);
      assert b == [b[0], b[1]];
    }
  }

  lemma GroupOfOne(n: byte)
    ensures var s := [SextetChar(n as int / 4), SextetChar(n as int % 4 * 16)];
            AllInAlphabet(s) && DecodeGroups(s) == Some([n])
  {
    SextetsOfOctets(n as int, 0, 0);
    SextetRoundTrip(n as int / 4);
    SextetRoundTrip(n as int % 4 * 16);
    hide SextetChar, InAlphabet, CharSextet, Octet;
    var s := [SextetChar(n as int / 4), SextetChar(n as int % 4 * 16)];
    assert CharSextet(s[0]) == n as int / 4 && CharSextet(s[1]) == n as int % 4 * 16 == n as int % 4 * 16 + 0 / 16;
    assert Octet(CharSextet(s[0]) * 4, CharSextet(s[1]) / 16) == n;
  }

  lemma GroupOfTwo(n: byte, m: byte)
    ensures var s := [SextetChar(n as int / 4), SextetChar(n as int % 4 * 16 + m as int / 16),
        SextetChar(m as int % 16 * 4)];
            AllInAlphabet(s) && DecodeGroups(s) == Some([n, m])
  {
    SextetsOfOctets(n as int, m as int, 0);
    SextetRoundTrip(n as int / 4);
    SextetRoundTrip(n as int % 4 * 16 + m as int / 16);
    SextetRoundTrip(m as int % 16 * 4);
    hide SextetChar, InAlphabet, CharSextet, Octet;
    var s := [SextetChar(n as int / 4), SextetChar(n as int % 4 * 16 + m as int / 16), SextetChar(m as int % 16 * 4)];
    assert CharSextet(s[0]) == n as int / 4 && CharSextet(s[2]) == m as int % 16 * 4;
  }

  lemma FullGroup(n: byte, m: byte, l: byte, rest: string)
    requires AllInAlphabet(rest)
    ensures var n', m', l' := n as int, m as int, l as int;
            var s := [SextetChar(n' / 4), SextetChar(n' % 4 * 16 + m' / 16), SextetChar(m' % 16 * 4 + l' / 64),
                SextetChar(l' % 64)] + rest;
            AllInAlphabet(s)
            && DecodeGroups(s) == match DecodeGroups(rest) { case None => None case Some(r) => Some([n, m, l] + r) }
  {
    var n', m', l' := n as int, m as int, l as int;
    SextetsOfOctets(n', m', l');
    hide SextetChar, InAlphabet, CharSextet, Octet;
    forall n: nat | n < 64 ensures InAlphabet(SextetChar(n)) && CharSextet(SextetChar(n)) == n { SextetRoundTrip(n); }
    var s := [SextetChar(n' / 4), SextetChar(n' % 4 * 16 + m' / 16), SextetChar(m' % 16 * 4 + l' / 64),
        SextetChar(l' % 64)] + rest;
    assert s[4..] == rest;
  }

  lemma {:induction false} GroupsRoundTrip(b: Octets)
    ensures AllInAlphabet(Encode(b)) && DecodeGroups(Encode(b)) == Some(b)
  {
    hide SextetChar, InAlphabet, CharSextet, Octet, DecodeGroups;
    if |b| == 0 {
      assert Encode(b) == "";
      DecodeNothing();
    } else if |b| < 3 {
      LastGroup(b);
    } else {
      GroupsRoundTrip(b[3..]);
      FullGroup(b[0], b[1], b[2], Encode(b[3..]));
      assert b == [b[0], b[1], b[2]] + b[3..];
    }
  }

  lemma DecodeNothing()
    ensures DecodeGroups("") == Some([])
  {
  }

  // Decoding undoes encoding, for every octet string.
  lemma DecodeEncode(b: Octets)
    ensures Decode(Encode(b)) == Some(b)
  {
    EncodeInAlphabet(b);
    NoLineBreaks(Encode(b));
    GroupsRoundTrip(b);
  }

  // ----- Hashing and verifying -----

  function HashText(salt: Octets, key: Octets): string {
    Join([ALGORITHM, Digits(ITERATIONS), Encode(salt), Encode(key)], '$')
  }

  // What a stored text asks for: the iterations, the salt and the key to match.
  datatype Stored = Stored(iterations: int, salt: Octets, key: Octets)

  function ParseHash(hash: string): Option<Stored> {
    var parts := Split(hash, '$');
    if |parts| != 4 || parts[0] != ALGORITHM then None
    else
      match Atoi(parts[1])
      case None => None
      case Some(iterations) =>
        if iterations <= 0 then None
        else
          match (Decode(parts[2]), Decode(parts[3]))
          case (Some(salt), Some(key)) => Some(Stored(iterations, salt, key))
          case _ => None
  }

  ghost predicate Accepts(prf: Prf, hash: string, value: Octets)
    requires IsPrf(prf)
  {
    && hash != "" && value != []
    && var stored := ParseHash(hash);
       stored.Some? && stored.value.iterations >= 1
       && DerivedKey(prf, value, stored.value.salt, stored.value.iterations, |stored.value.key|) == stored.value.key
  }

  method HashClientSecret(prf: Prf, value: Octets, salt: Octets) returns (hash: string)
    requires IsPrf(prf)
    ensures hash == HashText(salt, DerivedKey(prf, value, salt, ITERATIONS, KEY_LENGTH))
  {
    var key := DeriveKey(prf, value, salt, ITERATIONS, KEY_LENGTH);
    hash := Join([ALGORITHM, Digits(ITERATIONS), Encode(salt), Encode(key)], '$');
  }

  method VerifyClientSecret(prf: Prf, hash: string, value: Octets) returns (accepted: bool)
    requires IsPrf(prf)
    ensures accepted <==> Accepts(prf, hash, value)
  {
    if hash == "" || value == [] { return false; }
    var parts := Split(hash, '$');
    if |parts| != 4 || parts[0] != ALGORITHM { return false; }
    var iterations := Atoi(parts[1]);
    if iterations.None? || iterations.value <= 0 { return false; }
    var salt := Decode(parts[2]);
    if salt.None? { return false; }
    var expected := Decode(parts[3]);
    if expected.None? { return false; }
    var actual := DeriveKey(prf, value, salt.value, iterations.value, |expected.value|);
    accepted := actual == expected.value;
  }

  // Parsing a hash gives back what it was made from.
  lemma ParseOfHash(salt: Octets, key: Octets)
    ensures HashText(salt, key) != "" && ParseHash(HashText(salt, key)) == Some(Stored(ITERATIONS, salt, key))
  {
    var parts := [ALGORITHM, Digits(ITERATIONS), Encode(salt), Encode(key)];
    var n := ITERATIONS;
    DigitsRoundTrip(n);
    EncodeInAlphabet(salt);
    EncodeInAlphabet(key);
    assert forall p :: p in parts ==> '$' !in p by {
      assert !IsDigit('$') && !InAlphabet('$');
      assert '$' !in ALGORITHM;
    }
    SplitJoin(parts, '$');
    AtoiDigits(n);
    DecodeEncode(salt);
    DecodeEncode(key);
    hide Join, Decode, Encode, Atoi, Digits;
    assert |Split(HashText(salt, key), '$')| == 4 && |Split("", '$')| == 1;
  }

  // A secret passes against another's hash exactly when it is not empty and derives the same key.
  lemma VerifyOfHash(prf: Prf, value: Octets, salt: Octets, presented: Octets)
    requires IsPrf(prf)
    ensures Accepts(prf, HashText(salt, DerivedKey(prf, value, salt, ITERATIONS, KEY_LENGTH)), presented)
            <==> presented != []
                 && DerivedKey(prf, presented, salt, ITERATIONS, KEY_LENGTH)
                     == DerivedKey(prf, value, salt, ITERATIONS, KEY_LENGTH)
  {
    var key := DerivedKey(prf, value, salt, ITERATIONS, KEY_LENGTH);
    KeyOctets(prf, value, salt, ITERATIONS, KEY_LENGTH, 0);
    ParseOfHash(salt, key);
  }

  // ----- Texts that accept anything -----

  // A pseudorandom function that answers one message with an octet of choice and all others with zeros.
  function Marked(message: Octets, mark: byte): Prf {
    (key: Octets, m: Octets) => if m == message then [mark] + seq(HASH_LENGTH - 1, i => 0) else seq(HASH_LENGTH, i => 0)
  }

  lemma XorWithZero()
    ensures Xor(0, 0) == 0 && Xor(1, 0) == 1
  {
  }

  // With the first message marked, the first octet of the first block is the mark, after any iterations.
  lemma {:induction false} MarkedFold(password: Octets, salt: Octets, mark: byte, c: nat)
    requires c >= 1 && (mark == 0 || mark == 1)
    ensures IsPrf(Marked(salt + BigEndian(1), mark))
    ensures Folded(Marked(salt + BigEndian(1), mark), password, salt, 1, c, 0) == mark
    ensures U(Marked(salt + BigEndian(1), mark), password, salt, 1, c) != salt + BigEndian(1)
  {
    var first := salt + BigEndian(1);
    var prf := Marked(first, mark);
    assert first[|first| - 1] == 1;
    if c > 1 {
      MarkedFold(password, salt, mark, c - 1);
      XorWithZero();
      hide Xor;
    }
  }

  lemma ParsedIsProper(hash: string)
    requires ParseHash(hash).Some?
    ensures hash != "" && ParseHash(hash).value.iterations >= 1
  {
    hide Atoi, Decode;
    assert |Split("", '$')| == 1;
  }

  // A well-formed text accepts every non-empty value, whatever the pseudorandom function, exactly when its key
  // is empty.
  lemma AcceptsAnythingExactly(hash: string)
    requires ParseHash(hash).Some?
    ensures (forall prf: Prf, value :: IsPrf(prf) && value != [] ==> Accepts(prf, hash, value))
            <==> ParseHash(hash).value.key == []
  {
    ParsedIsProper(hash);
    hide ParseHash, Marked, BigEndian;
    var stored := ParseHash(hash).value;
    if stored.key == [] {
      forall prf: Prf, value: Octets | IsPrf(prf) && value != [] ensures Accepts(prf, hash, value) {
        assert DerivedKey(prf, value, stored.salt, stored.iterations, 0) == [];
      }
    } else {
      var mark: byte := if stored.key[0] == 0 then 1 else 0;
      var prf, value: Octets := Marked(stored.salt + BigEndian(1), mark), [0];
      MarkedFold(value, stored.salt, mark, stored.iterations);
      KeyOctets(prf, value, stored.salt, stored.iterations, |stored.key|, 0);
      assert !Accepts(prf, hash, value);
    }
  }


  // No hash of a secret is such a text: its key has 32 octets, and it asks for 120000 iterations.
  lemma HashesAcceptNotAnything(prf: Prf, value: Octets, salt: Octets)
    requires IsPrf(prf)
    ensures var key := DerivedKey(prf, value, salt, ITERATIONS, KEY_LENGTH);
            && ParseHash(HashText(salt, key)) == Some(Stored(120000, salt, key)) && |key| == 32
            && exists prf': Prf, other :: IsPrf(prf') && other != [] && !Accepts(prf', HashText(salt, key), other)
  {
    var key := DerivedKey(prf, value, salt, ITERATIONS, KEY_LENGTH);
    KeyOctets(prf, value, salt, ITERATIONS, KEY_LENGTH, 0);
    ParseOfHash(salt, key);
    hide ParseHash, HashText, Accepts, DerivedKey;
    AcceptsAnythingExactly(HashText(salt, key));
  }

  // ----- The vectors of section 10 of RFC 4648, and the last two of the 64 characters -----

  // The octets of "foobar".
  const FOOBAR: Octets := [102, 111, 111, 98, 97, 114]

  lemma EncodesVectors()
    ensures Encode([]) == "" && Encode(FOOBAR[..1]) == "Zg" && Encode(FOOBAR[..2]) == "Zm8"
    ensures Encode(FOOBAR[..3]) == "Zm9v" && Encode(FOOBAR[..4]) == "Zm9vYg" && Encode(FOOBAR[..5]) == "Zm9vYmE"
    ensures Encode(FOOBAR) == "Zm9vYmFy" && Encode([251, 255]) == "-_8"
  {
    assert FOOBAR[..3][3..] == [] && FOOBAR[..4][3..] == FOOBAR[3..4] && FOOBAR[..5][3..] == FOOBAR[3..5];
    assert FOOBAR[3..][3..] == [] && FOOBAR[3..4] == [98] && FOOBAR[3..5] == [98, 97];
  }
}
