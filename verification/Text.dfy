/** The string operations of Go's standard library the modelled code relies on: trimming, ASCII
    case folding, byte-order comparison, split and join, and decimal printing and parsing; and lists
    without repetition. */
module Text {

  datatype Option<+T> = None | Some(value: T)

  // ----- White space and case -----

  // The code points of unicode.IsSpace.
  predicate IsSpace(c: char) {
    var n := c as int;
    9 <= n <= 13 || n == 32 || n == 0x85 || n == 0xA0 || n == 0x1680 || 0x2000 <= n <= 0x200a ||
    n == 0x2028 || n == 0x2029 || n == 0x202f || n == 0x205f || n == 0x3000
  }

  function TrimLeft(s: string): string {
    if s != [] && IsSpace(s[0]) then TrimLeft(s[1..]) else s
  }

  function TrimRight(s: string): string {
    if s != [] && IsSpace(s[|s| - 1]) then TrimRight(s[..|s| - 1]) else s
  }

  function TrimSpace(s: string): string {
    TrimRight(TrimLeft(s))
  }

  function UpperChar(c: char): char {
    if 'a' <= c <= 'z' then c - 'a' + 'A' else c
  }

  function LowerChar(c: char): char {
    if 'A' <= c <= 'Z' then c - 'A' + 'a' else c
  }

  function ToUpper(s: string): string {
    seq(|s|, i requires 0 <= i < |s| => UpperChar(s[i]))
  }

  function ToLower(s: string): string {
    seq(|s|, i requires 0 <= i < |s| => LowerChar(s[i]))
  }

  predicate EqualFold(a: string, b: string) {
    ToLower(a) == ToLower(b)
  }

  // The letters' two cases stand for each other, and nothing else changes.
  lemma CasesFold(s: string)
    ensures ToLower(ToUpper(s)) == ToLower(s) && ToUpper(ToLower(s)) == ToUpper(s)
    ensures forall i :: 0 <= i < |s| && !('A' <= s[i] <= 'Z') ==> ToLower(s)[i] == s[i]
    ensures forall i :: 0 <= i < |s| && !('a' <= s[i] <= 'z') ==> ToUpper(s)[i] == s[i]
    ensures ToLower("AZ") == "az" && EqualFold(ToUpper(s), ToLower(s))
  {
  }

  ghost predicate SpaceFree(s: string) {
    forall i :: 0 <= i < |s| ==> !IsSpace(s[i])
  }

  // No space inside: neither trimming direction can remove anything.
  lemma TrimSpaceFixed(s: string)
    requires SpaceFree(s)
    ensures TrimSpace(s) == s
  {
  }

  lemma {:induction false} TrimLeftStart(s: string)
    ensures TrimLeft(s) != [] ==> !IsSpace(TrimLeft(s)[0])
  {
    if s != [] && IsSpace(s[0]) { TrimLeftStart(s[1..]); }
  }

  lemma {:induction false} TrimRightEnds(s: string)
    ensures var r := TrimRight(s); r != [] ==> !IsSpace(r[|r| - 1]) && r[0] == s[0]
  {
    if s != [] && IsSpace(s[|s| - 1]) { TrimRightEnds(s[..|s| - 1]); }
  }

  lemma TrimSpaceTwice(s: string)
    ensures TrimSpace(TrimSpace(s)) == TrimSpace(s)
  {
    TrimLeftStart(s);
    TrimRightEnds(TrimLeft(s));
    hide IsSpace;
    var r := TrimSpace(s);
    assert TrimLeft(r) == r && TrimRight(r) == r;
  }

  // ----- The order of Go's string comparison -----

  predicate StrLess(a: string, b: string) {
    if b == [] then false
    else if a == [] then true
    else if a[0] != b[0] then a[0] < b[0]
    else StrLess(a[1..], b[1..])
  }

  lemma {:induction false} StrLessTotal(a: string, b: string)
    ensures a == b ==> !StrLess(a, b)
    ensures a != b ==> StrLess(a, b) != StrLess(b, a)
  {
    if a != [] && b != [] && a[0] == b[0] {
      StrLessTotal(a[1..], b[1..]);
      assert a == [a[0]] + a[1..] && b == [b[0]] + b[1..];
    }
  }

  lemma {:induction false} StrLessTransitive(a: string, b: string, c: string)
    requires StrLess(a, b) && StrLess(b, c)
    ensures StrLess(a, c)
  {
    if a != [] && a[0] == b[0] == c[0] {
      StrLessTransitive(a[1..], b[1..], c[1..]);
    }
  }

  // ----- Split and join -----

  function Split(s: string, sep: char): (parts: seq<string>)
    ensures |parts| > 0
  {
    if s == [] then [""]
    else
      var rest := Split(s[1..], sep);
      if s[0] == sep then [""] + rest else [[s[0]] + rest[0]] + rest[1..]
  }

  function Join(parts: seq<string>, sep: char): string {
    if parts == [] then ""
    else if |parts| == 1 then parts[0]
    else parts[0] + [sep] + Join(parts[1..], sep)
  }

  lemma {:induction false} SplitPrefix(head: string, tail: string, sep: char)
    requires sep !in head
    ensures var rest := Split(tail, sep);
            Split(head + tail, sep) == [head + rest[0]] + rest[1..]
  {
    var rest := Split(tail, sep);
    if head == [] {
      assert head + tail == tail && head + rest[0] == rest[0];
    } else {
      SplitPrefix(head[1..], tail, sep);
      assert (head + tail)[1..] == head[1..] + tail;
      assert [head[0]] + (head[1..] + rest[0]) == head + rest[0];
    }
  }

  // Splitting what was joined gives the parts back, as long as no part holds the separator.
  lemma {:induction false} SplitJoin(parts: seq<string>, sep: char)
    requires parts != []
    requires forall p :: p in parts ==> sep !in p
    ensures Split(Join(parts, sep), sep) == parts
  {
    if |parts| == 1 {
      SplitPrefix(parts[0], [], sep);
      assert parts[0] + [] == parts[0];
    } else {
      var tail := [sep] + Join(parts[1..], sep);
      SplitJoin(parts[1..], sep);
      SplitPrefix(parts[0], tail, sep);
      assert tail[1..] == Join(parts[1..], sep);
      assert parts[0] + [sep] + Join(parts[1..], sep) == parts[0] + tail;
      assert Split(tail, sep) == [""] + parts[1..];
      assert parts[0] + "" == parts[0] && parts == [parts[0]] + parts[1..];
    }
  }

  lemma {:induction false} JoinSpaceFree(parts: seq<string>, sep: char)
    requires !IsSpace(sep) && forall i :: 0 <= i < |parts| ==> SpaceFree(parts[i])
    ensures SpaceFree(Join(parts, sep))
  {
    if |parts| > 1 { JoinSpaceFree(parts[1..], sep); }
  }

  // ----- Lists without repetition -----

  ghost predicate Distinct<T>(s: seq<T>) {
    forall i, j :: 0 <= i < j < |s| ==> s[i] != s[j]
  }

  // ----- Decimal numbers -----

  function DigitChar(d: nat): char
    requires d < 10
  {
    '0' + d as char
  }

  function Digits(n: nat): string {
    if n < 10 then [DigitChar(n)] else Digits(n / 10) + [DigitChar(n % 10)]
  }

  predicate IsDigit(c: char) { '0' <= c <= '9' }

  function DigitsValue(s: string): nat
    requires forall c :: c in s ==> IsDigit(c)
  {
    if s == [] then 0
    else
      assert IsDigit(s[|s| - 1]);
      10 * DigitsValue(s[..|s| - 1]) + (s[|s| - 1] - '0') as nat
  }

  // strconv.Atoi on a 64-bit machine: an optional sign, at least one digit, no overflow.
  function Atoi(s: string): Option<int> {
    var signed := s != [] && (s[0] == '-' || s[0] == '+');
    var body := if signed then s[1..] else s;
    if body == [] || exists c :: c in body && !IsDigit(c) then None
    else
      var value: int := if signed && s[0] == '-' then -(DigitsValue(body) as int) else DigitsValue(body);
      if -0x8000_0000_0000_0000 <= value < 0x8000_0000_0000_0000 then Some(value) else None
  }

  lemma {:induction false} DigitsRoundTrip(n: nat)
    ensures |Digits(n)| > 0
    ensures forall c :: c in Digits(n) ==> IsDigit(c)
    ensures DigitsValue(Digits(n)) == n
  {
    if n >= 10 {
      DigitsRoundTrip(n / 10);
      assert Digits(n)[..|Digits(n)| - 1] == Digits(n / 10);
    }
  }

  lemma AtoiDigits(n: nat)
    requires n < 0x8000_0000_0000_0000
    ensures Atoi(Digits(n)) == Some(n)
  {
    DigitsRoundTrip(n);
    assert Digits(n)[0] in Digits(n);
  }
}
