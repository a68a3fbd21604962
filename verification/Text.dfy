/**
 Decimal text: fixed-width digits, their reading back, splitting at a separator, and the
 character-by-character order of strings.

 Strings are sequences of characters. Integer texts hold plain digits only, as the programs print
 them; what else an integer parser may accept is left to the modules that take one as a parameter.
 */
module Text {

  datatype Option<T> = None | Some(value: T)

  function Digit(d: int): char
    requires 0 <= d < 10
  {
    "0123456789"[d]
  }

  function DigitValue(c: char): int {
    c as int - '0' as int
  }

  predicate IsDigit(c: char) {
    '0' <= c <= '9'
  }

  lemma DigitReads(d: int)
    requires 0 <= d < 10
    ensures IsDigit(Digit(d)) && DigitValue(Digit(d)) == d
  {}

  function Pad2(n: int): string
    requires 0 <= n < 100
  {
    [Digit(n / 10), Digit(n % 10)]
  }

  function Pad3(n: int): string
    requires 0 <= n < 1000
  {
    [Digit(n / 100)] + Pad2(n % 100)
  }

  function Pad4(n: int): string
    requires 0 <= n < 10000
  {
    Pad2(n / 100) + Pad2(n % 100)
  }

  /** Decimal digits without padding. */
  function Decimal(n: nat): string {
    if n < 10 then [Digit(n)] else Decimal(n / 10) + [Digit(n % 10)]
  }

  /** A year in at least four digits. */
  function YearText(year: nat): string {
    if year < 10000 then Pad4(year) else Decimal(year)
  }

  /** Reads a non-empty run of digits. */
  function ParseInt(s: string): Option<nat> {
    if s == [] || !IsDigit(s[|s| - 1]) then None
    else if |s| == 1 then Some(DigitValue(s[0]))
    else match ParseInt(s[..|s| - 1])
      case None => None
      case Some(high) => Some(10 * high + DigitValue(s[|s| - 1]))
  }

  lemma {:induction false} ParseSnoc(s: string, d: int)
    requires 0 <= d < 10 && ParseInt(s).Some?
    ensures ParseInt(s + [Digit(d)]) == Some(10 * ParseInt(s).value + d)
  {
    var t := s + [Digit(d)];
    DigitReads(d);
    assert t[..|t| - 1] == s;
  }

  lemma ParseDigit(d: int)
    requires 0 <= d < 10
    ensures ParseInt([Digit(d)]) == Some(d)
  {
    DigitReads(d);
  }

  lemma ParsePad2(n: int)
    requires 0 <= n < 100
    ensures ParseInt(Pad2(n)) == Some(n)
  {
    ParseDigit(n / 10);
    ParseSnoc([Digit(n / 10)], n % 10);
    assert Pad2(n) == [Digit(n / 10)] + [Digit(n % 10)];
  }

  lemma ParseThenPad2(s: string, n: int)
    requires ParseInt(s).Some? && 0 <= n < 100
    ensures ParseInt(s + Pad2(n)) == Some(100 * ParseInt(s).value + n)
  {
    ParseSnoc(s, n / 10);
    ParseSnoc(s + [Digit(n / 10)], n % 10);
    assert s + Pad2(n) == s + [Digit(n / 10)] + [Digit(n % 10)];
  }

  lemma ParsePad3(n: int)
    requires 0 <= n < 1000
    ensures ParseInt(Pad3(n)) == Some(n)
  {
    ParseDigit(n / 100);
    ParseThenPad2([Digit(n / 100)], n % 100);
  }

  lemma ParsePad4(n: int)
    requires 0 <= n < 10000
    ensures ParseInt(Pad4(n)) == Some(n)
  {
    ParsePad2(n / 100);
    ParseThenPad2(Pad2(n / 100), n % 100);
  }

  // ---------- splitting ----------

  /** The parts of `s` between occurrences of `c`; there is always at least one. */
  function Split(s: string, c: char): (parts: seq<string>)
    ensures parts != []
  {
    if s == [] then [[]]
    else
      var rest := Split(s[1..], c);
      if s[0] == c then [[]] + rest
      else [[s[0]] + rest[0]] + rest[1..]
  }

  lemma {:induction false} SplitWhole(s: string, c: char)
    requires c !in s
    ensures Split(s, c) == [s]
  {
    if s != [] {
      NotInTail(s, c);
      SplitWhole(s[1..], c);
      assert s == [s[0]] + s[1..];
    }
  }

  lemma {:induction false} SplitAt(a: string, c: char, b: string)
    requires c !in a
    ensures Split(a + [c] + b, c) == [a] + Split(b, c)
  {
    var s := a + [c] + b;
    if a == [] {
      assert s[1..] == b;
    } else {
      NotInTail(a, c);
      assert s[1..] == a[1..] + [c] + b;
      SplitAt(a[1..], c, b);
      assert a == [a[0]] + a[1..];
    }
  }

  lemma NotInTail(s: string, c: char)
    requires s != [] && c !in s
    ensures s[0] != c && c !in s[1..]
  {
    assert s[0] in s;
  }

  lemma SplitThree(a: string, c: char, b: string, d: string)
    requires c !in a && c !in b && c !in d
    ensures Split(a + [c] + b + [c] + d, c) == [a, b, d]
  {
    SplitAt(a, c, b + [c] + d);
    assert a + [c] + (b + [c] + d) == a + [c] + b + [c] + d;
    SplitAt(b, c, d);
    SplitWhole(d, c);
  }

  // ---------- order ----------

  predicate LexLess(a: string, b: string) {
    if b == [] then false
    else if a == [] then true
    else a[0] < b[0] || (a[0] == b[0] && LexLess(a[1..], b[1..]))
  }

  predicate LexLessEq(a: string, b: string) {
    a == b || LexLess(a, b)
  }

  /** Strings that start with equally long parts are ordered by those parts first. */
  lemma {:induction false} LexConcat(a: string, b: string, x: string, y: string)
    requires |a| == |b|
    ensures LexLess(a + x, b + y) <==> LexLess(a, b) || (a == b && LexLess(x, y))
  {
    if a == [] {
      assert a + x == x && b + y == y;
    } else {
      LexConcat(a[1..], b[1..], x, y);
      assert (a + x)[1..] == a[1..] + x && (b + y)[1..] == b[1..] + y;
      assert a == b <==> a[0] == b[0] && a[1..] == b[1..];
    }
  }

  lemma {:induction false} LexIrreflexive(a: string)
    ensures !LexLess(a, a)
  {
    if a != [] {
      LexIrreflexive(a[1..]);
    }
  }

  lemma DigitOrder(m: int, n: int)
    requires 0 <= m < 10 && 0 <= n < 10
    ensures LexLess([Digit(m)], [Digit(n)]) <==> m < n
    ensures [Digit(m)] == [Digit(n)] <==> m == n
  {
    DigitReads(m);
    DigitReads(n);
    if m != n {
      assert [Digit(m)][0] != [Digit(n)][0];
    }
  }

  lemma Pad2Order(m: int, n: int)
    requires 0 <= m < 100 && 0 <= n < 100
    ensures LexLess(Pad2(m), Pad2(n)) <==> m < n
    ensures Pad2(m) == Pad2(n) <==> m == n
  {
    DigitOrder(m / 10, n / 10);
    DigitOrder(m % 10, n % 10);
    LexConcat([Digit(m / 10)], [Digit(n / 10)], [Digit(m % 10)], [Digit(n % 10)]);
    assert Pad2(m) == [Digit(m / 10)] + [Digit(m % 10)];
    assert Pad2(n) == [Digit(n / 10)] + [Digit(n % 10)];
    ParsePad2(m);
    ParsePad2(n);
  }

  lemma Pad3Order(m: int, n: int)
    requires 0 <= m < 1000 && 0 <= n < 1000
    ensures LexLess(Pad3(m), Pad3(n)) <==> m < n
    ensures Pad3(m) == Pad3(n) <==> m == n
  {
    DigitOrder(m / 100, n / 100);
    Pad2Order(m % 100, n % 100);
    LexConcat([Digit(m / 100)], [Digit(n / 100)], Pad2(m % 100), Pad2(n % 100));
    ParsePad3(m);
    ParsePad3(n);
  }

  lemma Pad4Order(m: int, n: int)
    requires 0 <= m < 10000 && 0 <= n < 10000
    ensures LexLess(Pad4(m), Pad4(n)) <==> m < n
    ensures Pad4(m) == Pad4(n) <==> m == n
  {
    Pad2Order(m / 100, n / 100);
    Pad2Order(m % 100, n % 100);
    LexConcat(Pad2(m / 100), Pad2(n / 100), Pad2(m % 100), Pad2(n % 100));
    ParsePad4(m);
    ParsePad4(n);
  }

  ghost predicate AllDigits(s: string) {
    forall i :: 0 <= i < |s| ==> IsDigit(s[i])
  }

  lemma DigitsContain(s: string, c: char)
    requires AllDigits(s) && !IsDigit(c)
    ensures c !in s
  {}

  lemma Pad2Digits(n: int)
    requires 0 <= n < 100
    ensures AllDigits(Pad2(n))
  {
    DigitReads(n / 10);
    DigitReads(n % 10);
  }

  /** Zero-padded text contains digits only, so no separator occurs in it. */
  lemma PadLacks(n: int, c: char)
    requires 0 <= n && !IsDigit(c)
    ensures n < 100 ==> c !in Pad2(n)
    ensures n < 10000 ==> c !in Pad4(n)
  {
    if n < 100 {
      Pad2Digits(n);
      DigitsContain(Pad2(n), c);
    }
    if n < 10000 {
      Pad2Digits(n / 100);
      Pad2Digits(n % 100);
      DigitsContain(Pad2(n / 100), c);
      DigitsContain(Pad2(n % 100), c);
    }
  }

  lemma PadLengths(n: int)
    requires 0 <= n
    ensures n < 100 ==> |Pad2(n)| == 2
    ensures n < 1000 ==> |Pad3(n)| == 3
    ensures n < 10000 ==> |Pad4(n)| == 4
  {}

  /** The white space of byte strings. */
  predicate IsAsciiSpace(c: char) {
    c == ' ' || '\t' <= c <= '\r'
  }

  /** The white space of character strings. */
  predicate IsSpace(c: char) {
    var code := c as int;
    || IsAsciiSpace(c) || 0x1C <= code <= 0x1F || code == 0x85 || code == 0xA0 || code == 0x1680
    || 0x2000 <= code <= 0x200A || code == 0x2028 || code == 0x2029 || code == 0x202F || code == 0x205F
      || code == 0x3000
  }

  /** The characters of key ids, model names and versions. */
  predicate IsIdChar(c: char) {
    'A' <= c <= 'Z' || 'a' <= c <= 'z' || '0' <= c <= '9' || c == '.' || c == '_' || c == '-'
  }
}
