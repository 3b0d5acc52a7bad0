/** The decimal text that crosses the wire: `std::to_string`, `strcpy` and `atoi`. */
module Decimal {
  import opened Bytes

  const MINUS: Byte := 45
  const PLUS: Byte := 43

  predicate IsDigit(b: Byte) {
    48 <= b <= 57
  }

  /** The characters `isspace` accepts in the C locale. */
  predicate IsSpace(b: Byte) {
    b == 32 || 9 <= b <= 13
  }

  function DigitOf(n: nat): Byte
    requires n < 10
  {
    (48 + n) as Byte
  }

  function Digits(n: nat): seq<Byte> {
    if n < 10 then [DigitOf(n)] else Digits(n / 10) + [DigitOf(n % 10)]
  }

  /** `std::to_string`. */
  function ToString(n: int): seq<Byte> {
    if n < 0 then [MINUS] + Digits(-n) else Digits(n)
  }

  /** The number read from the leading digits of `s`, with `value` read before them. */
  function ParseDigits(s: seq<Byte>, value: nat): nat {
    if s == [] || !IsDigit(s[0]) then value
    else ParseDigits(s[1..], 10 * value + (s[0] as int - 48))
  }

  function ParseSigned(s: seq<Byte>): int {
    if s != [] && s[0] == MINUS then 0 - ParseDigits(s[1..], 0)
    else if s != [] && s[0] == PLUS then ParseDigits(s[1..], 0)
    else ParseDigits(s, 0)
  }

  function SkipSpaces(s: seq<Byte>): seq<Byte> {
    if s != [] && IsSpace(s[0]) then SkipSpaces(s[1..]) else s
  }

  /** `atoi` on the C string that starts `s`: blanks, an optional sign, then digits up to the first other byte. */
  function Atoi(s: seq<Byte>): int {
    ParseSigned(SkipSpaces(s))
  }

  /** What `strcpy(buffer, text)` leaves in a buffer. */
  function StrCpy(buffer: Block, text: seq<Byte>): Block
    requires |text| < BUFFER_SIZE
  {
    text + [NUL] + buffer[|text| + 1..]
  }

  /** `strcpy` into a buffer, byte by byte with the terminator last. */
  method CopyText(buffer: array<Byte>, text: seq<Byte>)
    requires buffer.Length == BUFFER_SIZE
    requires |text| < BUFFER_SIZE
    modifies buffer
    ensures buffer[..] == StrCpy(old(buffer[..]), text)
  {
    var i := 0;
    while i < |text|
      invariant 0 <= i <= |text|
      invariant buffer[..i] == text[..i]
      invariant buffer[i..] == old(buffer[i..])
    {
      buffer[i] := text[i];
      i := i + 1;
    }
    buffer[|text|] := NUL;
  }

  function Pow10(k: nat): nat {
    if k == 0 then 1 else 10 * Pow10(k - 1)
  }

  lemma {:induction false} DigitsLength(n: nat, k: nat)
    requires 0 < k && n < Pow10(k)
    ensures 0 < |Digits(n)| <= k
    decreases k
  {
    if n >= 10 {
      DigitsLength(n / 10, k - 1);
    }
  }

  lemma Pow10Of19()
    ensures Pow10(19) == 10_000_000_000_000_000_000
  {
    assert Pow10(4) == 10_000;
    assert Pow10(9) == 10 * Pow10(8) == 100 * Pow10(7) == 1000 * Pow10(6) == 10_000 * Pow10(5);
    assert Pow10(14) == 10 * Pow10(13) == 100 * Pow10(12) == 1000 * Pow10(11) == 10_000 * Pow10(10);
    assert Pow10(19) == 10 * Pow10(18) == 100 * Pow10(17) == 1000 * Pow10(16) == 10_000 * Pow10(15);
  }

  /** The text of a 64-bit count, terminator included, fits the message buffer. */
  lemma TextFits(n: Count)
    ensures 0 < |ToString(n)| && |ToString(n)| + 1 <= 21 < BUFFER_SIZE
  {
    Pow10Of19();
    var magnitude: nat := if n < 0 then 0 - n else n;
    DigitsLength(magnitude, 19);
  }

  lemma {:induction false} ParseOfDigits(n: nat, rest: seq<Byte>)
    ensures ParseDigits(Digits(n) + rest, 0) == ParseDigits(rest, n)
  {
    if n < 10 {
      assert (Digits(n) + rest)[1..] == rest;
    } else {
      var last := [DigitOf(n % 10)];
      ParseOfDigits(n / 10, last + rest);
      assert Digits(n) + rest == Digits(n / 10) + (last + rest);
      assert (last + rest)[1..] == rest;
    }
  }

  lemma {:induction false} DigitsStartWithDigit(n: nat)
    ensures |Digits(n)| > 0 && IsDigit(Digits(n)[0])
  {
    if n >= 10 {
      DigitsStartWithDigit(n / 10);
    }
  }

  /** Parsing a printed number followed by its terminator gives the number back, whatever comes after. */
  lemma ParsePrinted(n: int, tail: seq<Byte>)
    ensures Atoi(ToString(n) + [NUL] + tail) == n
  {
    var digits := Digits(if n < 0 then -n else n);
    DigitsStartWithDigit(if n < 0 then -n else n);
    ParseOfDigits(if n < 0 then -n else n, [NUL] + tail);
    assert digits + [NUL] + tail == digits + ([NUL] + tail);
    var s := ToString(n) + [NUL] + tail;
    assert SkipSpaces(s) == s;
    if n < 0 {
      assert s[1..] == digits + ([NUL] + tail);
    }
  }

  /** Print, copy over any previous contents of the buffer, parse: the number survives. */
  lemma DecimalRoundTrip(n: Count, previous: Block)
    ensures |ToString(n)| < BUFFER_SIZE
    ensures Atoi(StrCpy(previous, ToString(n))) == n
  {
    TextFits(n);
    ParsePrinted(n, previous[|ToString(n)| + 1..]);
  }

  lemma {:induction false} ParseStopsAtTerminator(text: seq<Byte>, value: nat, tail: seq<Byte>)
    ensures ParseDigits(text + [NUL] + tail, value) == ParseDigits(text, value)
  {
    if text != [] && IsDigit(text[0]) {
      assert (text + [NUL] + tail)[1..] == text[1..] + [NUL] + tail;
      ParseStopsAtTerminator(text[1..], 10 * value + (text[0] as int - 48), tail);
    }
  }

  /** For any text at all, the bytes after the terminator never reach the parsed value. */
  lemma {:induction false} BytesAfterTerminatorIgnored(text: seq<Byte>, tail: seq<Byte>)
    ensures Atoi(text + [NUL] + tail) == Atoi(text)
  {
    var s := text + [NUL] + tail;
    if text != [] && IsSpace(text[0]) {
      assert s[1..] == text[1..] + [NUL] + tail;
      BytesAfterTerminatorIgnored(text[1..], tail);
    } else {
      ParseStopsAtTerminator(text, 0, tail);
      if text != [] {
        assert s[1..] == text[1..] + [NUL] + tail;
        ParseStopsAtTerminator(text[1..], 0, tail);
      }
    }
  }

  predicate AllDigits(s: seq<Byte>) {
    forall k :: 0 <= k < |s| ==> IsDigit(s[k])
  }

  /** The number that digits stand for, by their places. */
  function Value(digits: seq<Byte>): nat
    requires AllDigits(digits)
  {
    if digits == [] then 0
    else 10 * Value(digits[..|digits| - 1]) + (digits[|digits| - 1] as int - 48)
  }

  lemma ValueOfOneMore(digits: seq<Byte>, last: Byte)
    requires AllDigits(digits) && IsDigit(last)
    ensures AllDigits(digits + [last]) && Value(digits + [last]) == 10 * Value(digits) + (last as int - 48)
  {
    assert (digits + [last])[..|digits|] == digits;
  }

  lemma {:induction false} ParsesToValue(done: seq<Byte>, digits: seq<Byte>, tail: seq<Byte>)
    requires AllDigits(done) && AllDigits(digits) && (tail == [] || !IsDigit(tail[0]))
    ensures AllDigits(done + digits) && ParseDigits(digits + tail, Value(done)) == Value(done + digits)
    decreases |digits|
  {
    if digits == [] {
      assert digits + tail == tail && done + digits == done;
    } else {
      ValueOfOneMore(done, digits[0]);
      ParsesToValue(done + [digits[0]], digits[1..], tail);
      assert (digits + tail)[1..] == digits[1..] + tail;
      assert done + [digits[0]] + digits[1..] == done + digits;
    }
  }

  lemma {:induction false} SkipsAllSpaces(blanks: seq<Byte>, rest: seq<Byte>)
    requires (forall k :: 0 <= k < |blanks| ==> IsSpace(blanks[k])) && (rest == [] || !IsSpace(rest[0]))
    ensures SkipSpaces(blanks + rest) == rest
    decreases |blanks|
  {
    if blanks == [] {
      assert blanks + rest == rest;
    } else {
      assert (blanks + rest)[1..] == blanks[1..] + rest;
      SkipsAllSpaces(blanks[1..], rest);
    }
  }

  /**
   What `atoi` reads: any blanks, a sign or none, then digits up to the first byte that is none, as many as there are.
   Every text has this form; with no digit the number is 0.
   */
  lemma AtoiReads(blanks: seq<Byte>, sign: seq<Byte>, digits: seq<Byte>, tail: seq<Byte>)
    requires forall k :: 0 <= k < |blanks| ==> blanks[k] == 32 || 9 <= blanks[k] <= 13
    requires sign == [] || sign == [PLUS] || sign == [MINUS]
    requires AllDigits(digits) && (tail == [] || !IsDigit(tail[0]))
    requires sign + digits == [] && tail != [] ==>
               tail[0] != 32 && !(9 <= tail[0] <= 13) && tail[0] != PLUS && tail[0] != MINUS
    ensures Atoi(blanks + (sign + digits + tail)) == if sign == [MINUS] then 0 - Value(digits) else Value(digits)
  {
    var s := sign + digits + tail;
    SkipsAllSpaces(blanks, s);
    ParsesToValue([], digits, tail);
    assert [] + digits == digits;
    if sign == [] {
      assert s == digits + tail;
    } else {
      assert s[1..] == digits + tail;
    }
  }

  lemma {:induction false} DigitsAreCanonical(n: nat)
    ensures AllDigits(Digits(n)) && Value(Digits(n)) == n
    ensures Digits(n) != [] && (|Digits(n)| > 1 ==> Digits(n)[0] != 48)
  {
    if n >= 10 {
      DigitsAreCanonical(n / 10);
      ValueOfOneMore(Digits(n / 10), DigitOf(n % 10));
      assert n / 10 > 0;
      if |Digits(n / 10)| == 1 {
        assert n / 10 < 10;
      }
    } else {
      ValueOfOneMore([], DigitOf(n));
      assert [] + [DigitOf(n)] == Digits(n);
    }
  }

  /** What is printed: a minus sign exactly for the negative, then the digits of the number without a leading zero. */
  lemma PrintsPlainly(n: int)
    ensures var digits := if n < 0 then ToString(n)[1..] else ToString(n);
            && (n < 0 ==> ToString(n)[0] == MINUS)
            && AllDigits(digits) && Value(digits) == (if n < 0 then 0 - n else n)
            && digits != [] && (|digits| > 1 ==> digits[0] != 48)
  {
    DigitsAreCanonical(if n < 0 then 0 - n else n);
  }
}
