/** Text helpers standing in for the formatting machinery of Rust's `format!`:
    decimal rendering of integers, joining, and an infix relation used to
    state that a rendered message mentions a value. */
module Text {

  predicate IsDigit(c: char) {
    '0' <= c <= '9'
  }

  predicate AllDigits(s: string) {
    forall i :: 0 <= i < |s| ==> IsDigit(s[i])
  }

  function DigitChar(d: nat): (c: char)
    requires d < 10
    ensures IsDigit(c) && c as int - '0' as int == d
  {
    ('0' as int + d) as char
  }

  /** Lower-case hexadecimal digit for a value below 16. */
  function HexDigit(n: nat): char
    requires n < 16
  {
    if n < 10 then ('0' as int + n) as char else ('a' as int + n - 10) as char
  }

  /** Decimal rendering of a natural number, as `{}` prints an unsigned integer:
      at least one digit and no leading zero. */
  function NatToString(n: nat): (s: string)
    ensures |s| >= 1 && AllDigits(s)
    ensures s[0] == '0' <==> n == 0
    ensures n == 0 ==> s == "0"
    decreases n
  {
    if n < 10 then [DigitChar(n)] else NatToString(n / 10) + [DigitChar(n % 10)]
  }

  /** The value of a digit string, read most significant digit first. */
  function DecimalValue(s: string): nat
    requires AllDigits(s)
    decreases |s|
  {
    if s == [] then 0
    else DecimalValue(s[..|s| - 1]) * 10 + (s[|s| - 1] as int - '0' as int)
  }

  /** Reading back a rendered number gives the number. */
  lemma {:induction false} DecimalRoundTrip(n: nat)
    ensures DecimalValue(NatToString(n)) == n
    decreases n
  {
    var s := NatToString(n);
    if n >= 10 {
      DecimalRoundTrip(n / 10);
      assert s[..|s| - 1] == NatToString(n / 10);
    }
  }

  /** Decimal rendering of a signed integer, with a leading '-' when negative. */
  function IntToString(i: int): (s: string)
    ensures |s| >= 1 && (i < 0 <==> s[0] == '-')
    ensures i >= 0 ==> AllDigits(s) && DecimalValue(s) == i
    ensures i < 0 ==> AllDigits(s[1..]) && DecimalValue(s[1..]) == -i
  {
    DecimalRoundTrip(if i < 0 then -i else i);
    if i < 0 then "-" + NatToString(-i) else NatToString(i)
  }

  /** The elements of `parts` separated by `sep`. */
  function Join(parts: seq<string>, sep: string): string
    decreases |parts|
  {
    if |parts| == 0 then ""
    else if |parts| == 1 then parts[0]
    else parts[0] + sep + Join(parts[1..], sep)
  }

  /** `needle` occurs somewhere inside `hay`. */
  ghost predicate IsInfix(needle: string, hay: string) {
    exists k :: 0 <= k <= |hay| && needle <= hay[k..]
  }

  lemma InfixOfConcat(before: string, needle: string, after: string)
    ensures IsInfix(needle, before + needle + after)
  {
    var hay := before + needle + after;
    assert needle <= hay[|before|..];
  }

  lemma InfixAtEnd(before: string, needle: string)
    ensures IsInfix(needle, before + needle)
  {
    assert needle <= (before + needle)[|before|..];
  }

  /** Both values of a message of the shape `head a mid b tail` occur in it. */
  lemma InfixPair(head: string, a: string, mid: string, b: string, tail: string)
    ensures IsInfix(a, head + a + mid + b + tail)
    ensures IsInfix(b, head + a + mid + b + tail)
  {
    InfixAtEnd(head, a);
    InfixExtend(a, head + a, mid);
    InfixExtend(a, head + a + mid, b);
    InfixExtend(a, head + a + mid + b, tail);
    InfixAtEnd(head + a + mid, b);
    InfixExtend(b, head + a + mid + b, tail);
  }

  /** Text after an infix keeps it an infix. */
  lemma InfixExtend(needle: string, hay: string, after: string)
    requires IsInfix(needle, hay)
    ensures IsInfix(needle, hay + after)
  {
    var k :| 0 <= k <= |hay| && needle <= hay[k..];
    assert (hay + after)[k..] == hay[k..] + after;
  }

  /** Text before an infix keeps it an infix. */
  lemma InfixPrepend(needle: string, before: string, hay: string)
    requires IsInfix(needle, hay)
    ensures IsInfix(needle, before + hay)
  {
    var k :| 0 <= k <= |hay| && needle <= hay[k..];
    assert (before + hay)[|before| + k..] == hay[k..];
  }

  /** A needle between delimiters, after some head, is an infix. */
  lemma InfixEnclosed(head: string, open: string, needle: string, close: string)
    ensures IsInfix(needle, head + (open + needle + close))
  {
    InfixOfConcat(head + open, needle, close);
    assert head + (open + needle + close) == head + open + needle + close;
  }

  /** A value between a head and a separator is an infix, whatever follows. */
  lemma InfixBeforeSeparator(head: string, needle: string, sep: string, tail: string)
    ensures IsInfix(needle, head + needle + sep + tail)
  {
    assert needle <= (head + needle + sep + tail)[|head|..];
  }

  /** Each of three values interleaved with fixed text is an infix. */
  lemma InfixTriple(p: string, a: string, q: string, b: string, r: string, c: string, t: string)
    ensures IsInfix(a, p + a + q + b + r + c + t)
    ensures IsInfix(b, p + a + q + b + r + c + t)
    ensures IsInfix(c, p + a + q + b + r + c + t)
  {
    var hay := p + a + q + b + r + c + t;
    assert a <= hay[|p|..];
    assert b <= hay[|p + a + q|..];
    assert c <= hay[|p + a + q + b + r|..];
  }

  /** Each part occurs in the joined text. */
  lemma {:induction false} JoinHasPart(parts: seq<string>, sep: string, i: nat)
    requires i < |parts|
    ensures IsInfix(parts[i], Join(parts, sep))
    decreases |parts|
  {
    if |parts| == 1 {
      InfixAtEnd("", parts[0]);
      assert "" + parts[0] == parts[0];
    } else {
      var rest := Join(parts[1..], sep);
      assert Join(parts, sep) == parts[0] + sep + rest;
      if i == 0 {
        InfixOfConcat("", parts[0], sep + rest);
        assert "" + parts[0] + (sep + rest) == parts[0] + sep + rest;
      } else {
        JoinHasPart(parts[1..], sep, i - 1);
        assert parts[1..][i - 1] == parts[i];
        InfixPrepend(parts[i], parts[0] + sep, rest);
      }
    }
  }

  /** Every part occurs in the joined text. */
  lemma JoinHasParts(parts: seq<string>, sep: string)
    ensures forall i :: 0 <= i < |parts| ==> IsInfix(parts[i], Join(parts, sep))
  {
    forall i | 0 <= i < |parts|
      ensures IsInfix(parts[i], Join(parts, sep))
    {
      JoinHasPart(parts, sep, i);
    }
  }

  /** Every part occurs in the joined text between delimiters. */
  lemma EnclosedJoinHasParts(open: string, parts: seq<string>, sep: string, close: string)
    ensures forall i :: 0 <= i < |parts| ==> IsInfix(parts[i], open + Join(parts, sep) + close)
  {
    JoinHasParts(parts, sep);
    forall i | 0 <= i < |parts|
      ensures IsInfix(parts[i], open + Join(parts, sep) + close)
    {
      InfixPrepend(parts[i], open, Join(parts, sep));
      InfixExtend(parts[i], open + Join(parts, sep), close);
    }
  }
}
