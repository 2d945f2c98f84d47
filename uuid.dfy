/** A stand-in for the `uuid` crate: a UUID value, its canonical text form and a
    parser. The identifier layer only relies on two facts about them: parsing
    either yields a UUID or an error, and parsing the canonical text of a UUID
    gives that UUID back. */
module Uuids {
  import opened Wrappers
  import Text

  newtype byte = x: int | 0 <= x < 256

  /** 128 bits, kept as 16 bytes, most significant first. */
  type Uuid = b: seq<byte> | |b| == 16 witness seq(16, _ => 0 as byte)

  /** Why a string is not a UUID. */
  datatype UuidError =
    | InvalidLength(found: nat)
    | InvalidGroups
    | InvalidCharacter

  /** The diagnostic text of a parse error. */
  function ErrorText(e: UuidError): (t: string)
    ensures |t| > 0
  {
    match e
    case InvalidLength(n) => "invalid length: expected 32, 36, 38 or 45 characters, found " + Text.NatToString(n)
    case InvalidGroups => "invalid group separators: expected `-` after groups of 8, 4, 4 and 4 digits"
    case InvalidCharacter => "invalid character: expected a hexadecimal digit"
  }

  /** The value of a hexadecimal digit of either case. */
  function HexValue(c: char): (r: Option<nat>)
    ensures r.Some? ==> r.value < 16
  {
    if '0' <= c <= '9' then Some(c as int - '0' as int)
    else if 'a' <= c <= 'f' then Some(c as int - 'a' as int + 10)
    else if 'A' <= c <= 'F' then Some(c as int - 'A' as int + 10)
    else None
  }

  function ByteToHex(b: byte): string {
    [Text.HexDigit(b as nat / 16), Text.HexDigit(b as nat % 16)]
  }

  /** Two hexadecimal digits per byte, in order. */
  function HexOf(bs: seq<byte>): (s: string)
    ensures |s| == 2 * |bs|
    decreases |bs|
  {
    if bs == [] then [] else ByteToHex(bs[0]) + HexOf(bs[1..])
  }

  /** The bytes spelled by a string of hexadecimal digit pairs. */
  function ParseHex(s: string): (r: Option<seq<byte>>)
    ensures r.Some? ==> 2 * |r.value| == |s|
    decreases |s|
  {
    if |s| == 0 then Some([])
    else if |s| == 1 then None
    else
      match (HexValue(s[0]), HexValue(s[1]), ParseHex(s[2..]))
      case (Some(hi), Some(lo), Some(rest)) => Some([(hi * 16 + lo) as byte] + rest)
      case _ => None
  }

  /** 32 hexadecimal digits, no separators. */
  function ParseSimple(s: string): Result<Uuid, UuidError>
    requires |s| == 32
  {
    match ParseHex(s)
    case Some(bs) => Ok(bs)
    case None => Err(InvalidCharacter)
  }

  /** Groups of 8, 4, 4, 4 and 12 digits separated by `-`. */
  function ParseHyphenated(s: string): Result<Uuid, UuidError>
    requires |s| == 36
  {
    if s[8] != '-' || s[13] != '-' || s[18] != '-' || s[23] != '-' then Err(InvalidGroups)
    else ParseSimple(s[..8] + s[9..13] + s[14..18] + s[19..23] + s[24..])
  }

  /** Parses the simple, hyphenated, braced (`{...}`) and URN (`urn:uuid:...`)
      forms; any other length is rejected. */
  function ParseUuid(s: string): (r: Result<Uuid, UuidError>)
    ensures r.Ok? ==> |s| == 32 || |s| == 36 || |s| == 38 || |s| == 45
  {
    if |s| == 32 then ParseSimple(s)
    else if |s| == 36 then ParseHyphenated(s)
    else if |s| == 38 && s[0] == '{' && s[37] == '}' then ParseHyphenated(s[1..37])
    else if |s| == 45 && s[..9] == "urn:uuid:" then ParseHyphenated(s[9..])
    else Err(InvalidLength(|s|))
  }

  /** The canonical form: lower-case, hyphenated. */
  function UuidToString(u: Uuid): (s: string)
    ensures |s| == 36
  {
    HexOf(u[..4]) + "-" + HexOf(u[4..6]) + "-" + HexOf(u[6..8]) + "-" + HexOf(u[8..10]) + "-" + HexOf(u[10..])
  }

  lemma {:induction false} HexOfAppend(a: seq<byte>, b: seq<byte>)
    ensures HexOf(a + b) == HexOf(a) + HexOf(b)
    decreases |a|
  {
    if a != [] {
      assert (a + b)[1..] == a[1..] + b;
      HexOfAppend(a[1..], b);
    } else {
      assert a + b == b;
    }
  }

  lemma {:induction false} ParseHexOfHex(bs: seq<byte>)
    ensures ParseHex(HexOf(bs)) == Some(bs)
    decreases |bs|
  {
    if bs != [] {
      var s := HexOf(bs);
      var hi, lo := bs[0] as nat / 16, bs[0] as nat % 16;
      assert s[0] == Text.HexDigit(hi) && s[1] == Text.HexDigit(lo);
      assert s[2..] == HexOf(bs[1..]);
      ParseHexOfHex(bs[1..]);
      assert HexValue(Text.HexDigit(hi)) == Some(hi);
      assert HexValue(Text.HexDigit(lo)) == Some(lo);
      assert [(hi * 16 + lo) as byte] + bs[1..] == bs;
    }
  }

  /** Parsing the canonical text of a UUID gives that UUID back. */
  lemma UuidRoundTrip(u: Uuid)
    ensures ParseUuid(UuidToString(u)) == Ok(u)
  {
    var s := UuidToString(u);
    var g0, g1, g2, g3, g4 := HexOf(u[..4]), HexOf(u[4..6]), HexOf(u[6..8]), HexOf(u[8..10]), HexOf(u[10..]);
    assert s == g0 + "-" + g1 + "-" + g2 + "-" + g3 + "-" + g4;
    assert s[8] == '-' && s[13] == '-' && s[18] == '-' && s[23] == '-';
    assert s[..8] == g0 && s[9..13] == g1 && s[14..18] == g2 && s[19..23] == g3 && s[24..] == g4;
    HexOfAppend(u[..4], u[4..6]);
    HexOfAppend(u[..4] + u[4..6], u[6..8]);
    HexOfAppend(u[..4] + u[4..6] + u[6..8], u[8..10]);
    HexOfAppend(u[..4] + u[4..6] + u[6..8] + u[8..10], u[10..]);
    assert u[..4] + u[4..6] + u[6..8] + u[8..10] + u[10..] == u;
    ParseHexOfHex(u);
  }
}
