/** The part of a gRPC status (`tonic::Status`) that the authorization layer
    inspects: its code and its message. */
module Grpc {
  import Text

  /** The numbers of the gRPC codes other than Unauthenticated (16) and
      Internal (13). */
  type OtherCode = n: int | 0 <= n <= 15 && n != 13

  /** The two codes the layer recognises, and every other code by number. */
  datatype Code = Unauthenticated | Internal | Other(number: OtherCode)

  datatype Status = Status(code: Code, message: string)

  /** The `Debug` name of a code. */
  function CodeText(c: Code): (t: string)
    ensures |t| > 0
    ensures c.Unauthenticated? <==> t == "Unauthenticated"
    ensures c.Internal? <==> t == "Internal"
  {
    match c
    case Unauthenticated => "Unauthenticated"
    case Internal => "Internal"
    case Other(n) =>
      if n == 0 then "Ok"
      else if n == 1 then "Cancelled"
      else if n == 2 then "Unknown"
      else if n == 3 then "InvalidArgument"
      else if n == 4 then "DeadlineExceeded"
      else if n == 5 then "NotFound"
      else if n == 6 then "AlreadyExists"
      else if n == 7 then "PermissionDenied"
      else if n == 8 then "ResourceExhausted"
      else if n == 9 then "FailedPrecondition"
      else if n == 10 then "Aborted"
      else if n == 11 then "OutOfRange"
      else if n == 12 then "Unimplemented"
      else if n == 14 then "Unavailable"
      else "DataLoss"
  }

  /** The ASCII characters `{:?}` prints as a backslash escape: quote,
      backslash, and the control characters. */
  predicate NeedsEscape(c: char) {
    c == '"' || c == '\\' || c < ' ' || c == '\U{7F}'
  }

  /** Lower-case hexadecimal of a value below 256, without leading zeros. */
  function SmallHex(n: nat): string
    requires n < 256
  {
    if n < 16 then [Text.HexDigit(n)] else [Text.HexDigit(n / 16), Text.HexDigit(n % 16)]
  }

  function EscapeChar(c: char): (t: string)
    ensures NeedsEscape(c) ==> |t| >= 2 && t[0] == '\\'
    ensures !NeedsEscape(c) ==> t == [c]
  {
    if c == '"' then "\\\""
    else if c == '\\' then "\\\\"
    else if c == '\n' then "\\n"
    else if c == '\r' then "\\r"
    else if c == '\t' then "\\t"
    else if c == '\0' then "\\0"
    else if c < ' ' || c == '\U{7F}' then "\\u{" + SmallHex(c as int) + "}"
    else [c]
  }

  /** A message with nothing to escape. */
  predicate Plain(message: string) {
    forall i :: 0 <= i < |message| ==> !NeedsEscape(message[i])
  }

  /** A non-empty message is plain exactly when its first character and
      the rest are. */
  lemma PlainUncons(s: string)
    requires |s| > 0
    ensures Plain(s) <==> !NeedsEscape(s[0]) && Plain(s[1..])
  {
    assert forall i :: 0 <= i < |s| - 1 ==> s[1..][i] == s[i + 1];
  }

  /** The body of `{:?}` of a string, without its quotes. A string with
      nothing to escape prints as itself, and every escape makes the text
      longer. */
  function Escaped(s: string): (t: string)
    ensures Plain(s) ==> t == s
    ensures |t| == |s| <==> Plain(s)
    ensures |t| >= |s|
    decreases |s|
  {
    if s == [] then []
    else
      PlainUncons(s);
      EscapeChar(s[0]) + Escaped(s[1..])
  }

  /** `{:?}` of a string: the escaped text inside double quotes, which is the
      string itself when it has nothing to escape. */
  function DebugString(s: string): (t: string)
    ensures |t| >= 2 && t[0] == '"' && t[|t| - 1] == '"'
    ensures Plain(s) <==> t == "\"" + s + "\""
  {
    "\"" + Escaped(s) + "\""
  }

  /** In text made of some head and the `{:?}` of a message, the quoted
      message occurs, and the message itself when it has nothing to
      escape. */
  lemma DebugStringInfix(head: string, message: string)
    ensures Text.IsInfix(DebugString(message), head + DebugString(message))
    ensures Plain(message) ==> Text.IsInfix(message, head + DebugString(message))
  {
    Text.InfixAtEnd(head, DebugString(message));
    Text.InfixEnclosed(head, "\"", message, "\"");
  }

  /** The text before the message in a printed status. */
  function StatusHead(c: Code): string {
    "status: " + CodeText(c) + ", message: "
  }

  /** In the printed status, the code's name comes first, then the quoted
      message. */
  lemma StatusTextParts(s: Status)
    ensures Text.IsInfix(CodeText(s.code), StatusHead(s.code) + DebugString(s.message))
    ensures Text.IsInfix(DebugString(s.message), StatusHead(s.code) + DebugString(s.message))
    ensures Plain(s.message) ==> Text.IsInfix(s.message, StatusHead(s.code) + DebugString(s.message))
  {
    DebugStringInfix(StatusHead(s.code), s.message);
    Text.InfixBeforeSeparator("status: ", CodeText(s.code), ", message: ", DebugString(s.message));
  }

  /** How a status prints inside an error message: its code's name, then its
      message as `{:?}` prints it. */
  function StatusText(s: Status): (t: string)
    ensures Text.IsInfix(CodeText(s.code), t)
    ensures Text.IsInfix(DebugString(s.message), t)
    ensures Plain(s.message) ==> Text.IsInfix(s.message, t)
  {
    StatusTextParts(s);
    StatusHead(s.code) + DebugString(s.message)
  }
}
