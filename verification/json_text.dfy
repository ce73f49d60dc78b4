/**
 * `JSON.stringify` and `JSON.parse` (ECMA-404 text) over the values of
 * module Json, and the round trip the Route 53 metadata relies on.
 */
module JsonText {
  import opened Wrappers
  import opened Json

  datatype Parsed<T> = Parsed(value: T, rest: string)

  const Hex := "0123456789abcdef"

  // ---------------------------------------------------------------------
  // JSON.stringify
  // ---------------------------------------------------------------------

  /** How `JSON.stringify` writes one character inside a string literal. */
  function EscapeChar(c: char): string {
    if c == '"' then "\\\""
    else if c == '\\' then "\\\\"
    else if c == '\U{0008}' then "\\b"
    else if c == '\U{000C}' then "\\f"
    else if c == '\n' then "\\n"
    else if c == '\r' then "\\r"
    else if c == '\t' then "\\t"
    else if c < ' ' then "\\u00" + [Hex[c as int / 16], Hex[c as int % 16]]
    else [c]
  }

  function Escape(s: string): string {
    if s == [] then [] else EscapeChar(s[0]) + Escape(s[1..])
  }

  function Quote(s: string): string {
    "\"" + Escape(s) + "\""
  }

  /** `JSON.stringify(v)` (no indentation). */
  function Stringify(v: Value): (r: string)
    ensures v.JObj? ==> |r| >= 2 && r[0] == '{' && r[|r| - 1] == '}'
    ensures v.JArr? ==> |r| >= 2 && r[0] == '[' && r[|r| - 1] == ']'
    ensures v.JStr? ==> |r| >= 2 && r[0] == '"' && r[|r| - 1] == '"'
    ensures !v.JNum? ==> r != [] && !IsWs(r[0])
  {
    match v
    case JNull => "null"
    case JBool(b) => if b then "true" else "false"
    case JNum(t) => t
    case JStr(s) => Quote(s)
    case JArr(items) => "[" + StringifyItems(items) + "]"
    case JObj(ms) => "{" + StringifyMembers(ms) + "}"
  }

  function StringifyItems(items: seq<Value>): string {
    if items == [] then ""
    else Stringify(items[0]) + (if |items| == 1 then "" else "," + StringifyItems(items[1..]))
  }

  function MemberText(m: Member): string {
    Quote(m.key) + ":" + Stringify(m.value)
  }

  function StringifyMembers(ms: seq<Member>): string {
    if ms == [] then ""
    else MemberText(ms[0]) + (if |ms| == 1 then "" else "," + StringifyMembers(ms[1..]))
  }

  // ---------------------------------------------------------------------
  // JSON.parse
  // ---------------------------------------------------------------------

  predicate IsWs(c: char) {
    c == ' ' || c == '\t' || c == '\n' || c == '\r'
  }

  function SkipWs(s: string): (r: string)
    ensures |r| <= |s|
    ensures r == [] || !IsWs(r[0])
  {
    if s != [] && IsWs(s[0]) then SkipWs(s[1..]) else s
  }

  function HexValue(c: char): Option<nat> {
    if '0' <= c <= '9' then Some(c as int - '0' as int)
    else if 'a' <= c <= 'f' then Some(c as int - 'a' as int + 10)
    else if 'A' <= c <= 'F' then Some(c as int - 'A' as int + 10)
    else None
  }

  /** Four hexadecimal digits, as after `\u`. */
  function Hex4(s: string): (r: Option<nat>)
    ensures r.Some? ==> r.value < 0x10000
  {
    if |s| < 4 then None
    else match (HexValue(s[0]), HexValue(s[1]), HexValue(s[2]), HexValue(s[3]))
      case (Some(a), Some(b), Some(c), Some(d)) =>
        assert a < 16 && b < 16 && c < 16 && d < 16;
        Some(((a * 16 + b) * 16 + c) * 16 + d)
      case _ => None
  }

  /** The escape after a backslash; a surrogate pair becomes one character. */
  function ParseEscape(s: string): (r: Option<Parsed<char>>)
    ensures r.Some? ==> |r.value.rest| < |s|
  {
    if s == [] then None
    else if s[0] == '"' || s[0] == '\\' || s[0] == '/' then Some(Parsed(s[0], s[1..]))
    else if s[0] == 'b' then Some(Parsed('\U{0008}', s[1..]))
    else if s[0] == 'f' then Some(Parsed('\U{000C}', s[1..]))
    else if s[0] == 'n' then Some(Parsed('\n', s[1..]))
    else if s[0] == 'r' then Some(Parsed('\r', s[1..]))
    else if s[0] == 't' then Some(Parsed('\t', s[1..]))
    else if s[0] == 'u' then
      match Hex4(s[1..])
      case None => None
      case Some(n) =>
        if n < 0xD800 || 0xE000 <= n then Some(Parsed(n as char, s[5..]))
        else if n < 0xDC00 && |s| >= 11 && s[5] == '\\' && s[6] == 'u' then
          match Hex4(s[7..])
          case Some(lo) =>
            if 0xDC00 <= lo < 0xE000 then
              Some(Parsed((0x10000 + (n - 0xD800) * 0x400 + (lo - 0xDC00)) as char, s[11..]))
            else None
          case None => None
        else None
    else None
  }

  /** The characters of a string literal after its opening quote. */
  function ParseStringBody(s: string): (r: Option<Parsed<string>>)
    ensures r.Some? ==> |r.value.rest| < |s|
  {
    if s == [] then None
    else if s[0] == '"' then Some(Parsed([], s[1..]))
    else if s[0] == '\\' then
      match ParseEscape(s[1..])
      case None => None
      case Some(Parsed(c, r1)) =>
        match ParseStringBody(r1)
        case None => None
        case Some(Parsed(t, r2)) => Some(Parsed([c] + t, r2))
    else if s[0] < ' ' then None
    else
      match ParseStringBody(s[1..])
      case None => None
      case Some(Parsed(t, r2)) => Some(Parsed([s[0]] + t, r2))
  }

  predicate IsDigit(c: char) { '0' <= c <= '9' }

  function Digits(s: string): (n: nat)
    ensures n <= |s|
  {
    if s != [] && IsDigit(s[0]) then 1 + Digits(s[1..]) else 0
  }

  /** Length of the integer part (`0` or a digit run not starting with 0). */
  function IntPartLength(t: string): (n: nat)
    ensures n <= |t|
  {
    if t != [] && t[0] == '0' then 1 else Digits(t)
  }

  /** Length of an optional `.digits` part; -1 when the dot has no digits. */
  function FracPartLength(u: string): (n: int)
    ensures -1 <= n <= |u|
  {
    if u != [] && u[0] == '.' then
      var d := Digits(u[1..]);
      if d == 0 then -1 else 1 + d
    else 0
  }

  /** Length of an optional exponent; -1 when it has no digits. */
  function ExpPartLength(w: string): (n: int)
    ensures -1 <= n <= |w|
  {
    if w != [] && (w[0] == 'e' || w[0] == 'E') then
      var sg := if |w| > 1 && (w[1] == '+' || w[1] == '-') then 1 else 0;
      var d := Digits(w[1 + sg..]);
      if d == 0 then -1 else 1 + sg + d
    else 0
  }

  /** Length of the number at the start of `s`, or None when it is malformed. */
  function NumberLength(s: string): (r: Option<nat>)
    ensures r.Some? ==> 0 < r.value <= |s|
  {
    var sign := if s != [] && s[0] == '-' then 1 else 0;
    var intLen := IntPartLength(s[sign..]);
    if intLen == 0 then None
    else
      var fracLen := FracPartLength(s[sign + intLen..]);
      if fracLen < 0 then None
      else
        var expLen := ExpPartLength(s[sign + intLen + fracLen..]);
        if expLen < 0 then None
        else Some(sign + intLen + fracLen + expLen)
  }

  /** A literal name such as `null` at the start of `t`. */
  function Keyword(t: string, word: string, v: Value): (r: Option<Parsed<Value>>)
    requires word != []
    ensures r.Some? ==> |r.value.rest| < |t|
  {
    if |t| >= |word| && t[..|word|] == word then Some(Parsed(v, t[|word|..])) else None
  }

  function ParseValue(s: string): (r: Option<Parsed<Value>>)
    ensures r.Some? ==> |r.value.rest| < |s|
    ensures r.Some? ==> SkipWs(s) != []
    ensures r.Some? ==> (r.value.value.JObj? <==> SkipWs(s)[0] == '{')
    ensures r.Some? ==> (r.value.value.JArr? <==> SkipWs(s)[0] == '[')
    ensures r.Some? ==> (r.value.value.JStr? <==> SkipWs(s)[0] == '"')
    decreases |s|, 0
  {
    var t := SkipWs(s);
    if t == [] then None
    else match t[0]
      case 'n' => Keyword(t, "null", JNull)
      case 't' => Keyword(t, "true", JBool(true))
      case 'f' => Keyword(t, "false", JBool(false))
      case '"' =>
        (match ParseStringBody(t[1..])
         case None => None
         case Some(Parsed(str, r)) => Some(Parsed(JStr(str), r)))
      case '[' => ParseArray(t[1..])
      case '{' => ParseObject(t[1..])
      case _ =>
        (match NumberLength(t)
         case None => None
         case Some(n) => Some(Parsed(JNum(t[..n]), t[n..])))
  }

  /** An array after its `[`. */
  function ParseArray(s: string): (r: Option<Parsed<Value>>)
    ensures r.Some? ==> |r.value.rest| < |s|
    ensures r.Some? ==> r.value.value.JArr?
    decreases |s|, 2
  {
    var t := SkipWs(s);
    if t != [] && t[0] == ']' then Some(Parsed(JArr([]), t[1..]))
    else ParseItems(t, [])
  }

  function ParseItems(s: string, acc: seq<Value>): (r: Option<Parsed<Value>>)
    ensures r.Some? ==> |r.value.rest| < |s|
    ensures r.Some? ==> r.value.value.JArr?
    decreases |s|, 1
  {
    match ParseValue(s)
    case None => None
    case Some(Parsed(v, r1)) =>
      var w := SkipWs(r1);
      if w != [] && w[0] == ',' then ParseItems(w[1..], acc + [v])
      else if w != [] && w[0] == ']' then Some(Parsed(JArr(acc + [v]), w[1..]))
      else None
  }

  /** An object after its `{`. */
  function ParseObject(s: string): (r: Option<Parsed<Value>>)
    ensures r.Some? ==> |r.value.rest| < |s|
    ensures r.Some? ==> r.value.value.JObj?
    decreases |s|, 2
  {
    var t := SkipWs(s);
    if t != [] && t[0] == '}' then Some(Parsed(JObj([]), t[1..]))
    else ParseMembers(t, [])
  }

  /** One `"key": value` pair. */
  function ParseMember(s: string): (r: Option<Parsed<Member>>)
    ensures r.Some? ==> |r.value.rest| < |s|
    decreases |s|, 0
  {
    var t := SkipWs(s);
    if t == [] || t[0] != '"' then None
    else
      match ParseStringBody(t[1..])
      case None => None
      case Some(Parsed(k, r1)) =>
        var u := SkipWs(r1);
        if u == [] || u[0] != ':' then None
        else
          match ParseValue(u[1..])
          case None => None
          case Some(Parsed(v, r2)) => Some(Parsed(Member(k, v), r2))
  }

  /** Members of an object; a repeated key overwrites the earlier value in place. */
  function ParseMembers(s: string, acc: seq<Member>): (r: Option<Parsed<Value>>)
    ensures r.Some? ==> |r.value.rest| < |s|
    ensures r.Some? ==> r.value.value.JObj?
    decreases |s|, 1
  {
    match ParseMember(s)
    case None => None
    case Some(Parsed(m, r)) =>
      var w := SkipWs(r);
      if w != [] && w[0] == ',' then ParseMembers(w[1..], Put(acc, m.key, m.value))
      else if w != [] && w[0] == '}' then Some(Parsed(JObj(Put(acc, m.key, m.value)), w[1..]))
      else None
  }

  /** `JSON.parse(s)`: None where it would throw a SyntaxError. */
  function Parse(s: string): (r: Option<Value>)
    ensures SkipWs(s) == [] ==> r.None?
    ensures r.Some? ==> (r.value.JObj? <==> SkipWs(s)[0] == '{')
    ensures r.Some? ==> (r.value.JArr? <==> SkipWs(s)[0] == '[')
    ensures r.Some? ==> (r.value.JStr? <==> SkipWs(s)[0] == '"')
  {
    match ParseValue(s)
    case Some(Parsed(v, r)) => if SkipWs(r) == [] then Some(v) else None
    case None => None
  }
}
