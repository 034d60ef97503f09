/**
 JSON as in sections 2 to 7 of RFC 8259, in the part both sides of the protocol use: the decoder of
 Go's encoding/json (UseNumber) and Python's json.loads, and the two canonical printers.  Text is a
 sequence of Unicode scalar values; numbers keep their literal, as json.Number does.
 */
module Json {
  import opened Basics
  import opened Numerals
  import Lex

  datatype Value =
    | Null
    | Bool(b: bool)
    | Number(literal: string)
    | String(s: string)
    | Array(items: seq<Value>)
    | Object(members: map<string, Value>)

  // ---------------------------------------------------------------------------------------------
  // Characters
  // ---------------------------------------------------------------------------------------------

  predicate IsWs(c: char) {
    c == ' ' || c == '\t' || c == '\n' || c == '\r'
  }

  predicate AllWs(s: string) {
    forall i :: 0 <= i < |s| ==> IsWs(s[i])
  }

  predicate IsNumberChar(c: char) {
    IsDigit(c) || c == '+' || c == '-' || c == '.' || c == 'e' || c == 'E'
  }

  /** The value of a hexadecimal digit, or 16. */
  function HexValue(c: char): (v: int)
    ensures 0 <= v <= 16
  {
    if '0' <= c <= '9' then c as int - '0' as int
    else if 'a' <= c <= 'f' then c as int - 'a' as int + 10
    else if 'A' <= c <= 'F' then c as int - 'A' as int + 10
    else 16
  }

  predicate IsHex4(h: string) {
    |h| == 4 && forall i :: 0 <= i < 4 ==> HexValue(h[i]) < 16
  }

  function CodeUnit(h: string): (u: int)
    requires IsHex4(h)
    ensures 0 <= u < 0x10000
  {
    ((HexValue(h[0]) * 16 + HexValue(h[1])) * 16 + HexValue(h[2])) * 16 + HexValue(h[3])
  }

  predicate IsHigh(u: int) {
    0xD800 <= u < 0xDC00
  }

  predicate IsLow(u: int) {
    0xDC00 <= u < 0xE000
  }

  function Combine(hi: int, lo: int): char
    requires IsHigh(hi) && IsLow(lo)
  {
    (0x10000 + (hi - 0xD800) * 0x400 + (lo - 0xDC00)) as char
  }

  const REPLACEMENT: char := 0xFFFD as char

  const SHORT_ESCAPES: string := "\"\\/bfnrt"

  predicate IsShortEscape(e: char) {
    e in SHORT_ESCAPES
  }

  function ShortMeaning(e: char): char
    requires IsShortEscape(e)
  {
    if e == 'b' then 8 as char
    else if e == 'f' then 12 as char
    else if e == 'n' then '\n'
    else if e == 'r' then '\r'
    else if e == 't' then '\t'
    else e
  }

  // ---------------------------------------------------------------------------------------------
  // Numbers: -? (0 | [1-9][0-9]*) (. [0-9]+)? ([eE] [+-]? [0-9]+)?
  // ---------------------------------------------------------------------------------------------

  function DropDigits(s: string): (r: string)
    ensures |r| <= |s|
  {
    if s != [] && IsDigit(s[0]) then DropDigits(s[1..]) else s
  }

  predicate IsExponent(s: string) {
    s == [] ||
    (s[0] in "eE" &&
     var r := if |s| > 1 && s[1] in "+-" then s[2..] else s[1..];
     r != [] && DropDigits(r) == [])
  }

  predicate IsFraction(s: string) {
    if s != [] && s[0] == '.' then |s| > 1 && IsDigit(s[1]) && IsExponent(DropDigits(s[1..])) else IsExponent(s)
  }

  predicate IsNumber(s: string) {
    var r := if s != [] && s[0] == '-' then s[1..] else s;
    r != [] && IsDigit(r[0]) && if r[0] == '0' then IsFraction(r[1..]) else IsFraction(DropDigits(r))
  }

  // ---------------------------------------------------------------------------------------------
  // The decoder
  // ---------------------------------------------------------------------------------------------

  function SkipWs(s: string): (r: string)
    ensures |r| <= |s|
  {
    if s != [] && IsWs(s[0]) then SkipWs(s[1..]) else s
  }

  function NumberPrefix(s: string): (n: nat)
    ensures n <= |s|
  {
    if s != [] && IsNumberChar(s[0]) then 1 + NumberPrefix(s[1..]) else 0
  }

  /** The text after an opening quote, up to and including the closing one. */
  function ParseString(s: string): (r: Option<(string, string)>)
    ensures r.Some? ==> |r.value.1| < |s|
    decreases |s|
  {
    if s == [] then None
    else if s[0] == '"' then Some(("", s[1..]))
    else if s[0] != '\\' then
      if s[0] < ' ' then None else Prepend(s[0], ParseString(s[1..]))
    else if |s| >= 2 && IsShortEscape(s[1]) then Prepend(ShortMeaning(s[1]), ParseString(s[2..]))
    else if |s| >= 6 && s[1] == 'u' && IsHex4(s[2..6]) then
      var u := CodeUnit(s[2..6]);
      if !IsHigh(u) && !IsLow(u) then Prepend(u as char, ParseString(s[6..]))
      else if IsHigh(u) && |s| >= 12 && s[6] == '\\' && s[7] == 'u' && IsHex4(s[8..12]) && IsLow(CodeUnit(s[8..12])) then
        Prepend(Combine(u, CodeUnit(s[8..12])), ParseString(s[12..]))
      else Prepend(REPLACEMENT, ParseString(s[6..]))
    else None
  }

  function Prepend(c: char, r: Option<(string, string)>): Option<(string, string)> {
    match r
    case None => None
    case Some((text, rest)) => Some(([c] + text, rest))
  }

  function ParseValue(s: string): (r: Option<(Value, string)>)
    ensures r.Some? ==> |r.value.1| < |s|
    decreases |s|, 1
  {
    if s == [] then None
    else if "null" <= s then Some((Null, s[4..]))
    else if "true" <= s then Some((Bool(true), s[4..]))
    else if "false" <= s then Some((Bool(false), s[5..]))
    else if s[0] == '"' then
      match ParseString(s[1..])
      case None => None
      case Some((text, rest)) => Some((String(text), rest))
    else if s[0] == '[' then
      var body := SkipWs(s[1..]);
      if body != [] && body[0] == ']' then Some((Array([]), body[1..]))
      else
        match ParseElems(body)
        case None => None
        case Some((items, rest)) => Some((Array(items), rest))
    else if s[0] == '{' then
      var body := SkipWs(s[1..]);
      if body != [] && body[0] == '}' then Some((Object(map[]), body[1..]))
      else
        match ParseMembers(body)
        case None => None
        case Some((members, rest)) => Some((Object(members), rest))
    else
      var n := NumberPrefix(s);
      if n > 0 && IsNumber(s[..n]) then Some((Number(s[..n]), s[n..])) else None
  }

  function ParseElems(s: string): (r: Option<(seq<Value>, string)>)
    ensures r.Some? ==> |r.value.1| < |s|
    decreases |s|, 2
  {
    match ParseValue(s)
    case None => None
    case Some((v, after)) =>
      var r := SkipWs(after);
      if r == [] then None
      else if r[0] == ']' then Some(([v], r[1..]))
      else if r[0] == ',' then
        match ParseElems(SkipWs(r[1..]))
        case None => None
        case Some((items, rest)) => Some(([v] + items, rest))
      else None
  }

  /** A later member with the same key overrides an earlier one. */
  function ParseMembers(s: string): (r: Option<(map<string, Value>, string)>)
    ensures r.Some? ==> |r.value.1| < |s|
    decreases |s|, 2
  {
    if s == [] || s[0] != '"' then None
    else
      match ParseString(s[1..])
      case None => None
      case Some((key, afterKey)) =>
        var colon := SkipWs(afterKey);
        if colon == [] || colon[0] != ':' then None
        else
          match ParseValue(SkipWs(colon[1..]))
          case None => None
          case Some((v, after)) =>
            var r := SkipWs(after);
            if r == [] then None
            else if r[0] == '}' then Some((map[key := v], r[1..]))
            else if r[0] == ',' then
              match ParseMembers(SkipWs(r[1..]))
              case None => None
              case Some((members, rest)) => Some((map[key := v] + members, rest))
            else None
  }

  /** One value with nothing but whitespace around it. */
  function Decode(s: string): Option<Value> {
    match ParseValue(SkipWs(s))
    case None => None
    case Some((v, rest)) => if SkipWs(rest) == [] then Some(v) else None
  }

  // ---------------------------------------------------------------------------------------------
  // The canonical printers: sorted keys, no whitespace
  // ---------------------------------------------------------------------------------------------

  /** Go escapes U+2028 and U+2029 even with HTML escaping off; Python with ensure_ascii=False does not. */
  datatype Style = Go | Python

  function HexDigit(n: int): char
    requires 0 <= n < 16
  {
    if n < 10 then ('0' as int + n) as char else ('a' as int + n - 10) as char
  }

  predicate IsLineSeparator(c: char) {
    c as int == 0x2028 || c as int == 0x2029
  }

  function PrintChar(c: char, style: Style): string {
    if c == '"' then "\\\""
    else if c == '\\' then "\\\\"
    else if c as int == 8 then "\\b"
    else if c as int == 12 then "\\f"
    else if c == '\n' then "\\n"
    else if c == '\r' then "\\r"
    else if c == '\t' then "\\t"
    else if c < ' ' then "\\u00" + [HexDigit(c as int / 16), HexDigit(c as int % 16)]
    else if style == Go && c as int == 0x2028 then "\\u2028"
    else if style == Go && c as int == 0x2029 then "\\u2029"
    else [c]
  }

  function PrintChars(s: string, style: Style): string {
    if s == [] then "" else PrintChar(s[0], style) + PrintChars(s[1..], style)
  }

  function PrintString(s: string, style: Style): string {
    "\"" + PrintChars(s, style) + "\""
  }

  function Keys(v: Value): seq<string>
    requires v.Object?
  {
    Lex.SortedSeq(v.members.Keys)
  }

  function Print(v: Value, style: Style): string
    decreases v, 1
  {
    match v
    case Null => "null"
    case Bool(b) => if b then "true" else "false"
    case Number(literal) => literal
    case String(s) => PrintString(s, style)
    case Array(items) => "[" + PrintItems(items, style) + "]"
    case Object(members) =>
      assert forall k :: k in Keys(v) ==> k in Elems(Keys(v));
      "{" + PrintMembers(v, Keys(v), style) + "}"
  }

  function PrintItems(items: seq<Value>, style: Style): string
    decreases items, 0
  {
    if items == [] then ""
    else if |items| == 1 then Print(items[0], style)
    else Print(items[0], style) + "," + PrintItems(items[1..], style)
  }

  function PrintMembers(v: Value, keys: seq<string>, style: Style): string
    requires v.Object? && forall k :: k in keys ==> k in v.members
    decreases v, 0, |keys|
  {
    if keys == [] then ""
    else
      var first := PrintString(keys[0], style) + ":" + Print(v.members[keys[0]], style);
      if |keys| == 1 then first else first + "," + PrintMembers(v, keys[1..], style)
  }

  /** Values whose numbers are JSON numbers: everything the decoder can return. */
  predicate Printable(v: Value) {
    match v
    case Number(literal) => IsNumber(literal)
    case Array(items) => forall i :: 0 <= i < |items| ==> Printable(items[i])
    case Object(members) => forall k :: k in members ==> Printable(members[k])
    case _ => true
  }
}
