/** JSON texts (RFC 8259), as far as the gateway's token parser looks at them: numbers that are not
    64-bit integers keep no value. */
module Json {
  import opened Common

  datatype Value =
    | Null
    | Bool(b: bool)
    | Number(int64: Option<int>)
    | String(s: string)
    | Array(items: seq<Value>)
    | Object(members: map<string, Value>)

  datatype Parsed<+T> = Fail | Got(value: T, rest: string)

  function SkipWs(s: string): (r: string)
    ensures |r| <= |s|
  {
    if s != "" && s[0] in {' ', '\t', '\n', '\r'} then SkipWs(s[1..]) else s
  }

  // Strings: section 7.

  function Prepend(c: char, p: Parsed<string>): Parsed<string> {
    if p.Fail? then Fail else Got([c] + p.value, p.rest)
  }

  function Unescaped(c: char): Option<char> {
    match c
    case '"' => Some('"')
    case '\\' => Some('\\')
    case '/' => Some('/')
    case 'b' => Some('\U{0008}')
    case 'f' => Some('\U{000C}')
    case 'n' => Some('\n')
    case 'r' => Some('\r')
    case 't' => Some('\t')
    case _ => None
  }

  function HexDigit(c: char): Option<nat> {
    if '0' <= c <= '9' then Some(c as int - '0' as int)
    else if 'a' <= c <= 'f' then Some(c as int - 'a' as int + 10)
    else if 'A' <= c <= 'F' then Some(c as int - 'A' as int + 10)
    else None
  }

  function Hex4(s: string): (r: Option<nat>)
    ensures r.Some? ==> |s| >= 4 && r.value < 0x10000
  {
    if |s| < 4 then None else
      match (HexDigit(s[0]), HexDigit(s[1]), HexDigit(s[2]), HexDigit(s[3]))
      case (Some(a), Some(b), Some(c), Some(d)) =>
        if a < 16 && b < 16 && c < 16 && d < 16 then Some(a * 4096 + b * 256 + c * 16 + d) else None
      case _ => None
  }

  /** The character of a `\u` escape and how many characters it takes; a surrogate needs its partner. */
  function UnicodeEscape(s: string): (r: Option<(char, nat)>)
    ensures r.Some? ==> 0 < r.value.1 <= |s|
  {
    if |s| < 2 then None else
      var hi := Hex4(s[2..]);
      if hi.None? then None
      else if hi.value < 0xD800 || 0xE000 <= hi.value then Some((hi.value as char, 6))
      else if hi.value >= 0xDC00 || |s| < 12 || s[6..8] != "\\u" then None
      else
        var lo := Hex4(s[8..]);
        if lo.None? || !(0xDC00 <= lo.value < 0xE000) then None
        else Some(((0x10000 + (hi.value - 0xD800) * 1024 + (lo.value - 0xDC00)) as char, 12))
  }

  /** Reads up to the closing quote; the opening one has been read. */
  function ParseString(s: string): (r: Parsed<string>)
    ensures r.Got? ==> |r.rest| < |s|
  {
    if s == "" || s[0] < ' ' then Fail
    else if s[0] == '"' then Got("", s[1..])
    else if s[0] != '\\' then Prepend(s[0], ParseString(s[1..]))
    else if |s| < 2 then Fail
    else if s[1] == 'u' then
      var u := UnicodeEscape(s);
      if u.None? then Fail else Prepend(u.value.0, ParseString(s[u.value.1..]))
    else
      var c := Unescaped(s[1]);
      if c.None? then Fail else Prepend(c.value, ParseString(s[2..]))
  }

  // Numbers: section 6.

  predicate Digit(c: char) {
    '0' <= c <= '9'
  }

  function TakeDigits(s: string): (r: (string, string))
    ensures r.0 + r.1 == s
  {
    if s == "" || !Digit(s[0]) then ("", s) else
      var (ds, rest) := TakeDigits(s[1..]);
      ([s[0]] + ds, rest)
  }

  function ValueOf(ds: string): nat {
    if ds == "" then 0 else
      var d := ds[|ds| - 1] as int - '0' as int;
      ValueOf(ds[..|ds| - 1]) * 10 + if d < 0 then 0 else d
  }

  function Int64(negative: bool, n: int): Option<int> {
    if negative then (if 0 < n <= 0x8000_0000_0000_0000 then Some(-n) else None)
    else if n < 0x8000_0000_0000_0000 then Some(n) else None
  }

  /** An optional exponent; `None` if it is malformed. */
  function SkipExponent(s: string): (r: Option<string>)
    ensures r.Some? ==> |r.value| <= |s|
  {
    if s == "" || (s[0] != 'e' && s[0] != 'E') then Some(s) else
      var t := if |s| > 1 && (s[1] == '+' || s[1] == '-') then s[2..] else s[1..];
      var (ds, rest) := TakeDigits(t);
      if ds == "" then None else Some(rest)
  }

  function ParseNumber(s: string): (r: Parsed<Value>)
    ensures r.Got? ==> |r.rest| < |s|
  {
    if s == "" then Fail else
      var negative := s[0] == '-';
      var (ds, rest) := TakeDigits(if negative then s[1..] else s);
      if ds == "" || (|ds| > 1 && ds[0] == '0') then Fail
      else if rest == "" || rest[0] !in {'.', 'e', 'E'} then Got(Number(Int64(negative, ValueOf(ds))), rest)
      else
        var (fs, tail) := if rest[0] == '.' then TakeDigits(rest[1..]) else ("0", rest);
        var end := SkipExponent(tail);
        if fs == "" || end.None? then Fail else Got(Number(None), end.value)
  }

  // Values: sections 3 to 5.

  function ParseLiteral(s: string, word: string, v: Value): Parsed<Value>
    requires word != ""
  {
    if word <= s then Got(v, s[|word|..]) else Fail
  }

  function ParseValue(text: string): (r: Parsed<Value>)
    ensures r.Got? ==> |r.rest| < |text|
    decreases |text|, 0
  {
    var s := SkipWs(text);
    if s == "" then Fail
    else match s[0]
      case '{' =>
        var t := SkipWs(s[1..]);
        if t != "" && t[0] == '}' then Got(Object(map[]), t[1..]) else ParseMembers(t, map[])
      case '[' =>
        var t := SkipWs(s[1..]);
        if t != "" && t[0] == ']' then Got(Array([]), t[1..]) else ParseElements(t, [])
      case '"' =>
        var p := ParseString(s[1..]);
        if p.Fail? then Fail else Got(String(p.value), p.rest)
      case 'n' => ParseLiteral(s, "null", Null)
      case 't' => ParseLiteral(s, "true", Bool(true))
      case 'f' => ParseLiteral(s, "false", Bool(false))
      case _ => ParseNumber(s)
  }

  /** The members of an object, to its closing brace. A later member replaces an earlier one of its name. */
  function ParseMembers(text: string, members: map<string, Value>): (r: Parsed<Value>)
    ensures r.Got? ==> |r.rest| < |text|
    decreases |text|, 1
  {
    var s := SkipWs(text);
    if s == "" || s[0] != '"' then Fail else
      var key := ParseString(s[1..]);
      if key.Fail? then Fail else
        var t := SkipWs(key.rest);
        if t == "" || t[0] != ':' then Fail else
          var v := ParseValue(t[1..]);
          if v.Fail? then Fail else
            var u := SkipWs(v.rest);
            var more := members[key.value := v.value];
            if u == "" then Fail
            else if u[0] == '}' then Got(Object(more), u[1..])
            else if u[0] == ',' then ParseMembers(u[1..], more)
            else Fail
  }

  function ParseElements(text: string, items: seq<Value>): (r: Parsed<Value>)
    ensures r.Got? ==> |r.rest| < |text|
    decreases |text|, 1
  {
    var v := ParseValue(text);
    if v.Fail? then Fail else
      var u := SkipWs(v.rest);
      if u == "" then Fail
      else if u[0] == ']' then Got(Array(items + [v.value]), u[1..])
      else if u[0] == ',' then ParseElements(u[1..], items + [v.value])
      else Fail
  }

  /** A JSON text is one value and nothing else. */
  function Parse(text: string): Option<Value> {
    var v := ParseValue(text);
    if v.Got? && SkipWs(v.rest) == "" then Some(v.value) else None
  }

  function Get(v: Value, key: string): Option<Value> {
    if v.Object? && key in v.members then Some(v.members[key]) else None
  }

  function GetString(v: Value, key: string): Option<string> {
    match Get(v, key)
    case Some(String(s)) => Some(s)
    case _ => None
  }

  function GetInt64(v: Value, key: string): Option<int> {
    match Get(v, key)
    case Some(Number(n)) => n
    case _ => None
  }
}
