/** Single-quoting for the bridge's shell script (src/claude_gateway.rs), read by the token rules of sections
    2.2, 2.3 and 2.6 of the POSIX Shell Command Language. What the lexer does not know, it refuses. */
module ShellQuote {
  import opened Common

  /** Each single quote becomes a closing quote, an escaped quote and an opening quote. */
  function EscapeQuotes(s: string): string {
    if s == "" then "" else (if s[0] == '\'' then "'\\''" else [s[0]]) + EscapeQuotes(s[1..])
  }

  function ShellQuote(s: string): string {
    "'" + EscapeQuotes(s) + "'"
  }

  // Tokens.

  /** A part of a word. Quoted text is exempt from every expansion; an arithmetic expression is kept as text. */
  datatype Part =
    | Bare(text: string)
    | Quoted(text: string)
    | Param(name: string, quoted: bool)
    | Arith(text: string)
    | Command(tokens: seq<Token>)

  datatype Token = Operator(text: string) | IoNumber(text: string) | Word(parts: seq<Part>)

  type ReadOf<T> = Option<(T, string)>

  predicate Blank(c: char) {
    c == ' ' || c == '\t'
  }

  /** What ends an unquoted part of a word: blanks, newlines and the characters of operators. */
  predicate Delimiter(c: char) {
    Blank(c) || c in {'\n', ';', '&', '|', '<', '>', '(', ')'}
  }

  predicate NameStart(c: char) {
    'a' <= c <= 'z' || 'A' <= c <= 'Z' || c == '_'
  }

  predicate NameChar(c: char) {
    NameStart(c) || '0' <= c <= '9'
  }

  predicate SpecialParam(c: char) {
    c in {'@', '*', '#', '?', '-', '$', '!'} || '0' <= c <= '9'
  }

  predicate Digits(s: string) {
    s != "" && forall i :: 0 <= i < |s| ==> '0' <= s[i] <= '9'
  }

  /** Text joins a part of its own kind in front of it. */
  function Add(parts: seq<Part>, text: string, quoted: bool): seq<Part> {
    var n := |parts|;
    if text == "" then parts
    else if n > 0 && quoted && parts[n - 1].Quoted? then parts[..n - 1] + [Quoted(parts[n - 1].text + text)]
    else if n > 0 && !quoted && parts[n - 1].Bare? then parts[..n - 1] + [Bare(parts[n - 1].text + text)]
    else parts + [if quoted then Quoted(text) else Bare(text)]
  }

  /** The longest operator at the start of the text; parentheses are none of them here. */
  function OperatorLength(s: string): (n: nat)
    ensures n <= |s|
    ensures n > 0 ==> Delimiter(s[0]) && !Blank(s[0])
  {
    if s == "" then 0
    else if |s| >= 2 && s[..2] in {"&&", "||", ";;", "<<", ">>", "<&", ">&", "<>", ">|"} then 2
    else if s[0] in {'\n', ';', '&', '|', '<', '>'} then 1
    else 0
  }

  /** Reads the rest of a word; `parts` is what has been read of it. */
  function ReadWord(s: string, parts: seq<Part>): (r: ReadOf<seq<Part>>)
    ensures r.Some? ==> |r.value.1| <= |s| && (s != "" && !Delimiter(s[0]) ==> |r.value.1| < |s|)
    decreases |s|, 1
  {
    if s == "" || Delimiter(s[0]) then Some((parts, s))
    else match s[0]
      case '\'' => ReadSingle(s[1..], parts)
      case '"' => ReadDouble(s[1..], parts)
      case '\\' =>
        if |s| < 2 then None
        else if s[1] == '\n' then ReadWord(s[2..], parts)
        else ReadWord(s[2..], Add(parts, [s[1]], true))
      case '$' =>
        (match ReadDollar(s[1..], false)
         case None => None
         case Some((part, rest)) => ReadWord(rest, parts + [part]))
      case '`' => None
      case c => ReadWord(s[1..], Add(parts, [c], false))
  }

  function ReadSingle(s: string, parts: seq<Part>): (r: ReadOf<seq<Part>>)
    ensures r.Some? ==> |r.value.1| <= |s|
    decreases |s|, 0
  {
    if s == "" then None
    else if s[0] == '\'' then ReadWord(s[1..], parts)
    else ReadSingle(s[1..], Add(parts, [s[0]], true))
  }

  function ReadDouble(s: string, parts: seq<Part>): (r: ReadOf<seq<Part>>)
    ensures r.Some? ==> |r.value.1| <= |s|
    decreases |s|, 0
  {
    if s == "" || s[0] == '`' then None
    else if s[0] == '"' then ReadWord(s[1..], parts)
    else if s[0] == '$' then
      match ReadDollar(s[1..], true)
      case None => None
      case Some((part, rest)) => ReadDouble(rest, parts + [part])
    else if s[0] == '\\' && |s| >= 2 && s[1] in {'$', '`', '"', '\\'} then ReadDouble(s[2..], Add(parts, [s[1]], true))
    else if s[0] == '\\' && |s| >= 2 && s[1] == '\n' then ReadDouble(s[2..], parts)
    else ReadDouble(s[1..], Add(parts, [s[0]], true))
  }

  function NameLength(s: string): (n: nat)
    ensures n <= |s|
  {
    if s == "" || !NameChar(s[0]) then 0 else 1 + NameLength(s[1..])
  }

  function ReadArith(s: string, text: string): (r: ReadOf<Part>)
    ensures r.Some? ==> |r.value.1| <= |s|
  {
    if |s| < 2 then None
    else if s[0] == ')' && s[1] == ')' then Some((Arith(text), s[2..]))
    else ReadArith(s[1..], text + [s[0]])
  }

  /** What follows a dollar sign. */
  function ReadDollar(s: string, quoted: bool): (r: ReadOf<Part>)
    ensures r.Some? ==> |r.value.1| <= |s|
    decreases |s|, 3
  {
    if s == "" || s[0] == '{' then None
    else if s[0] == '(' then
      if |s| >= 2 && s[1] == '(' then ReadArith(s[2..], "")
      else match ReadTokens(s[1..], true)
        case None => None
        case Some((tokens, rest)) => Some((Command(tokens), rest))
    else if NameStart(s[0]) then Some((Param(s[..NameLength(s)], quoted), s[NameLength(s)..]))
    else if SpecialParam(s[0]) then Some((Param([s[0]], quoted), s[1..]))
    else Some((if quoted then Quoted("$") else Bare("$"), s))
  }

  function TokenOf(parts: seq<Part>, rest: string): Token {
    if |parts| == 1 && parts[0].Bare? && Digits(parts[0].text) && rest != "" && rest[0] in {'<', '>'}
    then IoNumber(parts[0].text)
    else Word(parts)
  }

  function Before(t: Token, r: ReadOf<seq<Token>>): ReadOf<seq<Token>> {
    if r.None? then None else Some(([t] + r.value.0, r.value.1))
  }

  /** The tokens of a script, or of a command substitution up to its closing parenthesis. */
  function ReadTokens(s: string, inner: bool): (r: ReadOf<seq<Token>>)
    ensures r.Some? ==> |r.value.1| <= |s|
    decreases |s|, 2
  {
    if s == "" then if inner then None else Some(([], ""))
    else if Blank(s[0]) then ReadTokens(s[1..], inner)
    else if s[0] == ')' && inner then Some(([], s[1..]))
    else if OperatorLength(s) > 0 then
      Before(Operator(s[..OperatorLength(s)]), ReadTokens(s[OperatorLength(s)..], inner))
    else if s[0] in {'#', '(', ')'} then None
    else match ReadWord(s, [])
      case None => None
      case Some((parts, rest)) => Before(TokenOf(parts, rest), ReadTokens(rest, inner))
  }

  // A quoted string.

  lemma AddAdd(parts: seq<Part>, a: string, b: string, quoted: bool)
    ensures Add(Add(parts, a, quoted), b, quoted) == Add(parts, a + b, quoted)
  {
    if a == "" {
      assert a + b == b;
    } else if b == "" {
      assert a + b == a;
    } else {
      var n := |parts|;
      var mid := Add(parts, a, quoted);
      var joins := n > 0 && if quoted then parts[n - 1].Quoted? else parts[n - 1].Bare?;
      assert mid[..|mid| - 1] == if joins then parts[..n - 1] else parts;
      if n > 0 {
        assert parts[n - 1].Bare? || parts[n - 1].Quoted? ==> parts[n - 1].text + a + b == parts[n - 1].text + (a + b);
      }
    }
  }

  lemma QuoteSteps(rest: string, parts: seq<Part>)
    ensures ReadSingle("'" + rest, parts) == ReadWord(rest, parts)
    ensures ReadWord("'" + rest, parts) == ReadSingle(rest, parts)
    ensures ReadWord("\\'" + rest, parts) == ReadWord(rest, Add(parts, "'", true))
  {
    hide Add;
    assert ("'" + rest)[1..] == rest;
    assert ("\\'" + rest)[2..] == rest;
  }

  lemma LiteralStep(c: char, rest: string, parts: seq<Part>)
    requires c != '\''
    ensures ReadSingle([c] + rest, parts) == ReadSingle(rest, Add(parts, [c], true))
  {
    hide Add;
    assert ([c] + rest)[1..] == rest;
  }

  lemma QuotedBodyUnfold(s: string, tail: string)
    ensures EscapeQuotes(s) + "'" + tail
            == if s == "" then "'" + tail
               else var rest := EscapeQuotes(s[1..]) + "'" + tail;
                    if s[0] == '\'' then "'" + ("\\'" + ("'" + rest)) else [s[0]] + rest
  {
  }

  lemma {:induction false} QuotedBodyIsRead(s: string, tail: string, parts: seq<Part>)
    ensures ReadSingle(EscapeQuotes(s) + "'" + tail, parts) == ReadWord(tail, Add(parts, s, true))
  {
    hide ReadSingle, ReadWord, EscapeQuotes, Add;
    if s == "" {
      QuoteSteps(tail, parts);
      QuotedBodyUnfold(s, tail);
      AddNothing(parts);
    } else {
      var rest := EscapeQuotes(s[1..]) + "'" + tail;
      QuotedBodyUnfold(s, tail);
      QuotedBodyIsRead(s[1..], tail, Add(parts, [s[0]], true));
      AddAdd(parts, [s[0]], s[1..], true);
      assert [s[0]] + s[1..] == s;
      if s[0] == '\'' {
        QuoteSteps("\\'" + ("'" + rest), parts);
        QuoteSteps("'" + rest, parts);
        QuoteSteps(rest, Add(parts, "'", true));
      } else {
        LiteralStep(s[0], rest, parts);
      }
    }
  }

  lemma AddNothing(parts: seq<Part>)
    ensures Add(parts, "", true) == parts
  {
  }

  /** Wherever a word may go on, a quoted string adds exactly its text to it, as quoted text. */
  lemma QuotedIsText(s: string, tail: string, parts: seq<Part>)
    ensures ReadWord(ShellQuote(s) + tail, parts) == ReadWord(tail, Add(parts, s, true))
  {
    hide ReadSingle, ReadWord, EscapeQuotes, Add;
    QuoteSteps(EscapeQuotes(s) + "'" + tail, parts);
    QuotedBodyIsRead(s, tail, parts);
    assert ShellQuote(s) + tail == "'" + (EscapeQuotes(s) + "'" + tail);
  }

  /** The parts of a word that is just this string. */
  function Literal(s: string): seq<Part> {
    if s == "" then [] else [Quoted(s)]
  }

  /** Before any delimiter, a quoted string is one word, and that word is the string. */
  lemma QuotedIsOneWord(s: string, tail: string)
    requires tail == "" || Delimiter(tail[0])
    ensures ReadWord(ShellQuote(s) + tail, []) == Some((Literal(s), tail))
  {
    hide EscapeQuotes;
    QuotedIsText(s, tail, []);
    assert [] + [Quoted(s)] == [Quoted(s)];
  }
}
