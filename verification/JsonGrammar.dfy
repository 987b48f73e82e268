/** The grammar of JSON texts (RFC 8259) as derivations with their meaning, and the proof that the reader in
    `Json` accepts exactly the derivable texts and gives each its meaning. */
module JsonGrammar {
  import opened Common
  import opened Json

  // Derivations. Each `...Then(x, rest)` is the text of `x` followed by `rest`.

  predicate WsChar(c: char) {
    c in {' ', '\t', '\n', '\r'}
  }

  predicate Ws(s: string) {
    forall i :: 0 <= i < |s| ==> WsChar(s[i])
  }

  /** Section 7. */
  datatype Letter = Bare(c: char) | Escape(c: char) | Unicode(hex: string) | Surrogates(high: string, low: string)

  predicate HexChar(c: char) {
    '0' <= c <= '9' || 'a' <= c <= 'f' || 'A' <= c <= 'F'
  }

  function Nibble(c: char): (n: nat)
    requires HexChar(c)
    ensures n < 16
  {
    if c <= '9' then c as int - 48 else if c <= 'F' then c as int - 55 else c as int - 87
  }

  predicate Hex(h: string) {
    |h| == 4 && HexChar(h[0]) && HexChar(h[1]) && HexChar(h[2]) && HexChar(h[3])
  }

  function Code(h: string): (n: nat)
    requires Hex(h)
    ensures n < 0x10000
  {
    ((Nibble(h[0]) * 16 + Nibble(h[1])) * 16 + Nibble(h[2])) * 16 + Nibble(h[3])
  }

  predicate LetterOk(l: Letter) {
    match l
    case Bare(c) => c >= ' ' && c != '"' && c != '\\'
    case Escape(c) => c in {'"', '\\', '/', 'b', 'f', 'n', 'r', 't'}
    case Unicode(hex) => Hex(hex) && !(0xD800 <= Code(hex) < 0xE000)
    case Surrogates(high, low) => Hex(high) && Hex(low) && 0xD800 <= Code(high) < 0xDC00 <= Code(low) < 0xE000
  }

  function LetterMeant(l: Letter): char
    requires LetterOk(l)
  {
    match l
    case Bare(c) => c
    case Escape(c) =>
      if c == 'b' then '\U{0008}' else if c == 'f' then '\U{000C}' else if c == 'n' then '\n'
      else if c == 'r' then '\r' else if c == 't' then '\t' else c
    case Unicode(hex) => Code(hex) as char
    case Surrogates(high, low) => (0x10000 + (Code(high) - 0xD800) * 1024 + (Code(low) - 0xDC00)) as char
  }

  function LetterThen(l: Letter, rest: string): string {
    match l
    case Bare(c) => [c] + rest
    case Escape(c) => ['\\', c] + rest
    case Unicode(hex) => ['\\', 'u'] + (hex + rest)
    case Surrogates(high, low) => ['\\', 'u'] + (high + (['\\', 'u'] + (low + rest)))
  }

  predicate LettersOk(ls: seq<Letter>) {
    forall i :: 0 <= i < |ls| ==> LetterOk(ls[i])
  }

  function LettersMeant(ls: seq<Letter>): string
    requires LettersOk(ls)
  {
    if ls == [] then "" else [LetterMeant(ls[0])] + LettersMeant(ls[1..])
  }

  /** The letters and the closing quote. */
  function LettersThen(ls: seq<Letter>, rest: string): string {
    if ls == [] then ['"'] + rest else LetterThen(ls[0], LettersThen(ls[1..], rest))
  }

  /** Section 6: a sign, digits, a fraction and an exponent with its mark. */
  datatype Numeral = Numeral(negative: bool, digits: string, fraction: Option<string>, mark: string, exponent: string)

  predicate Digits(s: string) {
    forall i :: 0 <= i < |s| ==> Digit(s[i])
  }

  predicate Mark(m: string) {
    m == "" || (m[0] in {'e', 'E'} && (|m| == 1 || (|m| == 2 && m[1] in {'+', '-'})))
  }

  predicate NumeralOk(n: Numeral) {
    && n.digits != "" && Digits(n.digits) && (n.digits[0] == '0' ==> |n.digits| == 1)
    && (n.fraction.Some? ==> n.fraction.value != "" && Digits(n.fraction.value))
    && Mark(n.mark)
    && (n.mark == "" <==> n.exponent == "") && Digits(n.exponent)
  }

  /** Only plain 64-bit integers keep their value. */
  function NumeralMeant(n: Numeral): Value {
    var v: int := ValueOf(n.digits);
    if n.fraction.Some? || n.mark != "" then Number(None)
    else if n.negative then Number(if 0 < v <= 0x8000_0000_0000_0000 then Some(-v) else None)
    else Number(if v <= 0x7FFF_FFFF_FFFF_FFFF then Some(v) else None)
  }

  function NumeralThen(n: Numeral, rest: string): string {
    (if n.negative then ['-'] else []) + (n.digits + FractionThen(n, n.mark + (n.exponent + rest)))
  }

  function FractionThen(n: Numeral, rest: string): string {
    match n.fraction
    case Some(ds) => ['.'] + (ds + rest)
    case None => rest
  }

  /** What may follow a numeral. */
  predicate Stops(rest: string) {
    rest == "" || !(Digit(rest[0]) || rest[0] in {'.', 'e', 'E'})
  }

  /** Sections 3 to 5. */
  datatype Tree =
    | NullTree
    | BoolTree(b: bool)
    | NumberTree(n: Numeral)
    | StringTree(letters: seq<Letter>)
    | EmptyArray(space: string)
    | ArrayTree(items: Items)
    | EmptyObject(space: string)
    | ObjectTree(members: Members)

  datatype Item = Item(before: string, value: Tree, after: string)
  datatype Items = LastItem(item: Item) | ItemAndMore(item: Item, more: Items)

  datatype Pair = Pair(before: string, key: seq<Letter>, colon: string, item: Item)
  datatype Members = LastPair(pair: Pair) | PairAndMore(pair: Pair, rest: Members)

  predicate TreeOk(t: Tree) {
    match t
    case NullTree => true
    case BoolTree(_) => true
    case NumberTree(n) => NumeralOk(n)
    case StringTree(ls) => LettersOk(ls)
    case EmptyArray(space) => Ws(space)
    case ArrayTree(items) => ItemsOk(items)
    case EmptyObject(space) => Ws(space)
    case ObjectTree(members) => MembersOk(members)
  }

  predicate ItemOk(i: Item) {
    Ws(i.before) && TreeOk(i.value) && Ws(i.after)
  }

  predicate ItemsOk(i: Items) {
    ItemOk(i.item) && (i.ItemAndMore? ==> ItemsOk(i.more))
  }

  predicate PairOk(p: Pair) {
    Ws(p.before) && LettersOk(p.key) && Ws(p.colon) && ItemOk(p.item)
  }

  predicate MembersOk(m: Members) {
    PairOk(m.pair) && (m.PairAndMore? ==> MembersOk(m.rest))
  }

  function TreeMeant(t: Tree): Value
    requires TreeOk(t)
  {
    match t
    case NullTree => Null
    case BoolTree(b) => Bool(b)
    case NumberTree(n) => NumeralMeant(n)
    case StringTree(ls) => String(LettersMeant(ls))
    case EmptyArray(_) => Array([])
    case ArrayTree(items) => Array(ItemsMeant(items))
    case EmptyObject(_) => Object(map[])
    case ObjectTree(members) => Object(MembersMeant(members, map[]))
  }

  function ItemsMeant(i: Items): seq<Value>
    requires ItemsOk(i)
  {
    assert ItemOk(i.item);
    [TreeMeant(i.item.value)] + if i.LastItem? then [] else ItemsMeant(i.more)
  }

  /** Of two members of one name the later one stands. */
  function MembersMeant(m: Members, earlier: map<string, Value>): map<string, Value>
    requires MembersOk(m)
  {
    assert PairOk(m.pair) && ItemOk(m.pair.item);
    var now := earlier[LettersMeant(m.pair.key) := TreeMeant(m.pair.item.value)];
    if m.LastPair? then now else MembersMeant(m.rest, now)
  }

  function TreeThen(t: Tree, rest: string): string
    decreases t
  {
    match t
    case NullTree => "null" + rest
    case BoolTree(b) => (if b then "true" else "false") + rest
    case NumberTree(n) => NumeralThen(n, rest)
    case StringTree(ls) => ['"'] + LettersThen(ls, rest)
    case EmptyArray(space) => ['['] + (space + ([']'] + rest))
    case ArrayTree(items) => ['['] + ItemsThen(items, rest)
    case EmptyObject(space) => ['{'] + (space + (['}'] + rest))
    case ObjectTree(members) => ['{'] + MembersThen(members, rest)
  }

  function ItemThen(i: Item, rest: string): string
    decreases i
  {
    i.before + TreeThen(i.value, i.after + rest)
  }

  function ItemsThen(i: Items, rest: string): string
    decreases i
  {
    ItemThen(i.item, if i.LastItem? then [']'] + rest else [','] + ItemsThen(i.more, rest))
  }

  function PairThen(p: Pair, rest: string): string
    decreases p
  {
    p.before + (['"'] + LettersThen(p.key, p.colon + ([':'] + ItemThen(p.item, rest))))
  }

  function MembersThen(m: Members, rest: string): string
    decreases m
  {
    PairThen(m.pair, if m.LastPair? then ['}'] + rest else [','] + MembersThen(m.rest, rest))
  }

  /** The text derives this value. */
  ghost predicate Derives(text: string, v: Value) {
    exists i: Item :: ItemOk(i) && TreeMeant(i.value) == v && text == ItemThen(i, "")
  }

  // White space.

  lemma {:induction false} SkipsWs(w: string, rest: string)
    requires Ws(w)
    ensures SkipWs(w + rest) == SkipWs(rest)
  {
    if w == "" {
      assert w + rest == rest;
    } else {
      SkipsWs(w[1..], rest);
      assert WsChar(w[0]) && (w + rest)[0] == w[0];
      assert (w + rest)[1..] == w[1..] + rest;
    }
  }

  lemma {:induction false} WsSkipped(s: string) returns (w: string)
    ensures Ws(w) && s == w + SkipWs(s)
    ensures SkipWs(s) != "" ==> !WsChar(SkipWs(s)[0])
  {
    if s != "" && WsChar(s[0]) {
      var more := WsSkipped(s[1..]);
      w := [s[0]] + more;
      assert s == [s[0]] + s[1..];
    } else {
      w := "";
    }
  }

  lemma Unspaced(s: string)
    requires s == "" || !WsChar(s[0])
    ensures SkipWs(s) == s
  {
  }

  // Strings.

  lemma NibbleIs(c: char)
    ensures HexDigit(c) == if HexChar(c) then Some(Nibble(c)) else None
  {
  }

  lemma HexIs(s: string)
    requires |s| >= 4
    ensures Hex4(s) == if Hex(s[..4]) then Some(Code(s[..4])) else None
  {
    NibbleIs(s[0]);
    NibbleIs(s[1]);
    NibbleIs(s[2]);
    NibbleIs(s[3]);
    hide HexDigit, HexChar, Nibble;
  }

  lemma HexIsRead(h: string, rest: string)
    requires Hex(h)
    ensures Hex4(h + rest) == Some(Code(h))
  {
    hide Hex4, Code;
    assert (h + rest)[..4] == h;
    HexIs(h + rest);
  }

  lemma LetterIsRead(l: Letter, rest: string)
    requires LetterOk(l)
    ensures ParseString(LetterThen(l, rest)) == Prepend(LetterMeant(l), ParseString(rest))
  {
    var s := LetterThen(l, rest);
    if l.Bare? {
      assert s[1..] == rest;
    } else if l.Escape? {
      assert s[2..] == rest;
    } else {
      UnicodeIsRead(l, rest);
      hide UnicodeEscape, LetterMeant, LetterOk, Code, Hex;
    }
  }

  lemma UnicodeIsRead(l: Letter, rest: string)
    requires LetterOk(l) && (l.Unicode? || l.Surrogates?)
    ensures var s := LetterThen(l, rest);
            && |s| >= 6 && s[0] == '\\' && s[1] == 'u'
            && UnicodeEscape(s) == Some((LetterMeant(l), if l.Unicode? then 6 else 12))
            && s[UnicodeEscape(s).value.1..] == rest
  {
    hide Hex4, Code;
    var s := LetterThen(l, rest);
    if l.Unicode? {
      HexIsRead(l.hex, rest);
      assert s[2..] == l.hex + rest && s[6..] == rest;
    } else {
      var second := ['\\', 'u'] + (l.low + rest);
      HexIsRead(l.high, second);
      HexIsRead(l.low, rest);
      assert s[2..] == l.high + second && s[6..8] == "\\u" && s[8..] == l.low + rest && s[12..] == rest;
    }
  }

  lemma {:induction false} LettersAreRead(ls: seq<Letter>, rest: string)
    requires LettersOk(ls)
    ensures ParseString(LettersThen(ls, rest)) == Got(LettersMeant(ls), rest)
  {
    if ls == [] {
      assert (['"'] + rest)[1..] == rest;
    } else {
      LetterIsRead(ls[0], LettersThen(ls[1..], rest));
      LettersAreRead(ls[1..], rest);
      hide ParseString, LetterThen, LetterMeant, LetterOk;
    }
  }

  /** The first letter of what the reader accepts. */
  lemma LetterOnly(s: string) returns (l: Letter, rest: string)
    requires ParseString(s).Got? && s[0] != '"'
    ensures LetterOk(l) && s == LetterThen(l, rest) && |rest| < |s|
    ensures ParseString(s) == Prepend(LetterMeant(l), ParseString(rest))
  {
    if s[0] != '\\' {
      l, rest := Bare(s[0]), s[1..];
      assert s == [s[0]] + s[1..];
    } else if s[1] == 'u' {
      l, rest := UnicodeOnly(s);
      hide LetterThen, LetterMeant, LetterOk;
    } else {
      l, rest := Escape(s[1]), s[2..];
      assert s == ['\\', s[1]] + s[2..];
    }
  }

  lemma UnicodeOnly(s: string) returns (l: Letter, rest: string)
    requires |s| >= 2 && s[0] == '\\' && s[1] == 'u' && UnicodeEscape(s).Some?
    ensures LetterOk(l) && s == LetterThen(l, rest) && rest == s[UnicodeEscape(s).value.1..]
    ensures UnicodeEscape(s).value.0 == LetterMeant(l)
  {
    hide Hex4, Code;
    HexIs(s[2..]);
    var high := s[2..][..4];
    if UnicodeEscape(s).value.1 == 6 {
      l, rest := Unicode(high), s[6..];
      assert s == ['\\', 'u'] + (high + rest);
    } else {
      HexIs(s[8..]);
      var low := s[8..][..4];
      l, rest := Surrogates(high, low), s[12..];
      assert s == ['\\', 'u'] + (high + (['\\', 'u'] + (low + rest)));
    }
  }

  lemma {:induction false} LettersOnly(s: string) returns (ls: seq<Letter>)
    requires ParseString(s).Got?
    ensures LettersOk(ls) && s == LettersThen(ls, ParseString(s).rest) && ParseString(s).value == LettersMeant(ls)
    decreases |s|
  {
    if s[0] == '"' {
      ls := [];
      assert s == ['"'] + s[1..];
    } else {
      var l, rest := LetterOnly(s);
      var more := LettersOnly(rest);
      ls := [l] + more;
      assert ls[0] == l && ls[1..] == more;
      hide ParseString, LetterThen, LetterMeant, LetterOk;
    }
  }

  // Numbers.

  lemma {:induction false} DigitsAreTaken(ds: string, rest: string)
    requires Digits(ds) && (rest == "" || !Digit(rest[0]))
    ensures TakeDigits(ds + rest) == (ds, rest)
  {
    if ds == "" {
      assert ds + rest == rest;
    } else {
      DigitsAreTaken(ds[1..], rest);
      assert (ds + rest)[1..] == ds[1..] + rest && (ds + rest)[0] == ds[0];
      assert ds == [ds[0]] + ds[1..];
    }
  }

  lemma {:induction false} DigitsOnly(s: string)
    ensures var (ds, rest) := TakeDigits(s); Digits(ds) && s == ds + rest && (rest == "" || !Digit(rest[0]))
  {
    if s != "" && Digit(s[0]) {
      DigitsOnly(s[1..]);
    }
  }

  lemma ExponentIsRead(mark: string, ds: string, rest: string)
    requires Mark(mark) && (mark == "" <==> ds == "") && Digits(ds) && Stops(rest)
    ensures SkipExponent(mark + (ds + rest)) == Some(rest)
  {
    hide TakeDigits;
    var s := mark + (ds + rest);
    DigitsAreTaken(ds, rest);
    if mark == "" {
      assert s == rest;
    } else if |mark| == 1 {
      assert s[1..] == ds + rest && s[1] == ds[0];
    } else {
      assert s[2..] == ds + rest && s[0] == mark[0] && s[1] == mark[1];
    }
  }

  lemma ExponentOnly(s: string) returns (mark: string, ds: string)
    requires SkipExponent(s).Some?
    ensures Mark(mark) && (mark == "" <==> ds == "") && Digits(ds) && s == mark + (ds + SkipExponent(s).value)
    ensures mark == "" <==> s == "" || s[0] !in {'e', 'E'}
  {
    hide TakeDigits;
    if s == "" || (s[0] != 'e' && s[0] != 'E') {
      mark, ds := "", "";
      assert s == "" + ("" + s);
    } else {
      var signed := |s| > 1 && (s[1] == '+' || s[1] == '-');
      mark := if signed then s[..2] else s[..1];
      var t := if signed then s[2..] else s[1..];
      DigitsOnly(t);
      ds := TakeDigits(t).0;
      assert s == mark + t;
    }
  }

  lemma AfterDigits(n: Numeral, rest: string)
    requires NumeralOk(n) && Stops(rest)
    ensures var end := n.mark + (n.exponent + rest);
            var tail := FractionThen(n, end);
            && (end == "" || !(Digit(end[0]) || end[0] == '.'))
            && (tail == "" || !Digit(tail[0]))
            && (n.fraction.Some? <==> tail != "" && tail[0] == '.')
            && (n.fraction.None? ==> tail == end)
            && (n.mark == "" ==> end == rest)
            && (n.mark != "" ==> end != "" && end[0] in {'e', 'E'})
  {
    var end := n.mark + (n.exponent + rest);
    assert n.mark == "" ==> end == rest;
    assert n.mark != "" ==> end[0] == n.mark[0];
  }

  lemma NumeralIsRead(n: Numeral, rest: string)
    requires NumeralOk(n) && Stops(rest)
    ensures ParseNumber(NumeralThen(n, rest)) == Got(NumeralMeant(n), rest)
  {
    hide TakeDigits, SkipExponent, ValueOf, Mark;
    var s := NumeralThen(n, rest);
    var end := n.mark + (n.exponent + rest);
    var tail := FractionThen(n, end);
    AfterDigits(n, rest);
    DigitsAreTaken(n.digits, tail);
    ExponentIsRead(n.mark, n.exponent, rest);
    if n.fraction.Some? {
      DigitsAreTaken(n.fraction.value, end);
      assert tail[1..] == n.fraction.value + end;
    }
    if n.negative {
      assert s[0] == '-' && s[1..] == n.digits + tail;
    } else {
      assert s == n.digits + tail && s[0] == n.digits[0];
    }
  }

  lemma NumeralOnly(s: string) returns (n: Numeral)
    requires ParseNumber(s).Got?
    ensures NumeralOk(n) && s == NumeralThen(n, ParseNumber(s).rest) && ParseNumber(s).value == NumeralMeant(n)
  {
    hide TakeDigits, SkipExponent, ValueOf;
    var negative := s[0] == '-';
    var unsigned := if negative then s[1..] else s;
    DigitsOnly(unsigned);
    var (ds, rest) := TakeDigits(unsigned);
    assert s == (if negative then ['-'] else []) + unsigned;
    if rest == "" || rest[0] !in {'.', 'e', 'E'} {
      n := Numeral(negative, ds, None, "", "");
      assert "" + ("" + rest) == rest;
    } else {
      var fraction := None;
      var tail := rest;
      if rest[0] == '.' {
        DigitsOnly(rest[1..]);
        fraction := Some(TakeDigits(rest[1..]).0);
        tail := TakeDigits(rest[1..]).1;
        assert rest == ['.'] + (fraction.value + tail);
      }
      var mark, es := ExponentOnly(tail);
      n := Numeral(negative, ds, fraction, mark, es);
    }
  }

  // Values: what is derived is read.

  lemma Unspace(w: string, s: string)
    requires Ws(w)
    ensures ParseValue(w + s) == ParseValue(s)
  {
    hide ParseMembers, ParseElements, ParseString, ParseNumber;
    SkipsWs(w, s);
  }

  lemma UnspaceItems(text: string, items: seq<Value>)
    ensures ParseElements(SkipWs(text), items) == ParseElements(text, items)
  {
    hide ParseValue, SkipWs;
    var w := WsSkipped(text);
    Unspace(w, SkipWs(text));
  }

  lemma UnspaceMembers(text: string, members: map<string, Value>)
    ensures ParseMembers(SkipWs(text), members) == ParseMembers(text, members)
  {
    hide ParseValue, ParseString, SkipWs;
    var w := WsSkipped(text);
    SkipsWs(w, SkipWs(text));
  }

  /** What a text of a value begins with. */
  lemma TreeFront(t: Tree, rest: string)
    requires TreeOk(t)
    ensures var s := TreeThen(t, rest); s != "" && !WsChar(s[0]) && s[0] != ']'
  {
    hide ItemsThen, MembersThen, LettersThen;
    if t.NumberTree? {
      NumeralFront(t.n, rest);
      hide NumeralThen;
    }
  }

  lemma NumeralFront(n: Numeral, rest: string)
    requires NumeralOk(n)
    ensures var s := NumeralThen(n, rest); s != "" && (s[0] == '-' || Digit(s[0]))
  {
    var s := NumeralThen(n, rest);
    assert !n.negative ==> s[0] == n.digits[0];
  }

  lemma Sealed(after: string, end: string)
    requires Ws(after) && end != "" && end[0] in {',', ']', '}'}
    ensures SkipWs(after + end) == end && Stops(after + end)
  {
    SkipsWs(after, end);
    Unspaced(end);
    hide SkipWs;
    assert after != "" ==> (after + end)[0] == after[0] && WsChar(after[0]);
    assert after == "" ==> after + end == end;
  }

  lemma LiteralIsRead(t: Tree, rest: string)
    requires t.NullTree? || t.BoolTree?
    ensures ParseValue(TreeThen(t, rest)) == Got(TreeMeant(t), rest)
  {
    hide ParseMembers, ParseElements, ParseString, ParseNumber, SkipWs;
    var s := TreeThen(t, rest);
    Unspaced(s);
    var word := if t.NullTree? then "null" else if t.b then "true" else "false";
    assert word <= s && s[|word|..] == rest && s[0] == word[0];
  }

  lemma NumberIsRead(n: Numeral, rest: string)
    requires NumeralOk(n) && Stops(rest)
    ensures ParseValue(NumeralThen(n, rest)) == Got(NumeralMeant(n), rest)
  {
    hide ParseMembers, ParseElements, ParseString, ParseNumber, SkipWs, NumeralThen, NumeralMeant, NumeralOk;
    NumeralFront(n, rest);
    NumeralIsRead(n, rest);
    Unspaced(NumeralThen(n, rest));
  }

  lemma TextIsRead(ls: seq<Letter>, rest: string)
    requires LettersOk(ls)
    ensures ParseValue(['"'] + LettersThen(ls, rest)) == Got(String(LettersMeant(ls)), rest)
  {
    hide ParseMembers, ParseElements, ParseString, ParseNumber, SkipWs, LettersThen, LettersMeant, LettersOk;
    LettersAreRead(ls, rest);
    var s := ['"'] + LettersThen(ls, rest);
    Unspaced(s);
    assert s[1..] == LettersThen(ls, rest);
  }

  lemma BracketsAreRead(space: string, rest: string)
    requires Ws(space)
    ensures ParseValue(['['] + (space + ([']'] + rest))) == Got(Array([]), rest)
    ensures ParseValue(['{'] + (space + (['}'] + rest))) == Got(Object(map[]), rest)
  {
    hide ParseMembers, ParseElements, ParseString, ParseNumber, SkipWs;
    var inner, other := space + ([']'] + rest), space + (['}'] + rest);
    Sealed(space, [']'] + rest);
    Sealed(space, ['}'] + rest);
    Unspaced(['['] + inner);
    Unspaced(['{'] + other);
    assert (['['] + inner)[1..] == inner && (['{'] + other)[1..] == other;
    assert ([']'] + rest)[1..] == rest && (['}'] + rest)[1..] == rest;
  }

  lemma {:induction false} TreeIsRead(t: Tree, rest: string)
    requires TreeOk(t) && (t.NumberTree? ==> Stops(rest))
    ensures ParseValue(TreeThen(t, rest)) == Got(TreeMeant(t), rest)
    decreases t
  {
    match t
    case NullTree => LiteralIsRead(t, rest);
    case BoolTree(_) => LiteralIsRead(t, rest);
    case NumberTree(n) => NumberIsRead(n, rest);
    case StringTree(ls) => TextIsRead(ls, rest);
    case EmptyArray(space) => BracketsAreRead(space, rest);
    case EmptyObject(space) => BracketsAreRead(space, rest);
    case ArrayTree(items) =>
      ItemsAreRead(items, [], rest);
      ItemsFront(items, rest);
      ArrayOpens(ItemsThen(items, rest));
      hide ParseValue, ParseElements, ItemsThen, ItemsOk, SkipWs;
      assert [] + ItemsMeant(items) == ItemsMeant(items);
    case ObjectTree(members) =>
      MembersAreRead(members, map[], rest);
      MembersFront(members, rest);
      ObjectOpens(MembersThen(members, rest));
      hide ParseValue, ParseMembers, MembersThen, MembersOk, SkipWs;
  }

  lemma ArrayOpens(inner: string)
    requires SkipWs(inner) != "" && SkipWs(inner)[0] != ']'
    ensures ParseValue(['['] + inner) == ParseElements(inner, [])
  {
    UnspaceItems(inner, []);
    Unspaced(['['] + inner);
    hide ParseMembers, ParseElements, ParseString, ParseNumber, SkipWs;
    assert (['['] + inner)[1..] == inner;
  }

  lemma ObjectOpens(inner: string)
    requires SkipWs(inner) != "" && SkipWs(inner)[0] != '}'
    ensures ParseValue(['{'] + inner) == ParseMembers(inner, map[])
  {
    UnspaceMembers(inner, map[]);
    Unspaced(['{'] + inner);
    hide ParseMembers, ParseElements, ParseString, ParseNumber, SkipWs;
    assert (['{'] + inner)[1..] == inner;
  }

  lemma ItemsFront(i: Items, rest: string)
    requires ItemsOk(i)
    ensures var s := SkipWs(ItemsThen(i, rest)); s != "" && s[0] != ']'
  {
    var end := if i.LastItem? then [']'] + rest else [','] + ItemsThen(i.more, rest);
    assert ItemOk(i.item);
    hide TreeThen, SkipWs, ItemsOk, TreeOk;
    var s := TreeThen(i.item.value, i.item.after + end);
    TreeFront(i.item.value, i.item.after + end);
    SkipsWs(i.item.before, s);
    Unspaced(s);
  }

  lemma MembersFront(m: Members, rest: string)
    requires MembersOk(m)
    ensures var s := SkipWs(MembersThen(m, rest)); s != "" && s[0] != '}'
  {
    var end := if m.LastPair? then ['}'] + rest else [','] + MembersThen(m.rest, rest);
    assert PairOk(m.pair);
    hide ItemThen, SkipWs, MembersOk, LettersThen;
    var s := ['"'] + LettersThen(m.pair.key, m.pair.colon + ([':'] + ItemThen(m.pair.item, end)));
    SkipsWs(m.pair.before, s);
    Unspaced(s);
  }

  lemma {:induction false} ItemIsRead(i: Item, end: string)
    requires ItemOk(i) && end != "" && end[0] in {',', ']', '}'}
    ensures ParseValue(ItemThen(i, end)) == Got(TreeMeant(i.value), i.after + end)
    ensures SkipWs(i.after + end) == end
    decreases i
  {
    Sealed(i.after, end);
    TreeIsRead(i.value, i.after + end);
    Unspace(i.before, TreeThen(i.value, i.after + end));
    hide ParseValue, TreeThen, SkipWs, TreeOk, Stops;
  }

  /** One element and what follows it. */
  lemma ElementIsRead(text: string, v: Value, after: string, items: seq<Value>)
    requires ParseValue(text) == Got(v, after) && SkipWs(after) != "" && SkipWs(after)[0] in {',', ']'}
    ensures var end := SkipWs(after);
            ParseElements(text, items) ==
            if end[0] == ']' then Got(Array(items + [v]), end[1..]) else ParseElements(end[1..], items + [v])
  {
    hide ParseValue, SkipWs;
  }

  lemma {:induction false} ItemsAreRead(i: Items, items: seq<Value>, rest: string)
    requires ItemsOk(i)
    ensures ParseElements(ItemsThen(i, rest), items) == Got(Array(items + ItemsMeant(i)), rest)
    decreases i
  {
    assert ItemOk(i.item);
    var v := TreeMeant(i.item.value);
    var end := if i.LastItem? then [']'] + rest else [','] + ItemsThen(i.more, rest);
    ItemIsRead(i.item, end);
    assert ItemsThen(i, rest) == ItemThen(i.item, end);
    if i.LastItem? {
      assert end[1..] == rest && ItemsMeant(i) == [v];
    } else {
      ItemsAreRead(i.more, items + [v], rest);
      assert end[1..] == ItemsThen(i.more, rest);
      assert ItemsMeant(i) == [v] + ItemsMeant(i.more);
      assert items + [v] + ItemsMeant(i.more) == items + ([v] + ItemsMeant(i.more));
    }
    hide ParseValue, ParseElements, ItemThen, ItemsThen, SkipWs, TreeOk, ItemOk, ItemsMeant, ItemsOk;
    ElementIsRead(ItemThen(i.item, end), v, i.item.after + end, items);
  }

  lemma {:induction false} PairIsRead(p: Pair, end: string, members: map<string, Value>)
    requires PairOk(p) && ItemOk(p.item) && end != "" && end[0] in {',', '}'}
    ensures var more := members[LettersMeant(p.key) := TreeMeant(p.item.value)];
            ParseMembers(PairThen(p, end), members) ==
            if end[0] == '}' then Got(Object(more), end[1..]) else ParseMembers(end[1..], more)
    decreases p
  {
    hide ParseValue, ParseString, ItemThen, SkipWs, TreeOk, LettersThen, LettersMeant, LettersOk;
    var value := ItemThen(p.item, end);
    var after := p.colon + ([':'] + value);
    var s := ['"'] + LettersThen(p.key, after);
    ItemIsRead(p.item, end);
    LettersAreRead(p.key, after);
    SkipsWs(p.before, s);
    Unspaced(s);
    SkipsWs(p.colon, [':'] + value);
    Unspaced([':'] + value);
    assert s[1..] == LettersThen(p.key, after) && ([':'] + value)[1..] == value;
  }

  lemma {:induction false} MembersAreRead(m: Members, members: map<string, Value>, rest: string)
    requires MembersOk(m)
    ensures ParseMembers(MembersThen(m, rest), members) == Got(Object(MembersMeant(m, members)), rest)
    decreases m
  {
    assert PairOk(m.pair) && ItemOk(m.pair.item);
    var end := if m.LastPair? then ['}'] + rest else [','] + MembersThen(m.rest, rest);
    PairIsRead(m.pair, end, members);
    if m.LastPair? {
      assert end[1..] == rest;
    } else {
      MembersAreRead(m.rest, members[LettersMeant(m.pair.key) := TreeMeant(m.pair.item.value)], rest);
      assert end[1..] == MembersThen(m.rest, rest);
    }
    hide ParseMembers, PairThen, TreeOk, ItemOk, PairOk, LettersMeant;
  }

  // Values: what is read is derived.

  lemma Cut(s: string)
    requires s != ""
    ensures s == [s[0]] + s[1..]
  {
  }

  lemma LiteralOnly(s: string, word: string, v: Value)
    requires word != "" && ParseLiteral(s, word, v).Got?
    ensures s == word + ParseLiteral(s, word, v).rest && ParseLiteral(s, word, v).value == v
  {
  }

  /** A value that holds no other value. */
  lemma LeafOnly(s: string) returns (t: Tree)
    requires s != "" && SkipWs(s) == s && s[0] !in {'{', '['} && ParseValue(s).Got?
    ensures TreeOk(t) && s == TreeThen(t, ParseValue(s).rest) && ParseValue(s).value == TreeMeant(t)
  {
    hide ParseMembers, ParseElements, ParseString, ParseNumber, ParseLiteral, SkipWs;
    hide LettersThen, LettersMeant, LettersOk, NumeralThen, NumeralMeant, NumeralOk;
    if s[0] == '"' {
      var ls := LettersOnly(s[1..]);
      Cut(s);
      t := StringTree(ls);
    } else if s[0] == 'n' {
      LiteralOnly(s, "null", Null);
      t := NullTree;
    } else if s[0] == 't' {
      LiteralOnly(s, "true", Bool(true));
      t := BoolTree(true);
    } else if s[0] == 'f' {
      LiteralOnly(s, "false", Bool(false));
      t := BoolTree(false);
    } else {
      var n := NumeralOnly(s);
      t := NumberTree(n);
    }
  }

  /** An empty array or object, or one whose inside is read as its items or members. */
  lemma BracketOnly(s: string) returns (space: string)
    requires s != "" && SkipWs(s) == s && s[0] in {'{', '['} && ParseValue(s).Got?
    ensures Ws(space)
    ensures s[0] == '[' ==>
              || (s == ['['] + (space + ([']'] + ParseValue(s).rest)) && ParseValue(s).value == Array([]))
              || ParseElements(s[1..], []) == ParseValue(s)
    ensures s[0] == '{' ==>
              || (s == ['{'] + (space + (['}'] + ParseValue(s).rest)) && ParseValue(s).value == Object(map[]))
              || ParseMembers(s[1..], map[]) == ParseValue(s)
  {
    hide ParseMembers, ParseElements, ParseString, ParseNumber, ParseLiteral, SkipWs;
    space := WsSkipped(s[1..]);
    Cut(s);
    UnspaceItems(s[1..], []);
    UnspaceMembers(s[1..], map[]);
    if SkipWs(s[1..]) != "" {
      Cut(SkipWs(s[1..]));
    }
  }

  lemma Reskip(text: string)
    ensures SkipWs(SkipWs(text)) == SkipWs(text) && ParseValue(SkipWs(text)) == ParseValue(text)
  {
    hide ParseValue, SkipWs;
    var w := WsSkipped(text);
    Unspaced(SkipWs(text));
    Unspace(w, SkipWs(text));
  }

  lemma Blank(text: string)
    requires SkipWs(text) == ""
    ensures ParseValue(text).Fail?
  {
    hide ParseMembers, ParseElements, ParseString, ParseNumber, ParseLiteral, SkipWs;
  }

  lemma {:induction false} TreeOnly(text: string) returns (w: string, t: Tree)
    requires ParseValue(text).Got?
    ensures Ws(w) && TreeOk(t)
    ensures text == w + TreeThen(t, ParseValue(text).rest) && ParseValue(text).value == TreeMeant(t)
    decreases |text|, 1
  {
    w := WsSkipped(text);
    var s := SkipWs(text);
    Reskip(text);
    if s == "" {
      Blank(text);
    }
    hide ParseValue, SkipWs, TreeThen, TreeOk, TreeMeant;
    if s[0] == '[' {
      t := ArrayOnly(s);
    } else if s[0] == '{' {
      t := ObjectOnly(s);
    } else {
      t := LeafOnly(s);
    }
  }

  lemma {:induction false} ArrayOnly(s: string) returns (t: Tree)
    requires s != "" && SkipWs(s) == s && s[0] == '[' && ParseValue(s).Got?
    ensures TreeOk(t) && s == TreeThen(t, ParseValue(s).rest) && ParseValue(s).value == TreeMeant(t)
    decreases |s|, 0
  {
    hide ParseValue, SkipWs, ParseElements, ItemsThen, ItemsOk, ItemsMeant;
    var space := BracketOnly(s);
    if ParseElements(s[1..], []) == ParseValue(s) {
      Cut(s);
      var items := ItemsOnly(s[1..], []);
      t := ArrayTree(items);
      assert [] + ItemsMeant(items) == ItemsMeant(items);
    } else {
      t := EmptyArray(space);
    }
  }

  lemma {:induction false} ObjectOnly(s: string) returns (t: Tree)
    requires s != "" && SkipWs(s) == s && s[0] == '{' && ParseValue(s).Got?
    ensures TreeOk(t) && s == TreeThen(t, ParseValue(s).rest) && ParseValue(s).value == TreeMeant(t)
    decreases |s|, 0
  {
    hide ParseValue, SkipWs, ParseMembers, MembersThen, MembersOk, MembersMeant;
    var space := BracketOnly(s);
    if ParseMembers(s[1..], map[]) == ParseValue(s) {
      Cut(s);
      var members := MembersOnly(s[1..], map[]);
      t := ObjectTree(members);
    } else {
      t := EmptyObject(space);
    }
  }

  lemma {:induction false} ItemsOnly(text: string, items: seq<Value>) returns (i: Items)
    requires ParseElements(text, items).Got?
    ensures ItemsOk(i) && text == ItemsThen(i, ParseElements(text, items).rest)
    ensures ParseElements(text, items).value == Array(items + ItemsMeant(i))
    decreases |text|, 2
  {
    var v := ParseValue(text);
    var w, t := TreeOnly(text);
    var after := WsSkipped(v.rest);
    var u := SkipWs(v.rest);
    Cut(u);
    var item := Item(w, t, after);
    assert ItemThen(item, u) == text;
    if u[0] == ']' {
      i := LastItem(item);
      assert ItemsMeant(i) == [v.value];
    } else {
      var more := ItemsOnly(u[1..], items + [v.value]);
      i := ItemAndMore(item, more);
      assert ItemsMeant(i) == [v.value] + ItemsMeant(more);
      assert items + [v.value] + ItemsMeant(more) == items + ([v.value] + ItemsMeant(more));
    }
  }

  lemma {:induction false} MembersOnly(text: string, members: map<string, Value>) returns (m: Members)
    requires ParseMembers(text, members).Got?
    ensures MembersOk(m) && text == MembersThen(m, ParseMembers(text, members).rest)
    ensures ParseMembers(text, members).value == Object(MembersMeant(m, members))
    decreases |text|, 2
  {
    var before := WsSkipped(text);
    var s := SkipWs(text);
    Cut(s);
    var key := ParseString(s[1..]);
    var ls := LettersOnly(s[1..]);
    var colon := WsSkipped(key.rest);
    var t := SkipWs(key.rest);
    Cut(t);
    var v := ParseValue(t[1..]);
    var w, tree := TreeOnly(t[1..]);
    var after := WsSkipped(v.rest);
    var u := SkipWs(v.rest);
    Cut(u);
    var item := Item(w, tree, after);
    assert ItemThen(item, u) == t[1..];
    var p := Pair(before, ls, colon, item);
    assert PairThen(p, u) == text;
    if u[0] == '}' {
      m := LastPair(p);
    } else {
      var more := MembersOnly(u[1..], members[key.value := v.value]);
      m := PairAndMore(p, more);
    }
  }

  /** The reader accepts exactly the texts of the grammar, and reads each as what it derives. */
  lemma ParseIsExact(text: string, v: Value)
    ensures Parse(text) == Some(v) <==> Derives(text, v)
  {
    if Parse(text) == Some(v) {
      DerivedIfParsed(text, v);
    }
    if Derives(text, v) {
      var i: Item :| ItemOk(i) && TreeMeant(i.value) == v && text == ItemThen(i, "");
      ParsedIfDerived(i);
    }
  }

  lemma DerivedIfParsed(text: string, v: Value)
    requires Parse(text) == Some(v)
    ensures Derives(text, v)
  {
    hide ParseValue, SkipWs, TreeThen, TreeOk;
    var w, t := TreeOnly(text);
    var rest := ParseValue(text).rest;
    var after := WsSkipped(rest);
    assert rest == after && rest + "" == rest;
    assert ItemThen(Item(w, t, rest), "") == text;
  }

  lemma ParsedIfDerived(i: Item)
    requires ItemOk(i)
    ensures Parse(ItemThen(i, "")) == Some(TreeMeant(i.value))
  {
    hide ParseValue, TreeThen, TreeOk;
    assert i.after + "" == i.after && SkipWs("") == "";
    SkipsWs(i.after, "");
    TreeIsRead(i.value, i.after);
    Unspace(i.before, TreeThen(i.value, i.after));
  }
}
