/** The script that wraps a worker's command (`bridge_wrapper_shell` in src/claude_gateway.rs): written from a
    template, and read back token by token. */
module BridgeScript {
  import opened Common
  import opened ShellQuote

  // Writing scripts.

  datatype Bit = Chars(text: string) | Var(name: string)

  datatype Atom =
    | Plain(text: string)
    | Single(text: string)
    | Double(bits: seq<Bit>)
    | Special(c: char)
    | Math(text: string)
    | Sub(items: seq<Item>)

  /** The operators of the script. */
  datatype Oper = Semi | Amp | AndIf | Great | DoubleGreat

  function OperText(op: Oper): string {
    match op
    case Semi => ";"
    case Amp => "&"
    case AndIf => "&&"
    case Great => ">"
    case DoubleGreat => ">>"
  }

  datatype Lexeme = Op(op: Oper) | Number(text: string) | Wd(atoms: seq<Atom>)

  /** A token as it is written, with or without a blank behind it. */
  datatype Item = Item(lexeme: Lexeme, gap: bool)

  function WriteBits(bits: seq<Bit>): string {
    if bits == [] then "" else
      (match bits[0] case Chars(t) => t case Var(n) => "$" + n) + WriteBits(bits[1..])
  }

  function WriteAtom(a: Atom): string {
    match a
    case Plain(t) => t
    case Single(t) => ShellQuote.ShellQuote(t)
    case Double(bits) => "\"" + (WriteBits(bits) + "\"")
    case Special(c) => "$" + [c]
    case Math(t) => "$((" + (t + "))")
    case Sub(items) => "$(" + (WriteItems(items) + ")")
  }

  function WriteAtoms(atoms: seq<Atom>): string {
    if atoms == [] then "" else WriteAtom(atoms[0]) + WriteAtoms(atoms[1..])
  }

  function WriteItem(i: Item): string {
    match i.lexeme
    case Op(op) => OperText(op)
    case Number(t) => t
    case Wd(atoms) => WriteAtoms(atoms)
  }

  function WriteItems(items: seq<Item>): string {
    if items == [] then "" else
      WriteItem(items[0]) + ((if items[0].gap then " " else "") + WriteItems(items[1..]))
  }

  // What is meant.

  function BitsMeant(parts: seq<Part>, bits: seq<Bit>): seq<Part>
    decreases bits
  {
    if bits == [] then parts else
      BitsMeant(match bits[0] case Chars(t) => Add(parts, t, true) case Var(n) => parts + [Param(n, true)], bits[1..])
  }

  function AtomMeant(parts: seq<Part>, a: Atom): seq<Part>
    decreases a
  {
    match a
    case Plain(t) => Add(parts, t, false)
    case Single(t) => Add(parts, t, true)
    case Double(bits) => BitsMeant(parts, bits)
    case Special(c) => parts + [Param([c], false)]
    case Math(t) => parts + [Arith(t)]
    case Sub(items) => parts + [Command(ItemsMeant(items))]
  }

  function AtomsMeant(parts: seq<Part>, atoms: seq<Atom>): seq<Part>
    decreases atoms
  {
    if atoms == [] then parts else AtomsMeant(AtomMeant(parts, atoms[0]), atoms[1..])
  }

  function ItemMeant(i: Item): Token
    decreases i
  {
    match i.lexeme
    case Op(op) => Operator(OperText(op))
    case Number(t) => IoNumber(t)
    case Wd(atoms) => Word(AtomsMeant([], atoms))
  }

  function ItemsMeant(items: seq<Item>): seq<Token> {
    if items == [] then [] else [ItemMeant(items[0])] + ItemsMeant(items[1..])
  }

  // When writing says what is meant.

  predicate PlainChar(c: char) {
    !Delimiter(c) && c !in {'\'', '"', '\\', '$', '`'}
  }

  predicate PlainText(t: string) {
    forall i :: 0 <= i < |t| ==> PlainChar(t[i])
  }

  predicate DoubleText(t: string) {
    forall i :: 0 <= i < |t| ==> t[i] !in {'"', '$', '`', '\\'}
  }

  predicate Name(n: string) {
    n != "" && NameStart(n[0]) && forall i :: 0 <= i < |n| ==> NameChar(n[i])
  }

  predicate EndsName(s: string) {
    s == "" || !NameChar(s[0])
  }

  predicate BitsOk(bits: seq<Bit>) {
    bits != [] ==>
      && (match bits[0]
          case Chars(t) => DoubleText(t)
          case Var(n) => Name(n) && EndsName(WriteBits(bits[1..])))
      && BitsOk(bits[1..])
  }

  predicate AtomOk(a: Atom) {
    match a
    case Plain(t) => PlainText(t)
    case Single(_) => true
    case Double(bits) => BitsOk(bits)
    case Special(c) => SpecialParam(c) && !NameStart(c)
    case Math(t) => ')' !in t
    case Sub(items) => ItemsOk(items)
  }

  predicate AtomsOk(atoms: seq<Atom>) {
    atoms != [] ==> AtomOk(atoms[0]) && AtomsOk(atoms[1..])
  }

  /** The first character of a word shows that it is one. */
  predicate StartsWord(s: string) {
    s != "" && !Delimiter(s[0]) && s[0] != '#'
  }

  predicate ItemOk(i: Item) {
    match i.lexeme
    case Op(_) => true
    case Number(t) => Digits(t)
    case Wd(atoms) => AtomsOk(atoms) && StartsWord(WriteAtoms(atoms))
  }

  /** What may come next: with a blank in between, anything after a word or an operator; without one, a word after
      an operator, a redirection after a number and a separator after a word; and the end after all but a number. */
  predicate Spaced(i: Item, next: Option<Lexeme>) {
    if i.gap || next.None? then !i.lexeme.Number?
    else match i.lexeme
      case Op(_) => next.value.Wd?
      case Number(_) => next.value in {Op(Great), Op(DoubleGreat)}
      case Wd(_) => next.value in {Op(Semi), Op(Amp), Op(AndIf)}
  }

  function LexemeAt(items: seq<Item>, k: nat): Option<Lexeme> {
    if k < |items| then Some(items[k].lexeme) else None
  }

  predicate ItemsOk(items: seq<Item>) {
    items != [] ==> ItemOk(items[0]) && Spaced(items[0], LexemeAt(items, 1)) && ItemsOk(items[1..])
  }

  // Reading back.

  lemma {:induction false} PlainIsRead(t: string, tail: string, parts: seq<Part>)
    requires PlainText(t)
    ensures ReadWord(t + tail, parts) == ReadWord(tail, Add(parts, t, false))
  {
    if t == "" {
      assert t + tail == tail;
    } else {
      var rest := t[1..] + tail;
      assert (t + tail)[1..] == rest && (t + tail)[0] == t[0];
      assert PlainChar(t[0]);
      hide Add;
      assert ReadWord(t + tail, parts) == ReadWord(rest, Add(parts, [t[0]], false));
      hide ReadWord;
      PlainIsRead(t[1..], tail, Add(parts, [t[0]], false));
      AddAdd(parts, [t[0]], t[1..], false);
      assert [t[0]] + t[1..] == t;
    }
  }

  lemma {:induction false} CharsAreRead(t: string, tail: string, parts: seq<Part>)
    requires DoubleText(t)
    ensures ReadDouble(t + tail, parts) == ReadDouble(tail, Add(parts, t, true))
  {
    if t == "" {
      assert t + tail == tail;
    } else {
      var rest := t[1..] + tail;
      assert (t + tail)[1..] == rest && (t + tail)[0] == t[0];
      hide Add;
      assert ReadDouble(t + tail, parts) == ReadDouble(rest, Add(parts, [t[0]], true));
      hide ReadDouble;
      CharsAreRead(t[1..], tail, Add(parts, [t[0]], true));
      AddAdd(parts, [t[0]], t[1..], true);
      assert [t[0]] + t[1..] == t;
    }
  }

  lemma {:induction false} NameIsMeasured(n: string, tail: string)
    requires (forall i :: 0 <= i < |n| ==> NameChar(n[i])) && EndsName(tail)
    ensures NameLength(n + tail) == |n|
  {
    if n == "" {
      assert n + tail == tail;
    } else {
      assert (n + tail)[1..] == n[1..] + tail;
      NameIsMeasured(n[1..], tail);
    }
  }

  lemma NameIsRead(n: string, tail: string, quoted: bool)
    requires Name(n) && EndsName(tail)
    ensures ReadDollar(n + tail, quoted) == Some((Param(n, quoted), tail))
  {
    NameIsMeasured(n, tail);
    var s := n + tail;
    assert s[0] == n[0] && s[..|n|] == n && s[|n|..] == tail;
  }

  lemma DollarInDouble(s: string, parts: seq<Part>)
    ensures var d := ReadDollar(s, true);
            ReadDouble("$" + s, parts) == if d.None? then None else ReadDouble(d.value.1, parts + [d.value.0])
  {
    assert ("$" + s)[1..] == s;
  }

  lemma DollarInWord(s: string, parts: seq<Part>)
    ensures var d := ReadDollar(s, false);
            ReadWord("$" + s, parts) == if d.None? then None else ReadWord(d.value.1, parts + [d.value.0])
  {
    assert ("$" + s)[1..] == s;
  }

  lemma QuoteInWord(s: string, parts: seq<Part>)
    ensures ReadWord("\"" + s, parts) == ReadDouble(s, parts)
    ensures ReadDouble("\"" + s, parts) == ReadWord(s, parts)
  {
    assert ("\"" + s)[1..] == s;
  }

  lemma {:induction false} BitsAreRead(bits: seq<Bit>, tail: string, parts: seq<Part>)
    requires BitsOk(bits)
    ensures ReadDouble(WriteBits(bits) + ("\"" + tail), parts) == ReadWord(tail, BitsMeant(parts, bits))
  {
    hide ReadDouble, ReadWord, ReadDollar, Add;
    var end := "\"" + tail;
    if bits == [] {
      assert WriteBits(bits) + end == end;
      QuoteInWord(tail, parts);
    } else {
      var more := WriteBits(bits[1..]);
      match bits[0] {
        case Chars(t) =>
          assert WriteBits(bits) + end == t + (more + end);
          CharsAreRead(t, more + end, parts);
          BitsAreRead(bits[1..], tail, Add(parts, t, true));
        case Var(n) =>
          assert WriteBits(bits) + end == "$" + (n + (more + end));
          DollarInDouble(n + (more + end), parts);
          assert more == "" ==> more + end == end;
          NameIsRead(n, more + end, true);
          BitsAreRead(bits[1..], tail, parts + [Param(n, true)]);
      }
    }
  }

  lemma {:induction false} ArithIsRead(t: string, tail: string, text: string)
    requires ')' !in t
    ensures ReadArith(t + ("))" + tail), text) == Some((Arith(text + t), tail))
  {
    var s := t + ("))" + tail);
    if t == "" {
      assert s == "))" + tail && s[2..] == tail && text + t == text;
    } else {
      assert s[0] == t[0] && s[1..] == t[1..] + ("))" + tail) && t[0] in t;
      ArithIsRead(t[1..], tail, text + [t[0]]);
      assert text + [t[0]] + t[1..] == text + t;
    }
  }

  /** How the text of items begins, if there are any. */
  lemma FirstChar(items: seq<Item>)
    requires items != [] && ItemsOk(items)
    ensures var s := WriteItems(items);
            && s != "" && WriteItem(items[0]) != ""
            && s[0] == WriteItem(items[0])[0] && !Blank(s[0]) && s[0] !in {'(', ')', '#'}
  {
    hide WriteAtoms, AtomsOk, Spaced;
  }

  lemma {:induction false} AtomIsRead(a: Atom, tail: string, parts: seq<Part>)
    requires AtomOk(a)
    ensures ReadWord(WriteAtom(a) + tail, parts) == ReadWord(tail, AtomMeant(parts, a))
    decreases a
  {
    hide ReadWord, ReadDouble, ReadDollar, ReadTokens, ReadArith, Add;
    hide BitsMeant, BitsOk, ItemsOk, ItemsMeant, WriteItems;
    match a {
      case Plain(t) => PlainIsRead(t, tail, parts);
      case Single(t) => QuotedIsText(t, tail, parts);
      case Double(bits) =>
        assert WriteAtom(a) + tail == "\"" + (WriteBits(bits) + ("\"" + tail));
        QuoteInWord(WriteBits(bits) + ("\"" + tail), parts);
        BitsAreRead(bits, tail, parts);
      case Special(c) =>
        assert WriteAtom(a) + tail == "$" + ([c] + tail);
        DollarInWord([c] + tail, parts);
        SpecialIsRead(c, tail);
      case Math(t) =>
        var body := t + ("))" + tail);
        assert WriteAtom(a) + tail == "$" + ("((" + body);
        DollarInWord("((" + body, parts);
        MathIsRead(t, tail);
      case Sub(items) =>
        var body := WriteItems(items) + (")" + tail);
        assert WriteAtom(a) + tail == "$" + ("(" + body);
        DollarInWord("(" + body, parts);
        ItemsAreRead(items, ")" + tail, true);
        assert (")" + tail)[1..] == tail;
        SubIsRead(items, tail);
    }
  }

  lemma SpecialIsRead(c: char, tail: string)
    requires SpecialParam(c) && !NameStart(c)
    ensures ReadDollar([c] + tail, false) == Some((Param([c], false), tail))
  {
    assert ([c] + tail)[1..] == tail;
  }

  lemma MathIsRead(t: string, tail: string)
    requires ')' !in t
    ensures ReadDollar("((" + (t + ("))" + tail)), false) == Some((Arith(t), tail))
  {
    hide ReadArith;
    var s := "((" + (t + ("))" + tail));
    assert s[2..] == t + ("))" + tail);
    ArithIsRead(t, tail, "");
    assert "" + t == t;
  }

  lemma SubIsRead(items: seq<Item>, tail: string)
    requires ItemsOk(items)
    requires ReadTokens(WriteItems(items) + (")" + tail), true) == Some((ItemsMeant(items), tail))
    ensures ReadDollar("(" + (WriteItems(items) + (")" + tail)), false) == Some((Command(ItemsMeant(items)), tail))
  {
    hide ReadTokens, ItemsMeant;
    var body := WriteItems(items) + (")" + tail);
    var s := "(" + body;
    assert s[1..] == body && s[1] == body[0];
    if items != [] {
      FirstChar(items);
      assert body[0] == WriteItems(items)[0];
    } else {
      assert body == ")" + tail;
    }
  }

  lemma {:induction false} AtomsAreRead(atoms: seq<Atom>, tail: string, parts: seq<Part>)
    requires AtomsOk(atoms)
    ensures ReadWord(WriteAtoms(atoms) + tail, parts) == ReadWord(tail, AtomsMeant(parts, atoms))
    decreases atoms
  {
    hide ReadWord, AtomMeant, WriteAtom, AtomOk;
    if atoms == [] {
      assert WriteAtoms(atoms) + tail == tail;
    } else {
      var more := WriteAtoms(atoms[1..]) + tail;
      assert WriteAtoms(atoms) + tail == WriteAtom(atoms[0]) + more;
      AtomIsRead(atoms[0], more, parts);
      AtomsAreRead(atoms[1..], tail, AtomMeant(parts, atoms[0]));
    }
  }

  predicate Closes(tail: string, inner: bool) {
    if inner then tail != "" && tail[0] == ')' else tail == ""
  }

  lemma BlankStep(s: string, inner: bool)
    ensures ReadTokens(" " + s, inner) == ReadTokens(s, inner)
  {
    assert (" " + s)[1..] == s;
  }

  predicate AfterOperator(next: string) {
    next == "" || Blank(next[0]) || next[0] == ')' || !Delimiter(next[0])
  }

  lemma OperatorStep(op: string, next: string, inner: bool)
    requires op in {";", "&", "&&", ">", ">>"} && AfterOperator(next)
    ensures ReadTokens(op + next, inner) == Before(Operator(op), ReadTokens(next, inner))
  {
    var s := op + next;
    assert s[..|op|] == op && s[|op|..] == next;
    assert s[0] == op[0] && (|op| == 2 ==> s[1] == op[1]);
    assert |s| >= 2 ==> s[..2] == [s[0], s[1]];
    assert |op| == 1 && next != "" ==> s[1] == next[0];
    assert OperatorLength(s) == |op| by { OperatorIsMeasured(op, next); }
  }

  lemma OperatorIsMeasured(op: string, next: string)
    requires op in {";", "&", "&&", ">", ">>"} && AfterOperator(next)
    ensures OperatorLength(op + next) == |op|
  {
    var s := op + next;
    if |op| == 2 {
      assert s[..2] == op;
    } else if next != "" {
      assert s[..2][0] == op[0] && s[..2][1] == next[0];
    }
  }

  lemma NumberStep(n: string, next: string, inner: bool)
    requires Digits(n) && next != "" && next[0] == '>'
    ensures ReadTokens(n + next, inner) == Before(IoNumber(n), ReadTokens(next, inner))
  {
    var s := n + next;
    assert s[0] == n[0] && OperatorLength(s) == 0;
    PlainIsRead(n, next, []);
    assert [] + [Bare(n)] == [Bare(n)];
    assert ReadWord(s, []) == Some(([Bare(n)], next));
  }

  lemma {:induction false} WordStep(i: Item, next: string, inner: bool)
    requires i.lexeme.Wd? && ItemOk(i)
    requires next == "" || (Delimiter(next[0]) && next[0] !in {'<', '>'})
    ensures ReadTokens(WriteItem(i) + next, inner) == Before(ItemMeant(i), ReadTokens(next, inner))
    decreases i, 0
  {
    hide AtomsMeant, AtomsOk, WriteAtoms, OperatorLength;
    var atoms := i.lexeme.atoms;
    var s := WriteAtoms(atoms) + next;
    assert s[0] == WriteAtoms(atoms)[0];
    AtomsAreRead(atoms, next, []);
    assert ReadWord(s, []) == Some((AtomsMeant([], atoms), next)) by {
      WordEnds(next, AtomsMeant([], atoms));
    }
    hide ReadWord;
  }

  lemma WordEnds(next: string, parts: seq<Part>)
    requires next == "" || Delimiter(next[0])
    ensures ReadWord(next, parts) == Some((parts, next))
  {
  }

  /** What may come after an item. */
  predicate NextOk(i: Item, next: string) {
    match i.lexeme
    case Op(_) => AfterOperator(next)
    case Number(_) => next != "" && next[0] == '>'
    case Wd(_) => next == "" || (Delimiter(next[0]) && next[0] !in {'<', '>'})
  }

  lemma {:induction false} ItemStep(i: Item, next: string, inner: bool)
    requires ItemOk(i) && NextOk(i, next)
    ensures ReadTokens(WriteItem(i) + next, inner) == Before(ItemMeant(i), ReadTokens(next, inner))
    decreases i, 1
  {
    hide ReadTokens, WriteAtoms, AtomsMeant, AtomsOk, AfterOperator;
    match i.lexeme {
      case Op(op) => OperatorStep(OperText(op), next, inner);
      case Number(t) => NumberStep(t, next, inner);
      case Wd(_) => WordStep(i, next, inner);
    }
  }

  lemma GapNext(i: Item, more: string)
    requires !i.lexeme.Number?
    ensures NextOk(i, " " + more)
  {
  }

  lemma JoinedNext(items: seq<Item>, tail: string, inner: bool)
    requires items != [] && ItemsOk(items) && !items[0].gap && Closes(tail, inner)
    ensures NextOk(items[0], WriteItems(items[1..]) + tail)
  {
    hide WriteItems, WriteAtoms, AtomsOk;
    var rest := items[1..];
    var next := WriteItems(rest) + tail;
    if rest == [] {
      assert next == tail by { NothingWritten(); }
    } else {
      FirstChar(rest);
      assert next[0] == WriteItem(rest[0])[0];
    }
  }

  lemma NothingWritten()
    ensures WriteItems([]) == ""
  {
  }

  lemma {:induction false} ItemsAreRead(items: seq<Item>, tail: string, inner: bool)
    requires ItemsOk(items) && Closes(tail, inner)
    ensures ReadTokens(WriteItems(items) + tail, inner) == Some((ItemsMeant(items), if inner then tail[1..] else ""))
    decreases items
  {
    hide ReadTokens, WriteItem, ItemMeant, ItemOk, NextOk, WriteItems;
    if items == [] {
      NothingWritten();
      assert WriteItems(items) + tail == tail;
      NoMoreTokens(tail, inner);
    } else {
      var i, more := items[0], WriteItems(items[1..]) + tail;
      var next := if i.gap then " " + more else more;
      FirstItem(items, tail);
      ItemsAreRead(items[1..], tail, inner);
      if i.gap {
        BlankStep(more, inner);
        GapNext(i, more);
      } else {
        JoinedNext(items, tail, inner);
      }
      ItemStep(i, next, inner);
    }
  }

  lemma FirstItem(items: seq<Item>, tail: string)
    requires items != []
    ensures var more := WriteItems(items[1..]) + tail;
            WriteItems(items) + tail == WriteItem(items[0]) + if items[0].gap then " " + more else more
  {
    hide WriteItem;
    Glue(WriteItem(items[0]), if items[0].gap then " " else "", WriteItems(items[1..]), tail);
    assert "" + (WriteItems(items[1..]) + tail) == WriteItems(items[1..]) + tail;
  }

  lemma Glue(a: string, b: string, c: string, d: string)
    ensures a + (b + c) + d == a + (b + (c + d))
  {
  }

  lemma NoMoreTokens(tail: string, inner: bool)
    requires Closes(tail, inner)
    ensures ReadTokens(tail, inner) == Some(([], if inner then tail[1..] else ""))
  {
  }

  // Commands one after the other.

  /** The items of a command and the tokens it stands for; a blank follows. */
  predicate Says(items: seq<Item>, tokens: seq<Token>) {
    ItemsOk(items) && ItemsMeant(items) == tokens
  }

  predicate SaysAt(items: seq<Item>, tokens: seq<Token>, k: nat)
    requires k < |items| == |tokens|
  {
    Means(items[k], tokens[k]) && Spaced(items[k], LexemeAt(items, k + 1))
  }

  predicate Means(i: Item, t: Token) {
    ItemOk(i) && ItemMeant(i) == t
  }

  lemma {:induction false} SaysByIndex(items: seq<Item>, tokens: seq<Token>)
    requires |items| == |tokens| && forall k: nat :: k < |items| ==> SaysAt(items, tokens, k)
    ensures Says(items, tokens)
  {
    hide ItemOk, ItemMeant;
    if items != [] {
      assert SaysAt(items, tokens, 0);
      forall k: nat | k < |items| - 1
        ensures SaysAt(items[1..], tokens[1..], k)
      {
        assert SaysAt(items, tokens, k + 1);
      }
      SaysByIndex(items[1..], tokens[1..]);
      assert tokens == [tokens[0]] + tokens[1..];
    }
  }

  predicate EndsInGap(items: seq<Item>) {
    items != [] ==> items[|items| - 1].gap
  }

  lemma {:induction false} SaysJoin(a: seq<Item>, x: seq<Token>, b: seq<Item>, y: seq<Token>)
    requires Says(a, x) && Says(b, y) && EndsInGap(a)
    ensures Says(a + b, x + y) && WriteItems(a + b) == WriteItems(a) + WriteItems(b)
  {
    hide ItemOk, ItemMeant, WriteItem;
    if a == [] {
      assert a + b == b && x + y == y;
    } else {
      var rest := a[1..];
      assert (a + b)[1..] == rest + b && (a + b)[0] == a[0];
      assert x[0] == ItemMeant(a[0]) && x[1..] == ItemsMeant(rest);
      SaysJoin(rest, x[1..], b, y);
      assert x + y == [x[0]] + (x[1..] + y);
      OneMoreItem(a + b);
      OneMoreItem(a);
      hide ItemsOk, ItemsMeant, WriteItems;
      Glue(WriteItem(a[0]), if a[0].gap then " " else "", WriteItems(rest), WriteItems(b));
    }
  }

  lemma OneMoreItem(items: seq<Item>)
    requires items != []
    ensures WriteItems(items) == WriteItem(items[0]) + ((if items[0].gap then " " else "") + WriteItems(items[1..]))
  {
    hide WriteItem;
  }

  lemma NothingSaid()
    ensures Says([], [])
  {
  }

  function Flat<T>(lines: seq<seq<T>>): seq<T> {
    if lines == [] then [] else lines[0] + Flat(lines[1..])
  }

  function WriteLines(lines: seq<seq<Item>>): string {
    if lines == [] then "" else WriteItems(lines[0]) + WriteLines(lines[1..])
  }

  /** Each command says its tokens, and all but the last end in a blank. */
  predicate AllSay(lines: seq<seq<Item>>, tokens: seq<seq<Token>>) {
    && |lines| == |tokens|
    && (forall i :: 0 <= i < |lines| ==> Says(lines[i], tokens[i]))
    && (forall i :: 0 <= i < |lines| - 1 ==> EndsInGap(lines[i]))
  }

  lemma {:induction false} LinesSay(lines: seq<seq<Item>>, tokens: seq<seq<Token>>)
    requires AllSay(lines, tokens)
    ensures Says(Flat(lines), Flat(tokens)) && WriteItems(Flat(lines)) == WriteLines(lines)
  {
    hide Says, EndsInGap, WriteItems;
    if lines == [] {
      NothingSaid();
      NothingWritten();
    } else {
      LinesSay(lines[1..], tokens[1..]);
      assert Says(lines[0], tokens[0]);
      if |lines| == 1 {
        assert Flat(lines) == lines[0] && Flat(tokens) == tokens[0];
        NothingWritten();
        assert Flat(lines[1..]) == [] && WriteLines(lines) == WriteItems(lines[0]);
      } else {
        SaysJoin(lines[0], tokens[0], Flat(lines[1..]), Flat(tokens[1..]));
      }
    }
  }

  /** A script written in this way is read as the tokens of its commands. */
  lemma LinesAreRead(lines: seq<seq<Item>>, tokens: seq<seq<Token>>)
    requires AllSay(lines, tokens)
    ensures ReadTokens(WriteLines(lines), false) == Some((Flat(tokens), ""))
  {
    hide ReadTokens, WriteItems, WriteLines, Flat, ItemsOk, ItemsMeant;
    LinesSay(lines, tokens);
    ItemsAreRead(Flat(lines), "", false);
    assert WriteLines(lines) + "" == WriteLines(lines);
  }

  // The template.

  /** A command of the script: how it is written, and the tokens it stands for. */
  datatype Line = Line(items: seq<Item>, tokens: seq<Token>)

  /** A word with a blank behind it, and one without. */
  function W(text: string): Item {
    Item(Wd([Plain(text)]), true)
  }

  function End(text: string): Item {
    Item(Wd([Plain(text)]), false)
  }

  function Path(path: string, gap: bool): Item {
    Item(Wd([Single(path)]), gap)
  }

  function Url(key: string, host: string, name: string): Item {
    Item(Wd([Plain(key), Double([Chars(host), Var(name)])]), true)
  }

  function Operate(op: Oper, gap: bool): Item {
    Item(Op(op), gap)
  }

  const TWO := Item(Number("2"), false)

  /** The token of a bare word, and of a word that is just this text, quoted. */
  function B(text: string): Token {
    Word([Bare(text)])
  }

  function L(text: string): Token {
    Word(Literal(text))
  }

  const COMPLAINT := [Chars("bridge process"), Chars(" did not write"), Chars(" port file"), Chars(" within 5s")]
  const COMPLAINT_TEXT := "bridge process" + " did not write" + " port file" + " within 5s"

  function RemoveLine(port: string): Line {
    Line([W("rm"), W("-f"), Path(port, false), Operate(Semi, true)],
         [B("rm"), B("-f"), L(port), Operator(";")])
  }

  function StartLine(ahBin: string, uds: string): Line {
    Line([Path(ahBin, true), W("internal-bridge"), W("--uds"), Path(uds, true)],
         [L(ahBin), B("internal-bridge"), B("--uds"), L(uds)])
  }

  function StartedLine(port: string, err: string): Line {
    Line([W("--port-file"), Path(port, true), TWO, Operate(Great, false), Path(err, true), Operate(Amp, true)],
         [B("--port-file"), L(port), IoNumber("2"), Operator(">"), L(err), Operator("&")])
  }

  function PidLine(): Line {
    Line([Item(Wd([Plain("bridge_pid="), Special('!')]), false), Operate(Semi, true), End("i=0"), Operate(Semi, true)],
         [Word([Bare("bridge_pid="), Param("!", false)]), Operator(";"), B("i=0"), Operator(";")])
  }

  function WhileLine(): Line {
    Line([W("while"), W("["), Item(Wd([Double([Var("i")])]), true), W("-lt")],
         [B("while"), B("["), Word([Param("i", true)]), B("-lt")])
  }

  function LimitLine(): Line {
    Line([W("50"), End("]"), Operate(Semi, true)],
         [B("50"), B("]"), Operator(";")])
  }

  function DoTestLine(port: string): Line {
    Line([W("do"), W("test"), W("-s"), Path(port, true)],
         [B("do"), B("test"), B("-s"), L(port)])
  }

  function BreakLine(): Line {
    Line([Operate(AndIf, true), End("break"), Operate(Semi, true)],
         [Operator("&&"), B("break"), Operator(";")])
  }

  function StepLine(): Line {
    Line([Item(Wd([Plain("i="), Math("i + 1")]), false), Operate(Semi, true)],
         [Word([Bare("i="), Arith("i + 1")]), Operator(";")])
  }

  function SleepLine(): Line {
    Line([W("sleep"), End("0.1"), Operate(Semi, true), End("done"), Operate(Semi, true)],
         [B("sleep"), B("0.1"), Operator(";"), B("done"), Operator(";")])
  }

  function UnlessLine(): Line {
    Line([W("if"), W("!"), W("test")],
         [B("if"), B("!"), B("test")])
  }

  function NonEmptyLine(port: string): Line {
    Line([W("-s"), Path(port, false), Operate(Semi, true)],
         [B("-s"), L(port), Operator(";")])
  }

  function EchoLine(err: string): Line {
    Line([W("then"), W("echo"), Item(Wd([Double(COMPLAINT)]), true), Operate(DoubleGreat, false), Path(err, false),
          Operate(Semi, true)],
         [B("then"), B("echo"), Word([Quoted(COMPLAINT_TEXT)]), Operator(">>"), L(err), Operator(";")])
  }

  function KillLine(): Line {
    Line([W("kill"), Item(Wd([Double([Var("bridge_pid")])]), true), TWO, Operate(Great, false), End("/dev/null"),
          Operate(Semi, true)],
         [B("kill"), Word([Param("bridge_pid", true)]), IoNumber("2"), Operator(">"), B("/dev/null"), Operator(";")])
  }

  function ExitLine(): Line {
    Line([W("exit"), End("126"), Operate(Semi, true), End("fi"), Operate(Semi, true)],
         [B("exit"), B("126"), Operator(";"), B("fi"), Operator(";")])
  }

  function PortLine(port: string): Line {
    Line([Item(Wd([Plain("port="), Sub([W("cat"), Path(port, false)])]), false), Operate(Semi, true)],
         [Word([Bare("port="), Command([B("cat"), L(port)])]), Operator(";")])
  }

  const URL_KEY := "ANTHROPIC_BASE_URL="
  const URL_HOST := "http://localhost:"

  function UrlLine(): Line {
    Line([Url(URL_KEY, URL_HOST, "port")],
         [Word([Bare("ANTHROPIC_BASE_URL="), Quoted("http://localhost:"), Param("port", true)])])
  }

  function ExecLine(inner: string): Line {
    Line([W("exec"), W("sh"), W("-lc"), Path(inner, false)],
         [B("exec"), B("sh"), B("-lc"), L(inner)])
  }

  /** The script, command by command. */
  function BridgeLines(inner: string, ahBin: string, uds: string, port: string, err: string): seq<Line> {
    [RemoveLine(port), StartLine(ahBin, uds), StartedLine(port, err), PidLine(),
     WhileLine(), LimitLine(), DoTestLine(port), BreakLine(), StepLine(), SleepLine(),
     UnlessLine(), NonEmptyLine(port), EchoLine(err), KillLine(), ExitLine(),
     PortLine(port), UrlLine(), ExecLine(inner)]
  }

  function ItemsOf(lines: seq<Line>): seq<seq<Item>> {
    seq(|lines|, i requires 0 <= i < |lines| => lines[i].items)
  }

  function TokensOf(lines: seq<Line>): seq<seq<Token>> {
    seq(|lines|, i requires 0 <= i < |lines| => lines[i].tokens)
  }

  function PathJoin(root: string, name: string): string {
    if root == "" then name else if root[|root| - 1] == '/' then root + name else root + "/" + name
  }

  /** The port file and the error file are two files right under the root. */
  lemma FilesLieUnderTheRoot(root: string)
    ensures var port, err := PathJoin(root, "bridge.port"), PathJoin(root, "bridge.err");
            && port != err
            && root <= port && root <= err
            && port[|root|..] == (if root == "" || root[|root| - 1] == '/' then "bridge.port" else "/bridge.port")
            && err[|root|..] == (if root == "" || root[|root| - 1] == '/' then "bridge.err" else "/bridge.err")
  {
    assert |"bridge.port"| == 11 && |"bridge.err"| == 10;
    assert "/" + "bridge.port" == "/bridge.port" && "/" + "bridge.err" == "/bridge.err";
    assert forall name: string :: root + "/" + name == root + ("/" + name);
  }

  /** The text of the script, from strings that are already quoted. */
  function Template(inner: string, ahBin: string, uds: string, port: string, err: string): seq<string> {
    ["rm -f " + port + "; ",
     ahBin + " internal-bridge --uds " + uds + " ",
     "--port-file " + port + " 2>" + err + " & ",
     "bridge_pid=$!; i=0; ",
     "while [ \"$i\" -lt ", "50 ]; ",
     "do test -s " + port + " ", "&& break; ",
     "i=$((i + 1)); ", "sleep 0.1; done; ",
     "if ! test ", "-s " + port + "; ",
     "then echo \"" + COMPLAINT_TEXT + "\" >>" + err + "; ",
     "kill \"$bridge_pid\" 2>/dev/null; ", "exit 126; fi; ",
     "port=$(cat " + port + "); ",
     URL_KEY + "\"" + URL_HOST + "$port\" ",
     "exec sh -lc " + inner]
  }

  function Cat(texts: seq<string>): string {
    if texts == [] then "" else texts[0] + Cat(texts[1..])
  }

  function BridgeWrapperShell(inner: string, ahBin: string, uds: string, root: string): string {
    Cat(Template(ShellQuote.ShellQuote(inner), ShellQuote.ShellQuote(ahBin), ShellQuote.ShellQuote(uds),
                 ShellQuote.ShellQuote(PathJoin(root, "bridge.port")),
                 ShellQuote.ShellQuote(PathJoin(root, "bridge.err"))))
  }

  // Its words.

  lemma NoAtoms(parts: seq<Part>)
    ensures AtomsOk([]) && WriteAtoms([]) == "" && AtomsMeant(parts, []) == parts
  {
  }

  lemma FirstAtom(a: Atom, rest: seq<Atom>, parts: seq<Part>)
    ensures AtomsOk([a] + rest) == (AtomOk(a) && AtomsOk(rest))
    ensures WriteAtoms([a] + rest) == WriteAtom(a) + WriteAtoms(rest)
    ensures AtomsMeant(parts, [a] + rest) == AtomsMeant(AtomMeant(parts, a), rest)
  {
    hide AtomOk, WriteAtom, AtomMeant;
    assert ([a] + rest)[1..] == rest;
  }

  /** A word of one atom. */
  lemma OneAtom(a: Atom, gap: bool)
    requires AtomOk(a) && StartsWord(WriteAtom(a))
    ensures Means(Item(Wd([a]), gap), Word(AtomMeant([], a)))
  {
    FirstAtom(a, [], []);
    NoAtoms(AtomMeant([], a));
    assert [a] + [] == [a];
    hide AtomOk, WriteAtom, AtomMeant, AtomsOk, WriteAtoms, AtomsMeant;
    assert WriteAtom(a) + "" == WriteAtom(a);
  }

  lemma PlainWord(text: string, gap: bool)
    requires PlainText(text) && StartsWord(text)
    ensures Means(Item(Wd([Plain(text)]), gap), B(text))
  {
    hide Means;
    OneAtom(Plain(text), gap);
    assert [] + [Bare(text)] == [Bare(text)];
  }

  lemma PathWord(path: string, gap: bool)
    ensures Means(Path(path, gap), L(path))
  {
    hide Means;
    OneAtom(Single(path), gap);
    assert [] + [Quoted(path)] == [Quoted(path)];
  }

  lemma OperatorItem(op: Oper, gap: bool)
    ensures Means(Operate(op, gap), Operator(OperText(op)))
  {
  }

  lemma TwoItem()
    ensures Means(TWO, IoNumber("2"))
  {
  }

  /** Two atoms in one word. */
  lemma TwoAtoms(text: string, a: Atom, gap: bool)
    requires PlainText(text) && StartsWord(text) && AtomOk(a)
    ensures Means(Item(Wd([Plain(text), a]), gap), Word(AtomMeant([Bare(text)], a)))
  {
    FirstAtom(Plain(text), [a], []);
    assert [] + [Bare(text)] == [Bare(text)];
    assert AtomMeant([], Plain(text)) == [Bare(text)];
    FirstAtom(a, [], [Bare(text)]);
    NoAtoms(AtomMeant([Bare(text)], a));
    assert [a] + [] == [a] && [Plain(text)] + [a] == [Plain(text), a];
    assert WriteAtom(Plain(text)) == text;
    hide AtomMeant, AtomsOk, WriteAtoms, AtomsMeant;
    assert WriteAtoms([Plain(text), a])[0] == text[0];
  }

  /** A word that is one pair of double quotes. */
  lemma DoubleWord(bits: seq<Bit>, gap: bool)
    requires BitsOk(bits)
    ensures Means(Item(Wd([Double(bits)]), gap), Word(BitsMeant([], bits)))
  {
    hide BitsOk, BitsMeant, WriteBits, Means;
    OneAtom(Double(bits), gap);
  }

  lemma OneVar(name: string, parts: seq<Part>)
    requires Name(name)
    ensures BitsOk([Var(name)]) && BitsMeant(parts, [Var(name)]) == parts + [Param(name, true)]
  {
    assert [Var(name)][1..] == [];
  }

  lemma VarWord(name: string)
    requires Name(name)
    ensures Means(Item(Wd([Double([Var(name)])]), true), Word([Param(name, true)]))
  {
    OneVar(name, []);
    assert [] + [Param(name, true)] == [Param(name, true)];
    DoubleWord([Var(name)], true);
  }

  lemma PidWord()
    ensures Means(Item(Wd([Plain("bridge_pid="), Special('!')]), false), Word([Bare("bridge_pid="), Param("!", false)]))
  {
    hide Means;
    TwoAtoms("bridge_pid=", Special('!'), false);
    assert [Bare("bridge_pid=")] + [Param("!", false)] == [Bare("bridge_pid="), Param("!", false)];
  }

  lemma StepWord()
    ensures Means(Item(Wd([Plain("i="), Math("i + 1")]), false), Word([Bare("i="), Arith("i + 1")]))
  {
    hide Means;
    TwoAtoms("i=", Math("i + 1"), false);
    assert [Bare("i=")] + [Arith("i + 1")] == [Bare("i="), Arith("i + 1")];
  }

  lemma CharsFirst(t: string, bits: seq<Bit>, parts: seq<Part>)
    requires DoubleText(t)
    ensures BitsOk([Chars(t)] + bits) == BitsOk(bits)
    ensures BitsMeant(parts, [Chars(t)] + bits) == BitsMeant(Add(parts, t, true), bits)
  {
    hide Add;
    assert ([Chars(t)] + bits)[1..] == bits;
  }

  lemma FourChars(a: string, b: string, c: string, d: string)
    requires DoubleText(a) && DoubleText(b) && DoubleText(c) && DoubleText(d) && a != ""
    ensures var bits := [Chars(a), Chars(b), Chars(c), Chars(d)];
            BitsOk(bits) && BitsMeant([], bits) == [Quoted(a + b + c + d)]
  {
    hide DoubleText;
    CharsFirst(a, [Chars(b), Chars(c), Chars(d)], []);
    CharsFirst(b, [Chars(c), Chars(d)], Add([], a, true));
    CharsFirst(c, [Chars(d)], Add([], a + b, true));
    CharsFirst(d, [], Add([], a + b + c, true));
    assert [Chars(a)] + [Chars(b), Chars(c), Chars(d)] == [Chars(a), Chars(b), Chars(c), Chars(d)];
    assert [Chars(b)] + [Chars(c), Chars(d)] == [Chars(b), Chars(c), Chars(d)];
    assert [Chars(c)] + [Chars(d)] == [Chars(c), Chars(d)] && [Chars(d)] + [] == [Chars(d)];
    hide BitsOk, BitsMeant;
    AddAdd([], a, b, true);
    AddAdd([], a + b, c, true);
    AddAdd([], a + b + c, d, true);
    NoBits(Add([], a + b + c + d, true));
    assert [] + [Quoted(a + b + c + d)] == [Quoted(a + b + c + d)];
  }

  lemma NoBits(parts: seq<Part>)
    ensures BitsOk([]) && BitsMeant(parts, []) == parts
  {
  }

  lemma ComplaintWord()
    ensures Means(Item(Wd([Double(COMPLAINT)]), true), Word([Quoted(COMPLAINT_TEXT)]))
  {
    hide Means, BitsOk, BitsMeant;
    FourChars("bridge process", " did not write", " port file", " within 5s");
    DoubleWord(COMPLAINT, true);
  }

  lemma PortWord(port: string)
    ensures Means(Item(Wd([Plain("port="), Sub([W("cat"), Path(port, false)])]), false),
                  Word([Bare("port="), Command([B("cat"), L(port)])]))
  {
    var items, tokens := [W("cat"), Path(port, false)], [B("cat"), L(port)];
    assert Says(items, tokens) by {
      PlainWord("cat", true);
      PathWord(port, false);
      hide Means, Literal;
      SaysByIndex(items, tokens);
    }
    hide Means, ItemsOk, ItemsMeant;
    TwoAtoms("port=", Sub(items), false);
    assert [Bare("port=")] + [Command(tokens)] == [Bare("port="), Command(tokens)];
  }

  lemma UrlWord(key: string, host: string, name: string)
    requires PlainText(key) && StartsWord(key) && DoubleText(host) && host != "" && Name(name)
    ensures Means(Url(key, host, name), Word([Bare(key), Quoted(host), Param(name, true)]))
  {
    var bits := [Chars(host), Var(name)];
    assert bits == [Chars(host)] + [Var(name)];
    CharsFirst(host, [Var(name)], [Bare(key)]);
    OneVar(name, Add([Bare(key)], host, true));
    hide Means, BitsOk, BitsMeant;
    TwoAtoms(key, Double(bits), true);
    assert Add([Bare(key)], host, true) == [Bare(key), Quoted(host)];
    assert [Bare(key), Quoted(host)] + [Param(name, true)] == [Bare(key), Quoted(host), Param(name, true)];
  }

  lemma RemoveSays(port: string)
    ensures Says(RemoveLine(port).items, RemoveLine(port).tokens) && EndsInGap(RemoveLine(port).items)
  {
    PlainWord("rm", true);
    PlainWord("-f", true);
    PathWord(port, false);
    OperatorItem(Semi, true);
    hide Means, Literal;
    SaysByIndex(RemoveLine(port).items, RemoveLine(port).tokens);
  }

  lemma StartSays(ahBin: string, uds: string)
    ensures Says(StartLine(ahBin, uds).items, StartLine(ahBin, uds).tokens) && EndsInGap(StartLine(ahBin, uds).items)
  {
    PathWord(ahBin, true);
    PlainWord("internal-bridge", true);
    PlainWord("--uds", true);
    PathWord(uds, true);
    hide Means, Literal;
    SaysByIndex(StartLine(ahBin, uds).items, StartLine(ahBin, uds).tokens);
  }

  lemma StartedSays(port: string, err: string)
    ensures Says(StartedLine(port, err).items, StartedLine(port, err).tokens) && EndsInGap(StartedLine(port, err).items)
  {
    PlainWord("--port-file", true);
    PathWord(port, true);
    TwoItem();
    OperatorItem(Great, false);
    PathWord(err, true);
    OperatorItem(Amp, true);
    hide Means, Literal;
    SaysByIndex(StartedLine(port, err).items, StartedLine(port, err).tokens);
  }

  lemma PidSays()
    ensures Says(PidLine().items, PidLine().tokens) && EndsInGap(PidLine().items)
  {
    PidWord();
    OperatorItem(Semi, true);
    PlainWord("i=0", false);
    hide Means, Literal;
    SaysByIndex(PidLine().items, PidLine().tokens);
  }

  lemma WhileSays()
    ensures Says(WhileLine().items, WhileLine().tokens) && EndsInGap(WhileLine().items)
  {
    PlainWord("while", true);
    PlainWord("[", true);
    VarWord("i");
    PlainWord("-lt", true);
    hide Means, Literal;
    SaysByIndex(WhileLine().items, WhileLine().tokens);
  }

  lemma LimitSays()
    ensures Says(LimitLine().items, LimitLine().tokens) && EndsInGap(LimitLine().items)
  {
    PlainWord("50", true);
    PlainWord("]", false);
    OperatorItem(Semi, true);
    hide Means, Literal;
    SaysByIndex(LimitLine().items, LimitLine().tokens);
  }

  lemma DoTestSays(port: string)
    ensures Says(DoTestLine(port).items, DoTestLine(port).tokens) && EndsInGap(DoTestLine(port).items)
  {
    PlainWord("do", true);
    PlainWord("test", true);
    PlainWord("-s", true);
    PathWord(port, true);
    hide Means, Literal;
    SaysByIndex(DoTestLine(port).items, DoTestLine(port).tokens);
  }

  lemma BreakSays()
    ensures Says(BreakLine().items, BreakLine().tokens) && EndsInGap(BreakLine().items)
  {
    OperatorItem(AndIf, true);
    PlainWord("break", false);
    OperatorItem(Semi, true);
    hide Means, Literal;
    SaysByIndex(BreakLine().items, BreakLine().tokens);
  }

  lemma StepSays()
    ensures Says(StepLine().items, StepLine().tokens) && EndsInGap(StepLine().items)
  {
    StepWord();
    OperatorItem(Semi, true);
    hide Means, Literal;
    SaysByIndex(StepLine().items, StepLine().tokens);
  }

  lemma SleepSays()
    ensures Says(SleepLine().items, SleepLine().tokens) && EndsInGap(SleepLine().items)
  {
    PlainWord("sleep", true);
    PlainWord("0.1", false);
    OperatorItem(Semi, true);
    PlainWord("done", false);
    hide Means, Literal;
    SaysByIndex(SleepLine().items, SleepLine().tokens);
  }

  lemma UnlessSays()
    ensures Says(UnlessLine().items, UnlessLine().tokens) && EndsInGap(UnlessLine().items)
  {
    PlainWord("if", true);
    PlainWord("!", true);
    PlainWord("test", true);
    hide Means;
    SaysByIndex(UnlessLine().items, UnlessLine().tokens);
  }

  lemma NonEmptySays(port: string)
    ensures Says(NonEmptyLine(port).items, NonEmptyLine(port).tokens) && EndsInGap(NonEmptyLine(port).items)
  {
    PlainWord("-s", true);
    PathWord(port, false);
    OperatorItem(Semi, true);
    hide Means, Literal;
    SaysByIndex(NonEmptyLine(port).items, NonEmptyLine(port).tokens);
  }

  lemma EchoSays(err: string)
    ensures Says(EchoLine(err).items, EchoLine(err).tokens) && EndsInGap(EchoLine(err).items)
  {
    PlainWord("then", true);
    PlainWord("echo", true);
    ComplaintWord();
    OperatorItem(DoubleGreat, false);
    PathWord(err, false);
    OperatorItem(Semi, true);
    hide Means, Literal;
    SaysByIndex(EchoLine(err).items, EchoLine(err).tokens);
  }

  lemma KillSays()
    ensures Says(KillLine().items, KillLine().tokens) && EndsInGap(KillLine().items)
  {
    PlainWord("kill", true);
    VarWord("bridge_pid");
    TwoItem();
    OperatorItem(Great, false);
    PlainWord("/dev/null", false);
    OperatorItem(Semi, true);
    hide Means, Literal;
    SaysByIndex(KillLine().items, KillLine().tokens);
  }

  lemma ExitSays()
    ensures Says(ExitLine().items, ExitLine().tokens) && EndsInGap(ExitLine().items)
  {
    PlainWord("exit", true);
    PlainWord("126", false);
    OperatorItem(Semi, true);
    PlainWord("fi", false);
    hide Means, Literal;
    SaysByIndex(ExitLine().items, ExitLine().tokens);
  }

  lemma PortSays(port: string)
    ensures Says(PortLine(port).items, PortLine(port).tokens) && EndsInGap(PortLine(port).items)
  {
    PortWord(port);
    OperatorItem(Semi, true);
    hide Means, Literal;
    SaysByIndex(PortLine(port).items, PortLine(port).tokens);
  }

  lemma UrlTexts()
    ensures PlainText(URL_KEY) && StartsWord(URL_KEY) && DoubleText(URL_HOST) && URL_HOST != "" && Name("port")
  {
  }

  lemma SingleSays(i: Item, t: Token)
    requires Means(i, t) && i.gap && !i.lexeme.Number?
    ensures Says([i], [t]) && EndsInGap([i])
  {
    hide Means;
    SaysByIndex([i], [t]);
  }

  lemma UrlSays()
    ensures Says(UrlLine().items, UrlLine().tokens) && EndsInGap(UrlLine().items)
  {
    UrlTexts();
    hide PlainText, StartsWord, DoubleText, Name, Means, Says, EndsInGap;
    UrlWord(URL_KEY, URL_HOST, "port");
    SingleSays(Url(URL_KEY, URL_HOST, "port"), Word([Bare(URL_KEY), Quoted(URL_HOST), Param("port", true)]));
  }

  lemma ExecSays(inner: string)
    ensures Says(ExecLine(inner).items, ExecLine(inner).tokens)
  {
    PlainWord("exec", true);
    PlainWord("sh", true);
    PlainWord("-lc", true);
    PathWord(inner, false);
    hide Means, Literal;
    SaysByIndex(ExecLine(inner).items, ExecLine(inner).tokens);
  }

  lemma AllLinesSay(inner: string, ahBin: string, uds: string, port: string, err: string)
    ensures var lines := BridgeLines(inner, ahBin, uds, port, err); AllSay(ItemsOf(lines), TokensOf(lines))
  {
    hide Says, EndsInGap, RemoveLine, StartLine, StartedLine, PidLine, WhileLine, LimitLine, DoTestLine, BreakLine,
         StepLine, SleepLine, UnlessLine, NonEmptyLine, EchoLine, KillLine, ExitLine, PortLine, UrlLine, ExecLine;
    RemoveSays(port);
    StartSays(ahBin, uds);
    StartedSays(port, err);
    PidSays();
    WhileSays();
    LimitSays();
    DoTestSays(port);
    BreakSays();
    StepSays();
    SleepSays();
    UnlessSays();
    NonEmptySays(port);
    EchoSays(err);
    KillSays();
    ExitSays();
    PortSays(port);
    UrlSays();
    ExecSays(inner);
  }

  // Its text.

  /** An item and the blank behind it. */
  function Written(i: Item): string {
    WriteItem(i) + if i.gap then " " else ""
  }

  lemma WrittenOne(i: Item)
    ensures WriteItems([i]) == Written(i)
  {
    OneMoreItem([i]);
    NothingWritten();
    assert [i][1..] == [];
    hide WriteItem, WriteItems;
    assert WriteItem(i) + ((if i.gap then " " else "") + "") == Written(i);
  }

  lemma WrittenMore(i: Item, items: seq<Item>)
    ensures WriteItems([i] + items) == Written(i) + WriteItems(items)
  {
    OneMoreItem([i] + items);
    assert ([i] + items)[1..] == items;
    hide WriteItem, WriteItems;
    var g := if i.gap then " " else "";
    assert WriteItem(i) + (g + WriteItems(items)) == WriteItem(i) + g + WriteItems(items);
  }

  lemma WrittenTwo(a: Item, b: Item)
    ensures WriteItems([a, b]) == Written(a) + Written(b)
  {
    assert [a, b] == [a] + [b];
    hide WriteItems, Written;
    WrittenMore(a, [b]);
    WrittenOne(b);
  }

  lemma WrittenThree(a: Item, b: Item, c: Item)
    ensures WriteItems([a, b, c]) == Written(a) + Written(b) + Written(c)
  {
    assert [a, b, c] == [a] + [b, c];
    hide WriteItems, Written;
    WrittenMore(a, [b, c]);
    WrittenTwo(b, c);
    Reassociate(Written(a), Written(b), Written(c));
  }

  lemma Reassociate(a: string, b: string, c: string)
    ensures a + (b + c) == a + b + c
  {
  }

  lemma WrittenFour(a: Item, b: Item, c: Item, d: Item)
    ensures WriteItems([a, b, c, d]) == Written(a) + Written(b) + Written(c) + Written(d)
  {
    assert [a, b, c, d] == [a] + [b, c, d];
    hide WriteItems, Written;
    WrittenMore(a, [b, c, d]);
    WrittenThree(b, c, d);
    Reassociate(Written(a), Written(b) + Written(c), Written(d));
    Reassociate(Written(a), Written(b), Written(c));
  }

  lemma WrittenFive(a: Item, b: Item, c: Item, d: Item, e: Item)
    ensures WriteItems([a, b, c, d, e]) == Written(a) + (Written(b) + Written(c) + Written(d) + Written(e))
  {
    assert [a, b, c, d, e] == [a] + [b, c, d, e];
    hide WriteItems, Written;
    WrittenMore(a, [b, c, d, e]);
    WrittenFour(b, c, d, e);
  }

  lemma WrittenSix(a: Item, b: Item, c: Item, d: Item, e: Item, f: Item)
    ensures WriteItems([a, b, c, d, e, f]) ==
            Written(a) + Written(b) + (Written(c) + Written(d) + Written(e) + Written(f))
  {
    assert [a, b, c, d, e, f] == [a] + [b, c, d, e, f];
    hide WriteItems, Written;
    WrittenMore(a, [b, c, d, e, f]);
    WrittenFive(b, c, d, e, f);
    Reassociate(Written(a), Written(b), Written(c) + Written(d) + Written(e) + Written(f));
  }

  lemma AtomWritten(a: Atom, gap: bool)
    ensures Written(Item(Wd([a]), gap)) == WriteAtom(a) + if gap then " " else ""
  {
    FirstAtom(a, [], []);
    NoAtoms([]);
    assert [a] + [] == [a];
    hide WriteAtom;
    assert WriteAtom(a) + "" == WriteAtom(a);
  }

  lemma TwoAtomsWritten(text: string, a: Atom, gap: bool)
    ensures Written(Item(Wd([Plain(text), a]), gap)) == text + WriteAtom(a) + if gap then " " else ""
  {
    FirstAtom(Plain(text), [a], []);
    FirstAtom(a, [], []);
    NoAtoms([]);
    assert [a] + [] == [a] && [Plain(text)] + [a] == [Plain(text), a];
    assert WriteAtom(Plain(text)) == text;
    hide WriteAtom, WriteAtoms;
    assert WriteAtom(a) + "" == WriteAtom(a);
  }

  /** A plain word, a path and an operator, with and without their blank. */
  lemma PlainWritten(text: string)
    ensures Written(W(text)) == text + " " && Written(End(text)) == text
  {
    AtomWritten(Plain(text), true);
    AtomWritten(Plain(text), false);
    assert text + "" == text;
  }

  lemma PathWritten(path: string)
    ensures Written(Path(path, true)) == ShellQuote.ShellQuote(path) + " "
    ensures Written(Path(path, false)) == ShellQuote.ShellQuote(path)
  {
    AtomWritten(Single(path), true);
    AtomWritten(Single(path), false);
    hide ShellQuote.ShellQuote;
    assert ShellQuote.ShellQuote(path) + "" == ShellQuote.ShellQuote(path);
  }

  lemma OperatorWritten(op: Oper)
    ensures Written(Operate(op, true)) == OperText(op) + " " && Written(Operate(op, false)) == OperText(op)
  {
    assert OperText(op) + "" == OperText(op);
  }

  lemma TwoWritten()
    ensures Written(TWO) == "2"
  {
    assert "2" + "" == "2";
  }

  lemma VarWritten(name: string)
    ensures Written(Item(Wd([Double([Var(name)])]), true)) == "\"$" + name + "\" "
  {
    AtomWritten(Double([Var(name)]), true);
    assert [Var(name)][1..] == [];
    assert WriteBits([Var(name)]) == "$" + name;
    assert WriteAtom(Double([Var(name)])) == "\"" + ("$" + name + "\"");
    hide Written, WriteAtom;
    assert "\"" + ("$" + name + "\"") + " " == "\"$" + name + "\" ";
  }

  lemma RemoveText(port: string)
    ensures WriteItems(RemoveLine(port).items) == "rm -f " + ShellQuote.ShellQuote(port) + "; "
  {
    WrittenFour(W("rm"), W("-f"), Path(port, false), Operate(Semi, true));
    PlainWritten("rm");
    PlainWritten("-f");
    PathWritten(port);
    OperatorWritten(Semi);
    hide WriteItems, Written, ShellQuote.ShellQuote;
    assert "rm" + " " + ("-f" + " ") == "rm -f ";
  }

  lemma StartText(ahBin: string, uds: string)
    ensures WriteItems(StartLine(ahBin, uds).items) ==
            ShellQuote.ShellQuote(ahBin) + " internal-bridge --uds " + ShellQuote.ShellQuote(uds) + " "
  {
    WrittenFour(Path(ahBin, true), W("internal-bridge"), W("--uds"), Path(uds, true));
    PathWritten(ahBin);
    PlainWritten("internal-bridge");
    PlainWritten("--uds");
    PathWritten(uds);
    hide WriteItems, Written, ShellQuote.ShellQuote;
    assert " " + ("internal-bridge" + " " + ("--uds" + " ")) == " internal-bridge --uds ";
  }

  lemma StartedText(port: string, err: string)
    ensures WriteItems(StartedLine(port, err).items) ==
            "--port-file " + ShellQuote.ShellQuote(port) + " 2>" + ShellQuote.ShellQuote(err) + " & "
  {
    WrittenSix(W("--port-file"), Path(port, true), TWO, Operate(Great, false), Path(err, true), Operate(Amp, true));
    PlainWritten("--port-file");
    PathWritten(port);
    TwoWritten();
    OperatorWritten(Great);
    PathWritten(err);
    OperatorWritten(Amp);
    hide WriteItems, Written, ShellQuote.ShellQuote;
    assert "--port-file" + " " == "--port-file ";
    assert " " + ("2" + ">") == " 2>";
    assert " " + ("&" + " ") == " & ";
  }

  lemma PidText()
    ensures WriteItems(PidLine().items) == "bridge_pid=$!; i=0; "
  {
    var pid := Item(Wd([Plain("bridge_pid="), Special('!')]), false);
    WrittenFour(pid, Operate(Semi, true), End("i=0"), Operate(Semi, true));
    TwoAtomsWritten("bridge_pid=", Special('!'), false);
    OperatorWritten(Semi);
    PlainWritten("i=0");
    hide WriteItems, Written, ShellQuote.ShellQuote;
  }

  lemma WhileText()
    ensures WriteItems(WhileLine().items) == "while [ \"$i\" -lt "
  {
    WrittenFour(W("while"), W("["), Item(Wd([Double([Var("i")])]), true), W("-lt"));
    PlainWritten("while");
    PlainWritten("[");
    VarWritten("i");
    PlainWritten("-lt");
    hide WriteItems, Written, ShellQuote.ShellQuote;
  }

  lemma LimitText()
    ensures WriteItems(LimitLine().items) == "50 ]; "
  {
    WrittenThree(W("50"), End("]"), Operate(Semi, true));
    PlainWritten("50");
    PlainWritten("]");
    OperatorWritten(Semi);
    hide WriteItems, Written, ShellQuote.ShellQuote;
  }

  lemma DoTestText(port: string)
    ensures WriteItems(DoTestLine(port).items) == "do test -s " + ShellQuote.ShellQuote(port) + " "
  {
    WrittenFour(W("do"), W("test"), W("-s"), Path(port, true));
    PlainWritten("do");
    PlainWritten("test");
    PlainWritten("-s");
    PathWritten(port);
    hide WriteItems, Written, ShellQuote.ShellQuote;
    assert "do" + " " + ("test" + " ") + ("-s" + " ") == "do test -s ";
  }

  lemma BreakText()
    ensures WriteItems(BreakLine().items) == "&& break; "
  {
    WrittenThree(Operate(AndIf, true), End("break"), Operate(Semi, true));
    OperatorWritten(AndIf);
    PlainWritten("break");
    OperatorWritten(Semi);
    hide WriteItems, Written, ShellQuote.ShellQuote;
  }

  lemma StepText()
    ensures WriteItems(StepLine().items) == "i=$((i + 1)); "
  {
    WrittenTwo(Item(Wd([Plain("i="), Math("i + 1")]), false), Operate(Semi, true));
    TwoAtomsWritten("i=", Math("i + 1"), false);
    OperatorWritten(Semi);
    hide WriteItems, Written, ShellQuote.ShellQuote;
  }

  lemma SleepText()
    ensures WriteItems(SleepLine().items) == "sleep 0.1; done; "
  {
    WrittenFive(W("sleep"), End("0.1"), Operate(Semi, true), End("done"), Operate(Semi, true));
    PlainWritten("sleep");
    PlainWritten("0.1");
    OperatorWritten(Semi);
    PlainWritten("done");
    hide WriteItems, Written, ShellQuote.ShellQuote;
  }

  lemma UnlessText()
    ensures WriteItems(UnlessLine().items) == "if ! test "
  {
    WrittenThree(W("if"), W("!"), W("test"));
    PlainWritten("if");
    PlainWritten("!");
    PlainWritten("test");
    hide WriteItems, Written, ShellQuote.ShellQuote;
  }

  lemma NonEmptyText(port: string)
    ensures WriteItems(NonEmptyLine(port).items) == "-s " + ShellQuote.ShellQuote(port) + "; "
  {
    WrittenThree(W("-s"), Path(port, false), Operate(Semi, true));
    PlainWritten("-s");
    PathWritten(port);
    OperatorWritten(Semi);
    hide WriteItems, Written, ShellQuote.ShellQuote;
  }

  lemma ExitText()
    ensures WriteItems(ExitLine().items) == "exit 126; fi; "
  {
    WrittenFive(W("exit"), End("126"), Operate(Semi, true), End("fi"), Operate(Semi, true));
    PlainWritten("exit");
    PlainWritten("126");
    OperatorWritten(Semi);
    PlainWritten("fi");
    hide WriteItems, Written, ShellQuote.ShellQuote;
  }

  lemma ExecText(inner: string)
    ensures WriteItems(ExecLine(inner).items) == "exec sh -lc " + ShellQuote.ShellQuote(inner)
  {
    WrittenFour(W("exec"), W("sh"), W("-lc"), Path(inner, false));
    PlainWritten("exec");
    PlainWritten("sh");
    PlainWritten("-lc");
    PathWritten(inner);
    hide WriteItems, Written, ShellQuote.ShellQuote;
    assert "exec" + " " + ("sh" + " ") + ("-lc" + " ") == "exec sh -lc ";
  }

  lemma KillText()
    ensures WriteItems(KillLine().items) == "kill \"$bridge_pid\" 2>/dev/null; "
  {
    var pid := Item(Wd([Double([Var("bridge_pid")])]), true);
    WrittenSix(W("kill"), pid, TWO, Operate(Great, false), End("/dev/null"), Operate(Semi, true));
    PlainWritten("kill");
    VarWritten("bridge_pid");
    TwoWritten();
    OperatorWritten(Great);
    PlainWritten("/dev/null");
    OperatorWritten(Semi);
    hide WriteItems, Written, ShellQuote.ShellQuote;
  }

  lemma FourBits(a: string, b: string, c: string, d: string)
    ensures WriteBits([Chars(a), Chars(b), Chars(c), Chars(d)]) == a + b + c + d
  {
    assert [Chars(a), Chars(b), Chars(c), Chars(d)][1..] == [Chars(b), Chars(c), Chars(d)];
    assert [Chars(b), Chars(c), Chars(d)][1..] == [Chars(c), Chars(d)];
    assert [Chars(c), Chars(d)][1..] == [Chars(d)] && [Chars(d)][1..] == [];
    assert WriteBits([Chars(d)]) == d;
    assert WriteBits([Chars(c), Chars(d)]) == c + d;
    assert WriteBits([Chars(b), Chars(c), Chars(d)]) == b + (c + d);
    Reassociate(a, b, c + d);
    Reassociate(a + b, c, d);
  }

  lemma EchoGlue(x: string, q: string)
    ensures "then" + " " + ("echo" + " ") + ("\"" + (x + "\"") + " " + ">>" + q + (";" + " ")) ==
            "then echo \"" + x + "\" >>" + q + "; "
  {
    assert "then" + " " + ("echo" + " ") == "then echo ";
    assert "\"" + (x + "\"") + " " + ">>" + q + (";" + " ") == "\"" + x + "\" >>" + q + "; ";
  }

  lemma EchoText(err: string)
    ensures WriteItems(EchoLine(err).items) ==
            "then echo \"" + COMPLAINT_TEXT + "\" >>" + ShellQuote.ShellQuote(err) + "; "
  {
    var quoted := Item(Wd([Double(COMPLAINT)]), true);
    WrittenSix(W("then"), W("echo"), quoted, Operate(DoubleGreat, false), Path(err, false), Operate(Semi, true));
    FourBits("bridge process", " did not write", " port file", " within 5s");
    assert WriteAtom(Double(COMPLAINT)) == "\"" + (COMPLAINT_TEXT + "\"");
    AtomWritten(Double(COMPLAINT), true);
    PlainWritten("then");
    PlainWritten("echo");
    OperatorWritten(DoubleGreat);
    PathWritten(err);
    OperatorWritten(Semi);
    hide WriteItems, Written, WriteAtom, ShellQuote.ShellQuote;
    EchoGlue(COMPLAINT_TEXT, ShellQuote.ShellQuote(err));
  }

  lemma PortGlue(q: string)
    ensures "port=" + ("$(" + ("cat" + " " + q + ")")) + "" + (";" + " ") == "port=$(cat " + q + "); "
  {
    assert "port=" + ("$(" + ("cat" + " ")) == "port=$(cat ";
    assert ")" + "" + (";" + " ") == "); ";
  }

  lemma PortText(port: string)
    ensures WriteItems(PortLine(port).items) == "port=$(cat " + ShellQuote.ShellQuote(port) + "); "
  {
    var inside := Sub([W("cat"), Path(port, false)]);
    WrittenTwo(Item(Wd([Plain("port="), inside]), false), Operate(Semi, true));
    TwoAtomsWritten("port=", inside, false);
    WrittenTwo(W("cat"), Path(port, false));
    PlainWritten("cat");
    PathWritten(port);
    OperatorWritten(Semi);
    assert WriteAtom(inside) == "$(" + (WriteItems([W("cat"), Path(port, false)]) + ")");
    hide WriteItems, Written, WriteAtom, ShellQuote.ShellQuote;
    PortGlue(ShellQuote.ShellQuote(port));
  }

  lemma UrlWritten(key: string, host: string, name: string)
    ensures Written(Url(key, host, name)) == key + "\"" + host + ("$" + name + "\" ")
  {
    var bits := [Chars(host), Var(name)];
    assert bits[1..] == [Var(name)] && [Var(name)][1..] == [];
    assert WriteBits([Var(name)]) == "$" + name;
    assert WriteBits(bits) == host + ("$" + name);
    assert WriteAtom(Double(bits)) == "\"" + (host + ("$" + name) + "\"");
    TwoAtomsWritten(key, Double(bits), true);
    hide Written, WriteAtom, WriteBits;
    UrlGlue(key, host, "$" + name);
  }

  lemma UrlGlue(k: string, h: string, d: string)
    ensures k + ("\"" + (h + d + "\"")) + " " == k + "\"" + h + (d + "\" ")
  {
    Reassociate(k, "\"", h + d + "\"");
    assert h + d + "\"" + " " == h + (d + "\" ");
    Reassociate(k + "\"", h, d + "\" ");
    assert k + "\"" + (h + d + "\"") + " " == k + "\"" + (h + d + "\"" + " ");
  }

  lemma UrlText()
    ensures WriteItems(UrlLine().items) == URL_KEY + "\"" + URL_HOST + "$port\" "
  {
    WrittenOne(Url(URL_KEY, URL_HOST, "port"));
    hide WriteItems, Written;
    UrlWritten(URL_KEY, URL_HOST, "port");
    assert "$" + "port" + "\" " == "$port\" ";
  }

  /** The commands, written one after the other, are the text of the template. */
  lemma AllWritten(inner: string, ahBin: string, uds: string, port: string, err: string)
    ensures WriteLines(ItemsOf(BridgeLines(inner, ahBin, uds, port, err))) ==
            Cat(Template(ShellQuote.ShellQuote(inner), ShellQuote.ShellQuote(ahBin), ShellQuote.ShellQuote(uds),
                         ShellQuote.ShellQuote(port), ShellQuote.ShellQuote(err)))
  {
    hide WriteItems, WriteLines, Cat, ShellQuote.ShellQuote,
         RemoveLine, StartLine, StartedLine, PidLine, WhileLine, LimitLine, DoTestLine, BreakLine, StepLine, SleepLine,
         UnlessLine, NonEmptyLine, EchoLine, KillLine, ExitLine, PortLine, UrlLine, ExecLine;
    RemoveText(port);
    StartText(ahBin, uds);
    StartedText(port, err);
    PidText();
    WhileText();
    LimitText();
    DoTestText(port);
    BreakText();
    StepText();
    SleepText();
    UnlessText();
    NonEmptyText(port);
    EchoText(err);
    KillText();
    ExitText();
    PortText(port);
    UrlText();
    ExecText(inner);
    LinesWritten(ItemsOf(BridgeLines(inner, ahBin, uds, port, err)),
                 Template(ShellQuote.ShellQuote(inner), ShellQuote.ShellQuote(ahBin), ShellQuote.ShellQuote(uds),
                          ShellQuote.ShellQuote(port), ShellQuote.ShellQuote(err)));
  }

  lemma {:induction false} LinesWritten(lines: seq<seq<Item>>, texts: seq<string>)
    requires |lines| == |texts| && forall i :: 0 <= i < |lines| ==> WriteItems(lines[i]) == texts[i]
    ensures WriteLines(lines) == Cat(texts)
  {
    hide WriteItems;
    if lines != [] {
      LinesWritten(lines[1..], texts[1..]);
    }
  }

  /** For every command, binary, socket and sandbox directory, a shell reads the wrapper script as the tokens of
      the template, each of them one word in its place, quoted and equal to the string it was written from. */
  lemma BridgeScriptIsRead(inner: string, ahBin: string, uds: string, root: string)
    ensures var lines := BridgeLines(inner, ahBin, uds, PathJoin(root, "bridge.port"), PathJoin(root, "bridge.err"));
            ReadTokens(BridgeWrapperShell(inner, ahBin, uds, root), false) == Some((Flat(TokensOf(lines)), ""))
  {
    var port, err := PathJoin(root, "bridge.port"), PathJoin(root, "bridge.err");
    var lines := BridgeLines(inner, ahBin, uds, port, err);
    hide ReadTokens, WriteLines, Says, Flat, PathJoin, Cat, Template, ItemsOf, TokensOf, BridgeLines, AllSay;
    AllLinesSay(inner, ahBin, uds, port, err);
    AllWritten(inner, ahBin, uds, port, err);
    LinesAreRead(ItemsOf(lines), TokensOf(lines));
  }
}
