/** The incremental reader of provider logs (src/completion/reader.rs). Files are byte sequences; parsing one
    line, and finding the tasks that a line starts and finishes, are parameters. */
module LogTail {
  import opened Common

  type Path = string
  type Bytes = seq<Byte>

  const NEWLINE: Byte := 10

  datatype LogParseResult =
    | TurnComplete(turnId: Option<string>, reply: Option<string>)
    | UserMessage(turnId: Option<string>)
    | NotTerminal
    | UnknownDegrade(reason: string)

  datatype Provider = Codex | Claude | Antigravity | OtherProvider

  /** A provider with its line oracles. */
  datatype Reader = Reader(
    provider: Provider,
    parse: Bytes -> LogParseResult,
    started: Bytes -> set<string>,
    finished: Bytes -> set<string>)
  {
    predicate RequiresUserEntry() {
      provider.Claude? || provider.Antigravity?
    }
  }

  datatype LogCompletion = LogCompletion(parsed: LogParseResult, rawPath: Path, rawOffset: nat)

  datatype LogReadState = LogReadState(cursors: map<Path, nat>, userEntrySeenPaths: set<Path>)

  // Lines.

  /** The first newline at or after `from`, the file end if there is none. */
  function LineEnd(bytes: Bytes, from: nat): (e: nat)
    requires from <= |bytes|
    ensures from <= e <= |bytes|
    ensures forall i :: from <= i < e ==> bytes[i] != NEWLINE
    ensures e < |bytes| ==> bytes[e] == NEWLINE
    decreases |bytes| - from
  {
    if from == |bytes| || bytes[from] == NEWLINE then from else LineEnd(bytes, from + 1)
  }

  function NextLine(bytes: Bytes, lineEnd: nat): nat {
    if lineEnd < |bytes| then lineEnd + 1 else lineEnd
  }

  /** `parse_start_offset`: a cursor inside a line skips to the next one. */
  function ParseStart(bytes: Bytes, consumed: nat): (start: nat)
    ensures start <= |bytes|
  {
    var start := if consumed < |bytes| then consumed else |bytes|;
    if 0 < start < |bytes| && bytes[start - 1] != NEWLINE then NextLine(bytes, LineEnd(bytes, start)) else start
  }

  datatype Span = Span(start: nat, end: nat)

  /** The non-empty lines from `start` on. */
  function Spans(bytes: Bytes, start: nat): (r: seq<Span>)
    requires start <= |bytes|
    ensures forall i :: 0 <= i < |r| ==> start <= r[i].start < r[i].end <= |bytes|
    decreases |bytes| - start
  {
    if start == |bytes| then [] else
      var e := LineEnd(bytes, start);
      if e == start then Spans(bytes, start + 1)
      else [Span(start, e)] + Spans(bytes, NextLine(bytes, e))
  }

  lemma SpansUnfold(bytes: Bytes, start: nat)
    requires start < |bytes|
    ensures var e := LineEnd(bytes, start);
            var next := NextLine(bytes, e);
            && start < next <= |bytes|
            && Spans(bytes, start) == (if e == start then [] else [Span(start, e)]) + Spans(bytes, next)
  {
    hide LineEnd;
    var e := LineEnd(bytes, start);
    if e == start {
      assert [] + Spans(bytes, start + 1) == Spans(bytes, start + 1);
    }
  }

  // Background tasks.

  function Gather(tasks: Bytes -> set<string>, bytes: Bytes, spans: seq<Span>): set<string>
    requires forall i :: 0 <= i < |spans| ==> spans[i].start <= spans[i].end <= |bytes|
  {
    if spans == [] then {} else tasks(bytes[spans[0].start..spans[0].end]) + Gather(tasks, bytes, spans[1..])
  }

  function Started(rd: Reader, bytes: Bytes): set<string> {
    Gather(rd.started, bytes, Spans(bytes, 0))
  }

  function Finished(rd: Reader, bytes: Bytes): set<string> {
    Gather(rd.finished, bytes, Spans(bytes, 0))
  }

  predicate Pending(rd: Reader, bytes: Bytes) {
    Started(rd, bytes) - Finished(rd, bytes) != {}
  }

  // One line, one file, one poll.

  datatype Act = UserEntry | Emitted(parsed: LogParseResult) | Deferred | Skipped

  function Judge(rd: Reader, bytes: Bytes, sp: Span, seen: bool): Act
    requires sp.start <= sp.end <= |bytes|
  {
    var parsed := rd.parse(bytes[sp.start..sp.end]);
    if parsed.UserMessage? && rd.RequiresUserEntry() then UserEntry
    else if parsed.TurnComplete? && (!rd.RequiresUserEntry() || seen) then
      if rd.provider.Antigravity? && Pending(rd, bytes[..sp.end]) then Deferred else Emitted(parsed)
    else Skipped
  }

  function SeenAfter(rd: Reader, act: Act, seen: bool): bool {
    match act
    case UserEntry => true
    case Emitted(_) => seen && !rd.RequiresUserEntry()
    case _ => seen
  }

  predicate Within(spans: seq<Span>, n: nat) {
    forall i :: 0 <= i < |spans| ==> spans[i].start < spans[i].end <= n
  }

  function Acts(rd: Reader, bytes: Bytes, spans: seq<Span>, seen: bool): (r: seq<Act>)
    requires Within(spans, |bytes|)
    ensures |r| == |spans|
  {
    if spans == [] then [] else
      var act := Judge(rd, bytes, spans[0], seen);
      [act] + Acts(rd, bytes, spans[1..], SeenAfter(rd, act, seen))
  }

  function SeenAtEnd(rd: Reader, bytes: Bytes, spans: seq<Span>, seen: bool): bool
    requires Within(spans, |bytes|)
  {
    if spans == [] then seen else
      SeenAtEnd(rd, bytes, spans[1..], SeenAfter(rd, Judge(rd, bytes, spans[0], seen), seen))
  }

  function CompletionOf(path: Path, bytes: Bytes, sp: Span, act: Act): seq<LogCompletion> {
    if act.Emitted? then [LogCompletion(act.parsed, path, NextLine(bytes, sp.end))] else []
  }

  function Completions(path: Path, bytes: Bytes, spans: seq<Span>, acts: seq<Act>): seq<LogCompletion>
    requires |acts| == |spans|
  {
    if spans == [] then [] else
      CompletionOf(path, bytes, spans[0], acts[0]) + Completions(path, bytes, spans[1..], acts[1..])
  }

  /** What one poll parses in a file, given the cursor and the entry flag of its path. */
  function PollSpans(bytes: Bytes, cursor: nat): (r: seq<Span>)
    ensures Within(r, |bytes|)
  {
    Spans(bytes, ParseStart(bytes, cursor))
  }

  function EntrySeen(rd: Reader, bytes: Bytes, cursor: nat, seen: bool): bool {
    rd.RequiresUserEntry() && seen && cursor <= |bytes|
  }

  function PollActs(rd: Reader, bytes: Bytes, cursor: nat, seen: bool): (r: seq<Act>)
    ensures |r| == |PollSpans(bytes, cursor)|
  {
    Acts(rd, bytes, PollSpans(bytes, cursor), EntrySeen(rd, bytes, cursor, seen))
  }

  function PollSeen(rd: Reader, bytes: Bytes, cursor: nat, seen: bool): bool {
    if rd.RequiresUserEntry()
    then SeenAtEnd(rd, bytes, PollSpans(bytes, cursor), EntrySeen(rd, bytes, cursor, seen))
    else seen
  }

  function PollCompletions(rd: Reader, path: Path, bytes: Bytes, cursor: nat, seen: bool): seq<LogCompletion> {
    Completions(path, bytes, PollSpans(bytes, cursor), PollActs(rd, bytes, cursor, seen))
  }

  /** The completions of successive polls of one path. */
  function Tail(rd: Reader, path: Path, contents: seq<Bytes>, cursor: nat, seen: bool): seq<LogCompletion> {
    if contents == [] then [] else
      var bytes := contents[0];
      PollCompletions(rd, path, bytes, cursor, seen)
      + Tail(rd, path, contents[1..], |bytes|, PollSeen(rd, bytes, cursor, seen))
  }

  /** The entry flag of the path after successive polls. */
  function TailSeen(rd: Reader, contents: seq<Bytes>, cursor: nat, seen: bool): bool {
    if contents == [] then seen
    else TailSeen(rd, contents[1..], |contents[0]|, PollSeen(rd, contents[0], cursor, seen))
  }

  // Cuts.

  /** A file end at `k` that is a line end of the later contents `bytes`. */
  predicate AtLineEnd(bytes: Bytes, k: nat)
    requires k <= |bytes|
  {
    k == 0 || k == |bytes| || bytes[k - 1] == NEWLINE || bytes[k] == NEWLINE
  }

  /** A cut that loses nothing: at a line end, or before the first line that the cursor admits. */
  predicate CleanCut(bytes: Bytes, cursor: nat, k: nat)
    requires k <= |bytes|
  {
    AtLineEnd(bytes, k) || k < ParseStart(bytes, cursor)
  }

  lemma LineEndOfPrefix(bytes: Bytes, from: nat, k: nat)
    requires from <= k <= |bytes|
    ensures LineEnd(bytes[..k], from) == if LineEnd(bytes, from) < k then LineEnd(bytes, from) else k
  {
    var e, f := LineEnd(bytes, from), LineEnd(bytes[..k], from);
    if e < k {
      assert f <= e;
    }
  }

  /** Cutting at a line end splits the lines after any start. */
  lemma {:induction false} SpansSplit(bytes: Bytes, start: nat, k: nat)
    requires start <= k <= |bytes| && AtLineEnd(bytes, k)
    ensures Spans(bytes, start) == Spans(bytes[..k], start) + Spans(bytes, ParseStart(bytes, k))
    decreases k - start
  {
    hide LineEnd, Spans, ParseStart, AtLineEnd;
    if start == k {
      NoLine(bytes, k);
    } else {
      var e := LineEnd(bytes, start);
      LineEndOfPrefix(bytes, start, k);
      SpansUnfold(bytes, start);
      SpansUnfold(bytes[..k], start);
      if e < k {
        SpansSplit(bytes, e + 1, k);
        var first := if e == start then [] else [Span(start, e)];
        Reassociate(first, Spans(bytes[..k], e + 1), Spans(bytes, ParseStart(bytes, k)));
      } else {
        LastLine(bytes, start, k);
      }
    }
  }

  lemma NoLine(bytes: Bytes, k: nat)
    requires k <= |bytes| && AtLineEnd(bytes, k)
    ensures Spans(bytes, k) == Spans(bytes[..k], k) + Spans(bytes, ParseStart(bytes, k))
  {
    assert Spans(bytes[..k], k) == [];
    assert ParseStart(bytes, k) != k ==> LineEnd(bytes, k) == k;
  }

  lemma Reassociate<T>(a: seq<T>, b: seq<T>, c: seq<T>)
    ensures a + b + c == a + (b + c)
  {
  }

  lemma LastLine(bytes: Bytes, start: nat, k: nat)
    requires start < k <= |bytes| && k <= LineEnd(bytes, start) && AtLineEnd(bytes, k)
    ensures LineEnd(bytes, start) == k && NextLine(bytes, k) == ParseStart(bytes, k)
    ensures Spans(bytes[..k], k) == []
  {
    assert bytes[k - 1] != NEWLINE;
    assert k < |bytes| ==> LineEnd(bytes, k) == k;
  }

  /** A poll up to a clean cut and a poll from it on parse what one poll would. */
  lemma PollSplit(bytes: Bytes, cursor: nat, k: nat)
    requires cursor <= k <= |bytes| && CleanCut(bytes, cursor, k)
    ensures PollSpans(bytes, cursor) == PollSpans(bytes[..k], cursor) + PollSpans(bytes, k)
  {
    var s, t := ParseStart(bytes, cursor), ParseStart(bytes[..k], cursor);
    if 0 < cursor < k && bytes[cursor - 1] != NEWLINE {
      LineEndOfPrefix(bytes, cursor, k);
    }
    if s <= k {
      assert t == s;
      SpansSplit(bytes, s, k);
    } else {
      assert t == k && Spans(bytes[..k], k) == [];
      assert ParseStart(bytes, k) == s;
    }
  }

  // The same lines, seen in a shorter and in a longer file.

  lemma JudgePrefix(rd: Reader, bytes: Bytes, k: nat, sp: Span, seen: bool)
    requires sp.start <= sp.end <= k <= |bytes|
    ensures Judge(rd, bytes[..k], sp, seen) == Judge(rd, bytes, sp, seen)
  {
    assert bytes[..k][sp.start..sp.end] == bytes[sp.start..sp.end];
    assert bytes[..k][..sp.end] == bytes[..sp.end];
  }

  lemma {:induction false} ActsPrefix(rd: Reader, bytes: Bytes, k: nat, spans: seq<Span>, seen: bool)
    requires k <= |bytes| && Within(spans, k)
    ensures Acts(rd, bytes[..k], spans, seen) == Acts(rd, bytes, spans, seen)
    ensures SeenAtEnd(rd, bytes[..k], spans, seen) == SeenAtEnd(rd, bytes, spans, seen)
  {
    if spans != [] {
      JudgePrefix(rd, bytes, k, spans[0], seen);
      ActsPrefix(rd, bytes, k, spans[1..], SeenAfter(rd, Judge(rd, bytes, spans[0], seen), seen));
    }
  }

  lemma {:induction false} ActsAppend(rd: Reader, bytes: Bytes, a: seq<Span>, b: seq<Span>, seen: bool)
    requires Within(a, |bytes|) && Within(b, |bytes|)
    ensures Acts(rd, bytes, a + b, seen) == Acts(rd, bytes, a, seen) + Acts(rd, bytes, b, SeenAtEnd(rd, bytes, a, seen))
    ensures SeenAtEnd(rd, bytes, a + b, seen) == SeenAtEnd(rd, bytes, b, SeenAtEnd(rd, bytes, a, seen))
  {
    hide Judge, SeenAfter;
    if a == [] {
      assert a + b == b;
    } else {
      var act := Judge(rd, bytes, a[0], seen);
      var after := SeenAfter(rd, act, seen);
      assert (a + b)[1..] == a[1..] + b && (a + b)[0] == a[0];
      ActsFirst(rd, bytes, a + b, seen);
      ActsFirst(rd, bytes, a, seen);
      hide Acts, SeenAtEnd;
      ActsAppend(rd, bytes, a[1..], b, after);
      Reassociate([act], Acts(rd, bytes, a[1..], after), Acts(rd, bytes, b, SeenAtEnd(rd, bytes, a[1..], after)));
    }
  }

  lemma ActsFirst(rd: Reader, bytes: Bytes, spans: seq<Span>, seen: bool)
    requires spans != [] && Within(spans, |bytes|)
    ensures var act := Judge(rd, bytes, spans[0], seen);
            var after := SeenAfter(rd, act, seen);
            && Acts(rd, bytes, spans, seen) == [act] + Acts(rd, bytes, spans[1..], after)
            && SeenAtEnd(rd, bytes, spans, seen) == SeenAtEnd(rd, bytes, spans[1..], after)
  {
    hide Judge, SeenAfter;
  }

  lemma {:induction false} CompletionsAppend(path: Path, bytes: Bytes, a: seq<Span>, b: seq<Span>, x: seq<Act>,
                                             y: seq<Act>)
    requires |a| == |x| && |b| == |y|
    ensures Completions(path, bytes, a + b, x + y) == Completions(path, bytes, a, x) + Completions(path, bytes, b, y)
  {
    if a == [] {
      assert a + b == b && x + y == y;
    } else {
      hide CompletionOf;
      assert (a + b)[1..] == a[1..] + b && (x + y)[1..] == x[1..] + y;
      CompletionsAppend(path, bytes, a[1..], b, x[1..], y);
      Reassociate(CompletionOf(path, bytes, a[0], x[0]), Completions(path, bytes, a[1..], x[1..]),
                  Completions(path, bytes, b, y));
    }
  }

  /** Equal but for the last byte of the offset: a line still without its newline ends one byte earlier. */
  predicate SameCompletion(c: LogCompletion, d: LogCompletion) {
    c.parsed == d.parsed && c.rawPath == d.rawPath && c.rawOffset <= d.rawOffset <= c.rawOffset + 1
  }

  predicate SameCompletions(a: seq<LogCompletion>, b: seq<LogCompletion>) {
    |a| == |b| && forall i :: 0 <= i < |a| ==> SameCompletion(a[i], b[i])
  }

  lemma {:induction false} CompletionsPrefix(path: Path, bytes: Bytes, k: nat, spans: seq<Span>, acts: seq<Act>)
    requires k <= |bytes| && Within(spans, k) && |acts| == |spans|
    ensures SameCompletions(Completions(path, bytes[..k], spans, acts), Completions(path, bytes, spans, acts))
  {
    if spans != [] {
      CompletionsPrefix(path, bytes, k, spans[1..], acts[1..]);
    }
  }

  // Incremental reading against one read.

  /** An append-only history: every poll sees a prefix of what the last poll sees. */
  predicate AppendOnly(contents: seq<Bytes>, cursor: nat) {
    && (forall i :: 0 <= i < |contents| ==> cursor <= |contents[i]|)
    && (forall i, j :: 0 <= i <= j < |contents| ==> contents[i] <= contents[j])
  }

  predicate CleanCuts(contents: seq<Bytes>, cursor: nat)
    requires contents != [] && AppendOnly(contents, cursor)
  {
    var final := contents[|contents| - 1];
    forall i :: 0 <= i < |contents| ==> |contents[i]| <= |final| && CleanCut(final, cursor, |contents[i]|)
  }

  /** Two polls around a clean cut complete what one poll does, and leave the same flag. */
  lemma TwoPolls(rd: Reader, path: Path, bytes: Bytes, cursor: nat, k: nat, seen: bool) returns (d: seq<LogCompletion>)
    requires cursor <= k <= |bytes| && CleanCut(bytes, cursor, k)
    ensures var mid := PollSeen(rd, bytes[..k], cursor, seen);
            && SameCompletions(PollCompletions(rd, path, bytes[..k], cursor, seen), d)
            && PollCompletions(rd, path, bytes, cursor, seen) == d + PollCompletions(rd, path, bytes, k, mid)
            && PollSeen(rd, bytes, k, mid) == PollSeen(rd, bytes, cursor, seen)
  {
    hide Spans, ParseStart, Judge, CleanCut;
    var a, b := PollSpans(bytes[..k], cursor), PollSpans(bytes, k);
    var first := rd.RequiresUserEntry() && seen;
    var mid := SeenAtEnd(rd, bytes[..k], a, first);
    PollSplit(bytes, cursor, k);
    ActsPrefix(rd, bytes, k, a, first);
    ActsAppend(rd, bytes, a, b, first);
    if !rd.RequiresUserEntry() {
      NeverSeen(rd, bytes, a);
    }
    var x, y := Acts(rd, bytes, a, first), Acts(rd, bytes, b, mid);
    CompletionsAppend(path, bytes, a, b, x, y);
    CompletionsPrefix(path, bytes, k, a, x);
    d := Completions(path, bytes, a, x);
  }

  lemma {:induction false} NeverSeen(rd: Reader, bytes: Bytes, spans: seq<Span>)
    requires Within(spans, |bytes|) && !rd.RequiresUserEntry()
    ensures !SeenAtEnd(rd, bytes, spans, false)
  {
    if spans != [] {
      NeverSeen(rd, bytes, spans[1..]);
    }
  }

  lemma SkippedLine(bytes: Bytes, cursor: nat, k: nat)
    requires cursor <= k < ParseStart(bytes, cursor)
    ensures ParseStart(bytes, k) == ParseStart(bytes, cursor)
  {
  }

  /** Reading incrementally completes what one read of the final file completes, and leaves the same flag,
      whenever no poll cut a line in two. */
  lemma {:induction false} CleanTailIsOneRead(rd: Reader, path: Path, contents: seq<Bytes>, cursor: nat, seen: bool)
    requires contents != [] && AppendOnly(contents, cursor) && CleanCuts(contents, cursor)
    ensures SameCompletions(Tail(rd, path, contents, cursor, seen),
                            PollCompletions(rd, path, contents[|contents| - 1], cursor, seen))
    ensures TailSeen(rd, contents, cursor, seen) == PollSeen(rd, contents[|contents| - 1], cursor, seen)
  {
    hide PollCompletions, PollSeen, SameCompletion, ParseStart;
    var c, rest, final := contents[0], contents[1..], contents[|contents| - 1];
    var done := PollCompletions(rd, path, c, cursor, seen);
    if rest == [] {
      assert Tail(rd, path, contents, cursor, seen) == done + Tail(rd, path, [], |c|, PollSeen(rd, c, cursor, seen));
      SameReflexive(done);
    } else {
      var k, mid := |c|, PollSeen(rd, c, cursor, seen);
      assert c == final[..k];
      forall i | 0 <= i < |rest|
        ensures CleanCut(final, k, |rest[i]|)
      {
        assert rest[i] == contents[i + 1] && c <= rest[i];
        if |rest[i]| < ParseStart(final, cursor) {
          SkippedLine(final, cursor, k);
        }
      }
      CleanTailIsOneRead(rd, path, rest, k, mid);
      var d := TwoPolls(rd, path, final, cursor, k, seen);
      SameConcat(done, Tail(rd, path, rest, k, mid), d, PollCompletions(rd, path, final, k, mid));
    }
  }

  lemma SameReflexive(a: seq<LogCompletion>)
    ensures SameCompletions(a, a) && a + [] == a
  {
  }

  lemma SameConcat(a: seq<LogCompletion>, b: seq<LogCompletion>, x: seq<LogCompletion>, y: seq<LogCompletion>)
    requires SameCompletions(a, x) && SameCompletions(b, y)
    ensures SameCompletions(a + b, x + y)
  {
  }

  // A cut inside a line loses that line.

  lemma StartsALine(bytes: Bytes, cursor: nat)
    ensures var s := ParseStart(bytes, cursor); s == 0 || s == |bytes| || bytes[s - 1] == NEWLINE
  {
  }

  /** Every parsed span is a whole line of the file as the poll saw it. */
  lemma {:induction false} SpanIsALine(bytes: Bytes, start: nat, i: nat)
    requires start <= |bytes| && (start == 0 || start == |bytes| || bytes[start - 1] == NEWLINE)
    requires i < |Spans(bytes, start)|
    ensures var sp := Spans(bytes, start)[i];
            && (sp.start == 0 || bytes[sp.start - 1] == NEWLINE)
            && sp.end == LineEnd(bytes, sp.start)
    decreases |bytes| - start
  {
    hide LineEnd, Spans;
    if start == |bytes| {
      SpansNone(bytes);
    } else {
      SpansUnfold(bytes, start);
      var e := LineEnd(bytes, start);
      if e == start {
        SpanIsALine(bytes, start + 1, i);
      } else if i > 0 {
        SpanIsALine(bytes, NextLine(bytes, e), i - 1);
      }
    }
  }

  lemma SpansNone(bytes: Bytes)
    ensures Spans(bytes, |bytes|) == []
  {
  }

  /** Every whole line from the start on is parsed. */
  lemma {:induction false} LineIsASpan(bytes: Bytes, start: nat, a: nat) returns (i: nat)
    requires start <= a < |bytes| && bytes[a] != NEWLINE
    requires a == start || bytes[a - 1] == NEWLINE
    ensures i < |Spans(bytes, start)| && Spans(bytes, start)[i] == Span(a, LineEnd(bytes, a))
    decreases |bytes| - start
  {
    var e := LineEnd(bytes, start);
    if a == start {
      i := 0;
    } else if e == start {
      i := LineIsASpan(bytes, start + 1, a);
    } else {
      var j := LineIsASpan(bytes, NextLine(bytes, e), a);
      i := j + 1;
    }
  }

  /** A non-empty line of the file: from its start or just after a newline up to the next newline or its end. */
  predicate IsLine(bytes: Bytes, sp: Span) {
    && sp.start < sp.end <= |bytes|
    && (sp.start == 0 || bytes[sp.start - 1] == 10)
    && (forall i :: sp.start <= i < sp.end ==> bytes[i] != 10)
    && (sp.end == |bytes| || bytes[sp.end] == 10)
  }

  /** A poll parses exactly the non-empty lines that begin at or after the cursor. */
  lemma PollParsesLines(bytes: Bytes, cursor: nat, sp: Span)
    ensures sp in PollSpans(bytes, cursor) <==> IsLine(bytes, sp) && cursor <= sp.start
  {
    hide PollSpans, IsLine;
    if sp in PollSpans(bytes, cursor) {
      var i :| 0 <= i < |PollSpans(bytes, cursor)| && PollSpans(bytes, cursor)[i] == sp;
      ParsedIsALine(bytes, cursor, i);
    }
    if IsLine(bytes, sp) && cursor <= sp.start {
      LineIsParsed(bytes, cursor, sp);
    }
  }

  lemma ParsedIsALine(bytes: Bytes, cursor: nat, i: nat)
    requires i < |PollSpans(bytes, cursor)|
    ensures IsLine(bytes, PollSpans(bytes, cursor)[i]) && cursor <= PollSpans(bytes, cursor)[i].start
  {
    var start := ParseStart(bytes, cursor);
    assert cursor <= start || start == |bytes|;
    StartsALine(bytes, cursor);
    hide ParseStart, Spans;
    SpanIsALine(bytes, start, i);
  }

  lemma LineIsParsed(bytes: Bytes, cursor: nat, sp: Span)
    requires IsLine(bytes, sp) && cursor <= sp.start
    ensures sp in PollSpans(bytes, cursor)
  {
    SkipsNoLine(bytes, cursor, sp.start);
    StartsALine(bytes, cursor);
    hide ParseStart, Spans;
    var i := LineIsASpan(bytes, ParseStart(bytes, cursor), sp.start);
    assert LineEnd(bytes, sp.start) == sp.end;
  }

  lemma SkipsNoLine(bytes: Bytes, cursor: nat, a: nat)
    requires cursor <= a < |bytes| && (a == 0 || bytes[a - 1] == NEWLINE)
    ensures ParseStart(bytes, cursor) <= a
  {
    if 0 < cursor && bytes[cursor - 1] != NEWLINE {
      assert LineEnd(bytes, cursor) < a;
    }
  }

  /** Where a completion of a tail comes from. */
  lemma {:induction false} Provenance(rd: Reader, path: Path, contents: seq<Bytes>, cursor: nat, seen: bool, n: nat)
    returns (j: nat, from: nat, sp: Span)
    requires n < |Tail(rd, path, contents, cursor, seen)|
    ensures j < |contents| && from == (if j == 0 then cursor else |contents[j - 1]|)
    ensures sp in PollSpans(contents[j], from)
    ensures var c := Tail(rd, path, contents, cursor, seen)[n];
            && c.parsed == rd.parse(contents[j][sp.start..sp.end]) && c.parsed.TurnComplete?
            && c.rawPath == path && c.rawOffset == NextLine(contents[j], sp.end)
            && (rd.provider.Antigravity? ==> !Pending(rd, contents[j][..sp.end]))
  {
    hide Spans, ParseStart, Judge;
    var bytes := contents[0];
    var now := PollCompletions(rd, path, bytes, cursor, seen);
    if n < |now| {
      var i := CompletionSpan(rd, path, bytes, PollSpans(bytes, cursor), EntrySeen(rd, bytes, cursor, seen), n);
      j, from, sp := 0, cursor, PollSpans(bytes, cursor)[i];
    } else {
      var j', from', sp' := Provenance(rd, path, contents[1..], |bytes|, PollSeen(rd, bytes, cursor, seen), n - |now|);
      j, from, sp := j' + 1, from', sp';
    }
  }

  lemma {:induction false} CompletionSpan(rd: Reader, path: Path, bytes: Bytes, spans: seq<Span>, seen: bool, n: nat)
    returns (i: nat)
    requires Within(spans, |bytes|) && n < |Completions(path, bytes, spans, Acts(rd, bytes, spans, seen))|
    ensures i < |spans|
    ensures var c := Completions(path, bytes, spans, Acts(rd, bytes, spans, seen))[n];
            && c.parsed == rd.parse(bytes[spans[i].start..spans[i].end]) && c.parsed.TurnComplete?
            && c.rawPath == path && c.rawOffset == NextLine(bytes, spans[i].end)
            && (rd.provider.Antigravity? ==> !Pending(rd, bytes[..spans[i].end]))
  {
    hide Pending;
    var act := Judge(rd, bytes, spans[0], seen);
    if act.Emitted? && n == 0 {
      i := 0;
    } else {
      var m := if act.Emitted? then n - 1 else n;
      var i' := CompletionSpan(rd, path, bytes, spans[1..], SeenAfter(rd, act, seen), m);
      i := i' + 1;
    }
  }

  function LineStart(bytes: Bytes, k: nat): (a: nat)
    requires k <= |bytes|
    ensures a <= k && (a == 0 || bytes[a - 1] == NEWLINE)
    ensures forall i :: a <= i < k ==> bytes[i] != NEWLINE
  {
    if k == 0 || bytes[k - 1] == NEWLINE then k else LineStart(bytes, k - 1)
  }

  lemma {:induction false} SpanCompletes(rd: Reader, path: Path, bytes: Bytes, spans: seq<Span>, i: nat)
    returns (m: nat)
    requires rd.provider.Codex? && Within(spans, |bytes|) && i < |spans|
    requires rd.parse(bytes[spans[i].start..spans[i].end]).TurnComplete?
    ensures var r := Completions(path, bytes, spans, Acts(rd, bytes, spans, false));
            m < |r| && r[m].rawOffset == NextLine(bytes, spans[i].end)
  {
    var act := Judge(rd, bytes, spans[0], false);
    if i == 0 {
      m := 0;
    } else {
      var m' := SpanCompletes(rd, path, bytes, spans[1..], i - 1);
      m := if act.Emitted? then m' + 1 else m';
    }
  }

  /** A line as long as the one from `a` to `e`, and not the same, does not end near it. */
  lemma LinesAreApart(bytes: Bytes, a: nat, e: nat, sp: Span)
    requires a + 2 <= e <= |bytes| && e == LineEnd(bytes, a) && (a == 0 || bytes[a - 1] == NEWLINE)
    requires sp.start <= sp.end <= |bytes| && sp.end - sp.start == e - a
    requires sp.start == 0 || bytes[sp.start - 1] == NEWLINE
    requires forall i :: sp.start <= i < sp.end ==> bytes[i] != NEWLINE
    requires sp != Span(a, e)
    ensures sp.end + 2 < e || sp.end > e + 1
  {
    assert bytes[a] != NEWLINE;
    assert a > 0 ==> bytes[a - 1] == NEWLINE;
  }

  /** If a poll cut the line from `a` to `e` at `k`, no completion for its text lies at its end. */
  lemma NoneAtTheCutLine(rd: Reader, path: Path, contents: seq<Bytes>, cursor: nat, seen: bool, i: nat, a: nat,
                         e: nat, n: nat)
    requires contents != [] && AppendOnly(contents, cursor) && i < |contents|
    requires n < |Tail(rd, path, contents, cursor, seen)|
    requires var final := contents[|contents| - 1];
             a < |contents[i]| < e <= |final| && e == LineEnd(final, a) && (a == 0 || final[a - 1] == NEWLINE)
    requires forall l :: rd.parse(l).TurnComplete? ==> l == contents[|contents| - 1][a..e]
    ensures var c := Tail(rd, path, contents, cursor, seen)[n]; c.rawOffset + 1 < e || c.rawOffset > e + 1
  {
    hide Tail, PollSpans;
    var final := contents[|contents| - 1];
    var j, from, sp := Provenance(rd, path, contents, cursor, seen, n);
    assert contents[j] <= final;
    SpanFromPoll(contents[j], final, from, sp);
    assert sp != Span(a, e) by {
      if j <= i {
        assert contents[j] <= contents[i];
      } else {
        assert contents[i] <= contents[j - 1];
      }
    }
    LinesAreApart(final, a, e, sp);
  }

  /** The other half: if some poll cut a line in two, some line parser shows the loss. */
  lemma CutLineIsLost(path: Path, contents: seq<Bytes>, cursor: nat, seen: bool, i: nat) returns (rd: Reader)
    requires contents != [] && AppendOnly(contents, cursor) && i < |contents|
    requires |contents[i]| <= |contents[|contents| - 1]|
    requires !CleanCut(contents[|contents| - 1], cursor, |contents[i]|)
    ensures !SameCompletions(Tail(rd, path, contents, cursor, seen),
                             PollCompletions(rd, path, contents[|contents| - 1], cursor, seen))
  {
    hide Tail, Spans, Completions, Acts, ParseStart;
    var final, k := contents[|contents| - 1], |contents[i]|;
    var a, e := LineStart(final, k), LineEnd(final, k);
    assert LineEnd(final, a) == e;
    var line := final[a..e];
    rd := Reader(Codex, l => if l == line then TurnComplete(None, None) else NotTerminal, l => {}, l => {});
    var s := ParseStart(final, cursor);
    StartsALine(final, cursor);
    var n := LineIsASpan(final, s, a);
    var m := SpanCompletes(rd, path, final, PollSpans(final, cursor), n);
    var tail := Tail(rd, path, contents, cursor, seen);
    if m < |tail| {
      NoneAtTheCutLine(rd, path, contents, cursor, seen, i, a, e, m);
      assert !SameCompletion(tail[m], PollCompletions(rd, path, final, cursor, seen)[m]);
    }
  }

  lemma StartsAfter(bytes: Bytes, from: nat)
    ensures from <= ParseStart(bytes, from) || ParseStart(bytes, from) == |bytes|
  {
    hide LineEnd;
  }

  lemma SpanFromPoll(bytes: Bytes, final: Bytes, from: nat, sp: Span)
    requires bytes <= final && sp in PollSpans(bytes, from)
    ensures from <= sp.start < sp.end <= |bytes|
    ensures sp.start == 0 || final[sp.start - 1] == NEWLINE
    ensures forall i :: sp.start <= i < sp.end ==> final[i] != NEWLINE
  {
    hide ParseStart, Spans, LineEnd;
    StartsALine(bytes, from);
    StartsAfter(bytes, from);
    var start := ParseStart(bytes, from);
    var i :| 0 <= i < |Spans(bytes, start)| && Spans(bytes, start)[i] == sp;
    SpanIsALine(bytes, start, i);
  }

  // At most once.

  /** The lines parsed by successive polls. */
  function TailSpans(contents: seq<Bytes>, cursor: nat): seq<Span> {
    if contents == [] then [] else PollSpans(contents[0], cursor) + TailSpans(contents[1..], |contents[0]|)
  }

  predicate Increasing(spans: seq<Span>, low: nat) {
    && (forall i :: 0 <= i < |spans| ==> low <= spans[i].start)
    && (forall i, j :: 0 <= i < j < |spans| ==> spans[i].start < spans[j].start)
  }

  lemma {:induction false} SpansIncrease(bytes: Bytes, start: nat)
    requires start <= |bytes|
    ensures Increasing(Spans(bytes, start), start)
    decreases |bytes| - start
  {
    if start < |bytes| {
      var e := LineEnd(bytes, start);
      SpansIncrease(bytes, if e == start then start + 1 else NextLine(bytes, e));
    }
  }

  /** However the polls cut an append-only file, no line start is parsed twice: the line starts of all
      polls together increase. */
  lemma {:induction false} LinesAreParsedOnce(contents: seq<Bytes>, cursor: nat)
    requires AppendOnly(contents, cursor)
    ensures Increasing(TailSpans(contents, cursor), cursor)
  {
    if contents != [] {
      var bytes := contents[0];
      var now, later := PollSpans(bytes, cursor), TailSpans(contents[1..], |bytes|);
      SpansIncrease(bytes, ParseStart(bytes, cursor));
      assert forall i :: 0 <= i < |contents[1..]| ==> bytes <= contents[1..][i];
      LinesAreParsedOnce(contents[1..], |bytes|);
    }
  }

  // User entries gate completions.

  /** What successive polls of arbitrary contents did, line by line. */
  function TailActs(rd: Reader, contents: seq<Bytes>, cursor: nat, seen: bool): seq<Act> {
    if contents == [] then [] else
      var bytes := contents[0];
      PollActs(rd, bytes, cursor, seen) + TailActs(rd, contents[1..], |bytes|, PollSeen(rd, bytes, cursor, seen))
  }

  /** Each completion has a user entry since the previous completion; `seen` stands for one before the start. */
  predicate Gated(acts: seq<Act>, seen: bool) {
    forall j :: 0 <= j < |acts| && acts[j].Emitted? ==>
      || (seen && forall m :: 0 <= m < j ==> !acts[m].Emitted?)
      || exists i :: 0 <= i < j && acts[i].UserEntry? && forall m :: i < m < j ==> !acts[m].Emitted?
  }

  lemma GatedStep(act: Act, acts: seq<Act>, seen: bool, after: bool)
    requires Gated(acts, after)
    requires after ==> act.UserEntry? || (seen && !act.Emitted?)
    requires act.Emitted? ==> seen
    ensures Gated([act] + acts, seen)
  {
    var all := [act] + acts;
    forall j | 0 <= j < |all| && all[j].Emitted?
      ensures || (seen && forall m :: 0 <= m < j ==> !all[m].Emitted?)
              || exists i :: 0 <= i < j && all[i].UserEntry? && forall m :: i < m < j ==> !all[m].Emitted?
    {
      if j > 0 {
        assert acts[j - 1].Emitted?;
        if after && forall m :: 0 <= m < j - 1 ==> !acts[m].Emitted? {
          if act.UserEntry? {
            assert all[0].UserEntry? && forall m :: 0 < m < j ==> !all[m].Emitted?;
          }
        } else {
          var i :| 0 <= i < j - 1 && acts[i].UserEntry? && forall m :: i < m < j - 1 ==> !acts[m].Emitted?;
          assert all[i + 1].UserEntry? && forall m :: i + 1 < m < j ==> !all[m].Emitted?;
        }
      }
    }
  }

  lemma {:induction false} ActsGated(rd: Reader, bytes: Bytes, spans: seq<Span>, seen: bool, later: seq<Act>)
    requires rd.RequiresUserEntry() && Within(spans, |bytes|)
    requires Gated(later, SeenAtEnd(rd, bytes, spans, seen))
    ensures Gated(Acts(rd, bytes, spans, seen) + later, seen)
  {
    hide Gated, Pending;
    if spans == [] {
      assert Acts(rd, bytes, spans, seen) + later == later;
    } else {
      var act := Judge(rd, bytes, spans[0], seen);
      var after := SeenAfter(rd, act, seen);
      ActsGated(rd, bytes, spans[1..], after, later);
      GatedStep(act, Acts(rd, bytes, spans[1..], after) + later, seen, after);
      assert Acts(rd, bytes, spans, seen) + later == [act] + (Acts(rd, bytes, spans[1..], after) + later);
    }
  }

  /** For claude and antigravity, over every sequence of polls of any contents, a completion follows a user
      entry parsed since the previous completion, in the same poll or in an earlier one. */
  lemma {:induction false} CompletionsAreGated(rd: Reader, contents: seq<Bytes>, cursor: nat, seen: bool)
    requires rd.RequiresUserEntry()
    ensures Gated(TailActs(rd, contents, cursor, seen), seen)
  {
    if contents != [] {
      var bytes := contents[0];
      var mid, entry := PollSeen(rd, bytes, cursor, seen), EntrySeen(rd, bytes, cursor, seen);
      CompletionsAreGated(rd, contents[1..], |bytes|, mid);
      ActsGated(rd, bytes, PollSpans(bytes, cursor), entry, TailActs(rd, contents[1..], |bytes|, mid));
      GatedWeaken(TailActs(rd, contents, cursor, seen), entry, seen);
    }
  }

  lemma GatedWeaken(acts: seq<Act>, seen: bool, more: bool)
    requires Gated(acts, seen) && (seen ==> more)
    ensures Gated(acts, more)
  {
  }

  function CountEmitted(acts: seq<Act>): nat {
    if acts == [] then 0 else CountEmitted(acts[..|acts| - 1]) + if acts[|acts| - 1].Emitted? then 1 else 0
  }

  function CountEntries(acts: seq<Act>): nat {
    if acts == [] then 0 else CountEntries(acts[..|acts| - 1]) + if acts[|acts| - 1].UserEntry? then 1 else 0
  }

  /** So completions inject into user entries: no prefix of a run has more of them, plus the one that an
      earlier run may have left standing. */
  lemma {:induction false} GatedCounts(acts: seq<Act>, seen: bool)
    requires Gated(acts, seen)
    ensures CountEmitted(acts) <= CountEntries(acts) + if seen then 1 else 0
    decreases |acts|
  {
    if acts != [] {
      var n := |acts| - 1;
      if !acts[n].Emitted? {
        GatedPrefix(acts, seen, n);
        GatedCounts(acts[..n], seen);
      } else if seen && forall m :: 0 <= m < n ==> !acts[m].Emitted? {
        NoneEmitted(acts[..n], 0);
        assert acts[..n][..0] == [];
      } else {
        var i :| 0 <= i < n && acts[i].UserEntry? && forall m :: i < m < n ==> !acts[m].Emitted?;
        GatedPrefix(acts, seen, i);
        GatedCounts(acts[..i], seen);
        assert acts[..i + 1][..i] == acts[..i];
        NoneEmitted(acts[..n], i + 1);
        assert acts[..n][..i + 1] == acts[..i + 1];
      }
    }
  }

  lemma GatedPrefix(acts: seq<Act>, seen: bool, n: nat)
    requires Gated(acts, seen) && n <= |acts|
    ensures Gated(acts[..n], seen)
  {
    forall j | 0 <= j < n && acts[..n][j].Emitted?
      ensures || (seen && forall m :: 0 <= m < j ==> !acts[..n][m].Emitted?)
              || exists i :: 0 <= i < j && acts[..n][i].UserEntry? && forall m :: i < m < j ==> !acts[..n][m].Emitted?
    {
      assert acts[j].Emitted?;
      if !(seen && forall m :: 0 <= m < j ==> !acts[m].Emitted?) {
        var i :| 0 <= i < j && acts[i].UserEntry? && forall m :: i < m < j ==> !acts[m].Emitted?;
        assert acts[..n][i].UserEntry?;
      }
    }
  }

  lemma {:induction false} NoneEmitted(acts: seq<Act>, n: nat)
    requires n <= |acts| && forall m :: n <= m < |acts| ==> !acts[m].Emitted?
    ensures CountEmitted(acts) == CountEmitted(acts[..n]) && CountEntries(acts) >= CountEntries(acts[..n])
    decreases |acts|
  {
    if n < |acts| {
      var front := acts[..|acts| - 1];
      NoneEmitted(front, n);
      assert front[..n] == acts[..n];
    } else {
      assert acts[..n] == acts;
    }
  }

  lemma EntriesCoverCompletions(rd: Reader, contents: seq<Bytes>, cursor: nat)
    requires rd.RequiresUserEntry()
    ensures var acts := TailActs(rd, contents, cursor, false);
            forall n :: 0 <= n <= |acts| ==> CountEmitted(acts[..n]) <= CountEntries(acts[..n])
  {
    var acts := TailActs(rd, contents, cursor, false);
    CompletionsAreGated(rd, contents, cursor, false);
    forall n | 0 <= n <= |acts|
      ensures CountEmitted(acts[..n]) <= CountEntries(acts[..n])
    {
      GatedPrefix(acts, false, n);
      GatedCounts(acts[..n], false);
    }
  }

  // Tasks.

  // What becomes of every line.

  /** A line as a poll parsed it: the file up to its end, its text, and how many polls before or at it found the file
      shorter than the cursor. */
  datatype Line = Line(upTo: Bytes, text: Bytes, epoch: nat)

  function LineOf(bytes: Bytes, sp: Span, epoch: nat): Line
    requires sp.start <= sp.end <= |bytes|
  {
    Line(bytes[..sp.end], bytes[sp.start..sp.end], epoch)
  }

  function LinesOf(bytes: Bytes, spans: seq<Span>, epoch: nat): (r: seq<Line>)
    requires Within(spans, |bytes|)
    ensures |r| == |spans|
  {
    seq(|spans|, i requires 0 <= i < |spans| => LineOf(bytes, spans[i], epoch))
  }

  function EpochAfter(bytes: Bytes, cursor: nat, epoch: nat): nat {
    if cursor > |bytes| then epoch + 1 else epoch
  }

  /** The lines of successive polls of arbitrary contents. */
  function TailLines(contents: seq<Bytes>, cursor: nat, epoch: nat): seq<Line> {
    if contents == [] then [] else
      var e := EpochAfter(contents[0], cursor, epoch);
      LinesOf(contents[0], PollSpans(contents[0], cursor), e) + TailLines(contents[1..], |contents[0]|, e)
  }

  /** Since the last completion, and since the file last shrank, there was a user message, or there is still the
      entry from before the first poll. */
  predicate EntryOpen(rd: Reader, lines: seq<Line>, acts: seq<Act>, seen: bool, epoch: nat, j: nat)
    requires j < |lines| == |acts|
  {
    || (seen && lines[j].epoch == epoch && forall m :: 0 <= m < j ==> !acts[m].Emitted?)
    || exists i :: 0 <= i < j && rd.parse(lines[i].text).UserMessage? && lines[i].epoch == lines[j].epoch
                   && forall m :: i < m < j ==> !acts[m].Emitted?
  }

  /** Some line up to here starts a task that no line up to here finishes. */
  predicate TaskOpen(rd: Reader, upTo: Bytes) {
    exists sp, task :: sp in Spans(upTo, 0) && task in rd.started(upTo[sp.start..sp.end])
                       && forall f :: f in Spans(upTo, 0) ==> task !in rd.finished(upTo[f.start..f.end])
  }

  /** What becomes of line `j`, by what the parser makes of it and of the lines before it. */
  ghost predicate ExactAt(rd: Reader, lines: seq<Line>, acts: seq<Act>, seen: bool, epoch: nat, j: nat)
    requires j < |lines| == |acts|
  {
    var parsed := rd.parse(lines[j].text);
    var gated := rd.provider.Claude? || rd.provider.Antigravity?;
    var due := parsed.TurnComplete? && (!gated || EntryOpen(rd, lines, acts, seen, epoch, j));
    var held := rd.provider.Antigravity? && TaskOpen(rd, lines[j].upTo);
    && (acts[j].UserEntry? <==> gated && parsed.UserMessage?)
    && (acts[j] == Emitted(parsed) <==> due && !held)
    && (acts[j] == Deferred <==> due && held)
    && (acts[j].Emitted? ==> acts[j].parsed == parsed)
  }

  ghost predicate Exact(rd: Reader, lines: seq<Line>, acts: seq<Act>, seen: bool, epoch: nat) {
    |lines| == |acts| && forall j :: 0 <= j < |acts| ==> ExactAt(rd, lines, acts, seen, epoch, j)
  }

  lemma {:induction false} Gathered(tasks: Bytes -> set<string>, bytes: Bytes, spans: seq<Span>, task: string)
    requires forall i :: 0 <= i < |spans| ==> spans[i].start <= spans[i].end <= |bytes|
    ensures task in Gather(tasks, bytes, spans) <==>
              exists sp :: sp in spans && task in tasks(bytes[sp.start..sp.end])
  {
    if spans != [] {
      Gathered(tasks, bytes, spans[1..], task);
      assert forall sp :: sp in spans <==> sp == spans[0] || sp in spans[1..];
    }
  }

  lemma PendingMeans(rd: Reader, bytes: Bytes)
    ensures Pending(rd, bytes) <==> TaskOpen(rd, bytes)
  {
    hide Spans, Gather;
    var spans := Spans(bytes, 0);
    forall task
      ensures task in Started(rd, bytes) <==> exists sp :: sp in spans && task in rd.started(bytes[sp.start..sp.end])
      ensures task in Finished(rd, bytes) <==> exists sp :: sp in spans && task in rd.finished(bytes[sp.start..sp.end])
    {
      Gathered(rd.started, bytes, spans, task);
      Gathered(rd.finished, bytes, spans, task);
    }
    if Pending(rd, bytes) {
      var task :| task in Started(rd, bytes) - Finished(rd, bytes);
      var sp :| sp in spans && task in rd.started(bytes[sp.start..sp.end]);
    }
    if TaskOpen(rd, bytes) {
      var sp, task :| sp in spans && task in rd.started(bytes[sp.start..sp.end])
                      && forall f :: f in spans ==> task !in rd.finished(bytes[f.start..f.end]);
      assert task in Started(rd, bytes) - Finished(rd, bytes);
    }
  }

  /** One more line in front. */
  lemma ExactStep(rd: Reader, bytes: Bytes, sp: Span, lines: seq<Line>, acts: seq<Act>, seen: bool, epoch: nat)
    requires sp.start <= sp.end <= |bytes|
    requires var act := Judge(rd, bytes, sp, seen); Exact(rd, lines, acts, SeenAfter(rd, act, seen), epoch)
    ensures Exact(rd, [LineOf(bytes, sp, epoch)] + lines, [Judge(rd, bytes, sp, seen)] + acts, seen, epoch)
  {
    var line, act := LineOf(bytes, sp, epoch), Judge(rd, bytes, sp, seen);
    var all, did := [line] + lines, [act] + acts;
    PendingMeans(rd, bytes[..sp.end]);
    hide Pending, TaskOpen;
    forall j | 0 <= j < |did|
      ensures ExactAt(rd, all, did, seen, epoch, j)
    {
      if j > 0 {
        assert ExactAt(rd, lines, acts, SeenAfter(rd, act, seen), epoch, j - 1);
        if rd.RequiresUserEntry() {
          OpenShifts(rd, line, act, lines, acts, seen, SeenAfter(rd, act, seen), epoch, j);
        }
      }
    }
  }

  lemma OpenShifts(rd: Reader, line: Line, act: Act, lines: seq<Line>, acts: seq<Act>, seen: bool, after: bool,
                   epoch: nat, j: nat)
    requires |lines| == |acts| && 0 < j <= |acts| && line.epoch == epoch
    requires after <==> rd.parse(line.text).UserMessage? || (seen && !act.Emitted?)
    ensures EntryOpen(rd, [line] + lines, [act] + acts, seen, epoch, j) <==>
              EntryOpen(rd, lines, acts, after, epoch, j - 1)
  {
    var all, did := [line] + lines, [act] + acts;
    assert forall m :: 0 < m < |all| ==> all[m] == lines[m - 1] && did[m] == acts[m - 1];
    if EntryOpen(rd, lines, acts, after, epoch, j - 1) {
      if after && lines[j - 1].epoch == epoch && forall m :: 0 <= m < j - 1 ==> !acts[m].Emitted? {
        if rd.parse(line.text).UserMessage? {
          assert rd.parse(all[0].text).UserMessage?;
        }
      } else {
        var i :| 0 <= i < j - 1 && rd.parse(lines[i].text).UserMessage? && lines[i].epoch == lines[j - 1].epoch
                 && forall m :: i < m < j - 1 ==> !acts[m].Emitted?;
        assert rd.parse(all[i + 1].text).UserMessage? && forall m :: i + 1 < m < j ==> !did[m].Emitted?;
      }
    }
    if EntryOpen(rd, all, did, seen, epoch, j) {
      if seen && all[j].epoch == epoch && forall m :: 0 <= m < j ==> !did[m].Emitted? {
        assert !did[0].Emitted?;
        forall m | 0 <= m < j - 1
          ensures !acts[m].Emitted?
        {
          assert did[m + 1] == acts[m];
        }
      } else {
        var i :| 0 <= i < j && rd.parse(all[i].text).UserMessage? && all[i].epoch == all[j].epoch
                 && forall m :: i < m < j ==> !did[m].Emitted?;
        forall m | i <= m < j - 1
          ensures !acts[m].Emitted?
        {
          assert did[m + 1] == acts[m];
        }
        if i > 0 {
          assert lines[i - 1] == all[i] && rd.parse(lines[i - 1].text).UserMessage?;
        }
      }
    }
  }

  lemma {:induction false} ActsExact(rd: Reader, bytes: Bytes, spans: seq<Span>, seen: bool, epoch: nat,
                                     lines: seq<Line>, later: seq<Act>)
    requires Within(spans, |bytes|)
    requires Exact(rd, lines, later, SeenAtEnd(rd, bytes, spans, seen), epoch)
    ensures Exact(rd, LinesOf(bytes, spans, epoch) + lines, Acts(rd, bytes, spans, seen) + later, seen, epoch)
  {
    hide Exact, Judge;
    if spans == [] {
      assert LinesOf(bytes, spans, epoch) + lines == lines && Acts(rd, bytes, spans, seen) + later == later;
    } else {
      var act := Judge(rd, bytes, spans[0], seen);
      var after := SeenAfter(rd, act, seen);
      var restLines, restActs := LinesOf(bytes, spans[1..], epoch) + lines, Acts(rd, bytes, spans[1..], after) + later;
      ActsExact(rd, bytes, spans[1..], after, epoch, lines, later);
      ExactStep(rd, bytes, spans[0], restLines, restActs, seen, epoch);
      assert LinesOf(bytes, spans, epoch) + lines == [LineOf(bytes, spans[0], epoch)] + restLines;
      assert Acts(rd, bytes, spans, seen) + later == [act] + restActs;
    }
  }

  /** Nobody looks at the flag of a provider without the gate, and a flag from before the file shrank is gone. */
  lemma ExactIgnores(rd: Reader, lines: seq<Line>, acts: seq<Act>, was: bool, now: bool, before: nat, epoch: nat)
    requires Exact(rd, lines, acts, now, epoch)
    requires !rd.RequiresUserEntry() || (was == now && before == epoch)
             || (!now && forall i :: 0 <= i < |lines| ==> lines[i].epoch > before)
    ensures Exact(rd, lines, acts, was, before)
  {
    hide TaskOpen;
    forall j | 0 <= j < |acts|
      ensures ExactAt(rd, lines, acts, was, before, j)
    {
      assert ExactAt(rd, lines, acts, now, epoch, j);
    }
  }

  lemma {:induction false} EpochsGrow(contents: seq<Bytes>, cursor: nat, epoch: nat)
    ensures AllFrom(TailLines(contents, cursor, epoch), epoch)
  {
    if contents != [] {
      var next := EpochAfter(contents[0], cursor, epoch);
      EpochsGrow(contents[1..], |contents[0]|, next);
      assert AllFrom(LinesOf(contents[0], PollSpans(contents[0], cursor), next), next);
      hide PollSpans, LinesOf;
    }
  }

  predicate AllFrom(lines: seq<Line>, epoch: nat) {
    forall i :: 0 <= i < |lines| ==> epoch <= lines[i].epoch
  }

  /** Over every sequence of polls of any contents, each line that is parsed is completed exactly if the parser makes a
      turn completion of it, the provider does not wait for a user entry or there is one since the last completion,
      and for antigravity no task is open up to it. */
  lemma {:induction false} LinesAreJudgedExactly(rd: Reader, contents: seq<Bytes>, cursor: nat, seen: bool, epoch: nat)
    ensures Exact(rd, TailLines(contents, cursor, epoch), TailActs(rd, contents, cursor, seen), seen, epoch)
  {
    if contents != [] {
      var bytes := contents[0];
      var e, mid := EpochAfter(bytes, cursor, epoch), PollSeen(rd, bytes, cursor, seen);
      var spans, entry := PollSpans(bytes, cursor), EntrySeen(rd, bytes, cursor, seen);
      var lines, acts := TailLines(contents[1..], |bytes|, e), TailActs(rd, contents[1..], |bytes|, mid);
      LinesAreJudgedExactly(rd, contents[1..], |bytes|, mid, e);
      EpochsGrow(contents, cursor, epoch);
      hide Exact, PollSpans, Acts, SeenAtEnd;
      ExactIgnores(rd, lines, acts, SeenAtEnd(rd, bytes, spans, entry), mid, e, e);
      ActsExact(rd, bytes, spans, entry, e, lines, acts);
      var all, did := LinesOf(bytes, spans, e) + lines, Acts(rd, bytes, spans, entry) + acts;
      if cursor > |bytes| {
        EpochsGrow(contents[1..], |bytes|, e);
        assert forall i :: 0 <= i < |all| ==> all[i].epoch > epoch;
      }
      ExactIgnores(rd, all, did, seen, entry, epoch, e);
    }
  }

  /** What the emitted lines were parsed to, in order. */
  function EmittedOf(acts: seq<Act>): seq<LogParseResult> {
    if acts == [] then [] else (if acts[0].Emitted? then [acts[0].parsed] else []) + EmittedOf(acts[1..])
  }

  function ParsedOf(cs: seq<LogCompletion>): seq<LogParseResult> {
    seq(|cs|, i requires 0 <= i < |cs| => cs[i].parsed)
  }

  lemma EmittedUnfold(acts: seq<Act>)
    requires acts != []
    ensures EmittedOf(acts) == (if acts[0].Emitted? then [acts[0].parsed] else []) + EmittedOf(acts[1..])
  {
  }

  lemma {:induction false} EmittedJoin(a: seq<Act>, b: seq<Act>)
    ensures EmittedOf(a + b) == EmittedOf(a) + EmittedOf(b)
  {
    if a == [] {
      assert a + b == b;
    } else {
      EmittedJoin(a[1..], b);
      EmittedUnfold(a);
      EmittedUnfold(a + b);
      hide EmittedOf;
      assert (a + b)[1..] == a[1..] + b;
      Regroup(if a[0].Emitted? then [a[0].parsed] else [], EmittedOf(a[1..]), EmittedOf(b));
    }
  }

  lemma Regroup<T>(a: seq<T>, b: seq<T>, c: seq<T>)
    ensures a + (b + c) == a + b + c
  {
  }

  lemma {:induction false} CompletionsAreEmitted(path: Path, bytes: Bytes, spans: seq<Span>, acts: seq<Act>)
    requires |acts| == |spans|
    ensures ParsedOf(Completions(path, bytes, spans, acts)) == EmittedOf(acts)
  {
    if spans != [] {
      CompletionsAreEmitted(path, bytes, spans[1..], acts[1..]);
    }
  }

  /** The completions of the polls are the emitted lines, all of them and in order. */
  lemma {:induction false} EveryEmittedLineCompletes(
      rd: Reader, path: Path, contents: seq<Bytes>, cursor: nat, seen: bool)
    ensures ParsedOf(Tail(rd, path, contents, cursor, seen)) == EmittedOf(TailActs(rd, contents, cursor, seen))
  {
    if contents != [] {
      var bytes := contents[0];
      var mid := PollSeen(rd, bytes, cursor, seen);
      EveryEmittedLineCompletes(rd, path, contents[1..], |bytes|, mid);
      CompletionsAreEmitted(path, bytes, PollSpans(bytes, cursor), PollActs(rd, bytes, cursor, seen));
      EmittedJoin(PollActs(rd, bytes, cursor, seen), TailActs(rd, contents[1..], |bytes|, mid));
    }
  }

  // Any cuts.

  /** What the polls see of a line: up to the end of the first poll that reaches into it. */
  function Front(contents: seq<Bytes>, line: Span): Span {
    if contents == [] then line
    else if line.start < |contents[0]| then CutBack(line, |contents[0]|)
    else Front(contents[1..], line)
  }

  function CutBack(line: Span, k: nat): Span {
    Span(line.start, if line.end <= k then line.end else k)
  }

  function Fronts(contents: seq<Bytes>, lines: seq<Span>): (r: seq<Span>)
    ensures |r| == |lines|
  {
    seq(|lines|, i requires 0 <= i < |lines| => Front(contents, lines[i]))
  }

  function CutAllBack(lines: seq<Span>, k: nat): (r: seq<Span>)
    ensures |r| == |lines|
  {
    seq(|lines|, i requires 0 <= i < |lines| => CutBack(lines[i], k))
  }

  /** A line is seen whole exactly if no poll ends inside it. */
  lemma {:induction false} FrontIsWhole(contents: seq<Bytes>, cursor: nat, line: Span)
    requires AppendOnly(contents, cursor) && line.start < line.end
    ensures Front(contents, line) == line <==>
              forall i :: 0 <= i < |contents| ==> !(line.start < |contents[i]| < line.end)
  {
    if contents != [] {
      var k := |contents[0]|;
      if line.start < k {
        assert forall i :: 0 <= i < |contents| ==> contents[0] <= contents[i];
      } else {
        var rest := contents[1..];
        assert forall i :: 0 <= i < |rest| ==> rest[i] == contents[i + 1];
        FrontIsWhole(rest, cursor, line);
      }
    }
  }

  predicate BeginsLine(bytes: Bytes, start: nat) {
    start <= |bytes| && (start == 0 || start == |bytes| || bytes[start - 1] == NEWLINE)
  }

  /** The lines of a file on either side of any cut: those that begin before it are read up to it. */
  lemma {:induction false} SpansCut(bytes: Bytes, start: nat, k: nat) returns (lines: seq<Span>)
    requires BeginsLine(bytes, start) && start <= k <= |bytes|
    ensures Spans(bytes, start) == lines + Spans(bytes, ParseStart(bytes, k))
    ensures Spans(bytes[..k], start) == CutAllBack(lines, k)
    ensures forall i :: 0 <= i < |lines| ==> lines[i].start < k
    decreases k - start
  {
    hide LineEnd, Spans;
    if start == k {
      lines := [];
      SpansNone(bytes[..k]);
      assert ParseStart(bytes, k) == k;
      assert [] + Spans(bytes, k) == Spans(bytes, k);
    } else {
      var e := LineEnd(bytes, start);
      LineEndOfPrefix(bytes, start, k);
      SpansUnfold(bytes, start);
      SpansUnfold(bytes[..k], start);
      var first := if e == start then [] else [Span(start, e)];
      if e < k {
        var more := SpansCut(bytes, e + 1, k);
        lines := first + more;
        hide ParseStart;
        Reassociate(first, more, Spans(bytes, ParseStart(bytes, k)));
        CutAllBackJoin(first, more, k);
        assert CutAllBack(first, k) == first;
      } else {
        lines := first;
        CutInside(bytes, start, k);
        SpansNone(bytes[..k]);
        assert CutAllBack(first, k) == [Span(start, k)] && [Span(start, k)] + [] == [Span(start, k)];
      }
    }
  }

  lemma CutInside(bytes: Bytes, start: nat, k: nat)
    requires start < k <= |bytes| && k <= LineEnd(bytes, start)
    ensures ParseStart(bytes, k) == NextLine(bytes, LineEnd(bytes, start))
  {
    assert bytes[k - 1] != NEWLINE;
    var e := LineEnd(bytes, start);
    if k < |bytes| {
      assert LineEnd(bytes, k) == e;
    }
  }

  lemma CutAllBackJoin(a: seq<Span>, b: seq<Span>, k: nat)
    ensures CutAllBack(a + b, k) == CutAllBack(a, k) + CutAllBack(b, k)
  {
  }

  /** The same for what a poll parses. */
  lemma PollCut(bytes: Bytes, cursor: nat, k: nat) returns (lines: seq<Span>)
    requires cursor <= k <= |bytes|
    ensures PollSpans(bytes, cursor) == lines + PollSpans(bytes, k)
    ensures PollSpans(bytes[..k], cursor) == CutAllBack(lines, k)
    ensures forall i :: 0 <= i < |lines| ==> lines[i].start < k
    ensures forall i :: 0 <= i < |PollSpans(bytes, k)| ==> k <= PollSpans(bytes, k)[i].start
  {
    var s, t := ParseStart(bytes, cursor), ParseStart(bytes[..k], cursor);
    if 0 < cursor < k && bytes[cursor - 1] != NEWLINE {
      LineEndOfPrefix(bytes, cursor, k);
    }
    assert k <= ParseStart(bytes, k);
    if s <= k {
      assert t == s && BeginsLine(bytes, s);
      lines := SpansCut(bytes, s, k);
    } else {
      assert t == k && ParseStart(bytes, k) == s;
      SpansNone(bytes[..k]);
      lines := [];
      assert [] + PollSpans(bytes, k) == PollSpans(bytes, k);
    }
  }

  lemma FrontsJoin(contents: seq<Bytes>, a: seq<Span>, b: seq<Span>)
    requires contents != []
    requires forall i :: 0 <= i < |a| ==> a[i].start < |contents[0]|
    requires forall i :: 0 <= i < |b| ==> |contents[0]| <= b[i].start
    ensures Fronts(contents, a + b) == CutAllBack(a, |contents[0]|) + Fronts(contents[1..], b)
  {
  }

  /** Every append-only history, whatever its cuts: the polls parse the lines of one read of the final file, each
      only as far as its front. */
  lemma {:induction false} TailSpansAreFronts(contents: seq<Bytes>, cursor: nat)
    requires contents != [] && AppendOnly(contents, cursor)
    ensures TailSpans(contents, cursor) == Fronts(contents, PollSpans(contents[|contents| - 1], cursor))
    ensures Within(TailSpans(contents, cursor), |contents[|contents| - 1]|)
  {
    var c, rest, final := contents[0], contents[1..], contents[|contents| - 1];
    var k := |c|;
    var now, later := PollSpans(c, cursor), TailSpans(rest, k);
    hide PollSpans, Fronts, CutAllBack, Within;
    if rest == [] {
      FrontsOfLast(contents, now);
      assert now + later == now;
    } else {
      assert c == final[..k];
      RestAppends(contents, cursor);
      TailSpansAreFronts(rest, k);
      var lines := PollCut(final, cursor, k);
      FrontsJoin(contents, lines, PollSpans(final, k));
      WithinJoin(now, k, later, |final|);
    }
  }

  lemma RestAppends(contents: seq<Bytes>, cursor: nat)
    requires contents != [] && AppendOnly(contents, cursor)
    ensures AppendOnly(contents[1..], |contents[0]|)
  {
    var rest := contents[1..];
    assert forall i :: 0 <= i < |rest| ==> rest[i] == contents[i + 1] && contents[0] <= contents[i + 1];
  }

  lemma FrontsOfLast(contents: seq<Bytes>, spans: seq<Span>)
    requires |contents| == 1 && Within(spans, |contents[0]|)
    ensures Fronts(contents, spans) == spans
  {
  }

  lemma WithinJoin(a: seq<Span>, k: nat, b: seq<Span>, n: nat)
    requires Within(a, k) && k <= n && Within(b, n)
    ensures Within(a + b, n)
  {
  }

  /** So incremental reading is one read of the final file in which every line that a poll cut in two is replaced
      by its front: the same entries, completions, deferrals and final flag, line by line. */
  lemma {:induction false} TailReadsFronts(rd: Reader, path: Path, contents: seq<Bytes>, cursor: nat, seen: bool)
    requires contents != [] && AppendOnly(contents, cursor)
    ensures var final := contents[|contents| - 1];
            var fronts := Fronts(contents, PollSpans(final, cursor));
            var first := rd.RequiresUserEntry() && seen;
            && Within(fronts, |final|)
            && TailActs(rd, contents, cursor, seen) == Acts(rd, final, fronts, first)
            && SameCompletions(Tail(rd, path, contents, cursor, seen),
                               Completions(path, final, fronts, Acts(rd, final, fronts, first)))
            && TailSeen(rd, contents, cursor, seen) ==
               if rd.RequiresUserEntry() then SeenAtEnd(rd, final, fronts, first) else seen
  {
    TailSpansAreFronts(contents, cursor);
    TailIsOneRead(rd, path, contents, cursor, seen);
  }

  lemma {:induction false} TailIsOneRead(rd: Reader, path: Path, contents: seq<Bytes>, cursor: nat, seen: bool)
    requires contents != [] && AppendOnly(contents, cursor)
    requires Within(TailSpans(contents, cursor), |contents[|contents| - 1]|)
    ensures var final, spans := contents[|contents| - 1], TailSpans(contents, cursor);
            var first := rd.RequiresUserEntry() && seen;
            && TailActs(rd, contents, cursor, seen) == Acts(rd, final, spans, first)
            && SameCompletions(Tail(rd, path, contents, cursor, seen),
                               Completions(path, final, spans, Acts(rd, final, spans, first)))
            && TailSeen(rd, contents, cursor, seen) ==
               if rd.RequiresUserEntry() then SeenAtEnd(rd, final, spans, first) else seen
  {
    hide PollSpans, Acts, SeenAtEnd, Completions, SameCompletion;
    var c, rest, final := contents[0], contents[1..], contents[|contents| - 1];
    var k, first := |c|, rd.RequiresUserEntry() && seen;
    var now, mid := PollSpans(c, cursor), PollSeen(rd, c, cursor, seen);
    assert c == final[..k];
    RestAppends(contents, cursor);
    hide AppendOnly;
    ActsPrefix(rd, final, k, now, first);
    var x := Acts(rd, final, now, first);
    CompletionsPrefix(path, final, k, now, x);
    if rest == [] {
      assert TailSpans(contents, cursor) == now && TailActs(rd, contents, cursor, seen) == x;
      assert Tail(rd, path, contents, cursor, seen) == PollCompletions(rd, path, c, cursor, seen);
    } else {
      var later := TailSpans(rest, k);
      WithinParts(now, later, |final|);
      TailIsOneRead(rd, path, rest, k, mid);
      if !rd.RequiresUserEntry() {
        NeverSeen(rd, final, now);
      }
      ActsAppend(rd, final, now, later, first);
      var y := Acts(rd, final, later, rd.RequiresUserEntry() && mid);
      CompletionsAppend(path, final, now, later, x, y);
      SameConcat(PollCompletions(rd, path, c, cursor, seen), Tail(rd, path, rest, k, mid),
                 Completions(path, final, now, x), Completions(path, final, later, y));
    }
  }

  lemma WithinParts(a: seq<Span>, b: seq<Span>, n: nat)
    requires Within(a + b, n)
    ensures Within(a, n) && Within(b, n)
  {
    assert forall i :: 0 <= i < |a| ==> (a + b)[i] == a[i];
    assert forall i :: 0 <= i < |b| ==> (a + b)[|a| + i] == b[i];
  }

  lemma {:induction false} GatherAppend(tasks: Bytes -> set<string>, bytes: Bytes, a: seq<Span>, b: seq<Span>)
    requires Within(a + b, |bytes|)
    ensures Within(a, |bytes|) && Within(b, |bytes|)
    ensures Gather(tasks, bytes, a + b) == Gather(tasks, bytes, a) + Gather(tasks, bytes, b)
  {
    assert forall i :: 0 <= i < |a| ==> a[i] == (a + b)[i];
    assert forall i :: 0 <= i < |b| ==> b[i] == (a + b)[|a| + i];
    if a == [] {
      assert a + b == b;
    } else {
      assert (a + b)[1..] == a[1..] + b;
      GatherAppend(tasks, bytes, a[1..], b);
    }
  }

  lemma {:induction false} GatherPrefix(tasks: Bytes -> set<string>, bytes: Bytes, k: nat, spans: seq<Span>)
    requires k <= |bytes| && Within(spans, k)
    ensures Gather(tasks, bytes[..k], spans) == Gather(tasks, bytes, spans)
  {
    if spans != [] {
      assert bytes[..k][spans[0].start..spans[0].end] == bytes[spans[0].start..spans[0].end];
      GatherPrefix(tasks, bytes, k, spans[1..]);
    }
  }

  /** A task finished in a prefix that ends at a line end is not pending in any longer one. */
  lemma FinishedIsForever(rd: Reader, bytes: Bytes, k: nat, task: string)
    requires k <= |bytes| && AtLineEnd(bytes, k) && task in Finished(rd, bytes[..k])
    ensures task !in Started(rd, bytes) - Finished(rd, bytes)
  {
    PollSplit(bytes, 0, k);
    var a, b := Spans(bytes[..k], 0), PollSpans(bytes, k);
    GatherAppend(rd.finished, bytes, a, b);
    GatherPrefix(rd.finished, bytes, k, a);
  }

  /** `has_pending_tasks_in_transcript`. */
  method HasPendingTasks(rd: Reader, bytes: Bytes) returns (r: bool)
    ensures r == Pending(rd, bytes)
  {
    hide LineEnd, Gather, Spans;
    var started, finished: set<string> := {}, {};
    var offset := 0;
    while offset < |bytes|
      invariant 0 <= offset <= |bytes| + 1
      invariant offset <= |bytes| ==>
                  && started + Gather(rd.started, bytes, Spans(bytes, offset)) == Started(rd, bytes)
                  && finished + Gather(rd.finished, bytes, Spans(bytes, offset)) == Finished(rd, bytes)
      invariant offset > |bytes| ==> started == Started(rd, bytes) && finished == Finished(rd, bytes)
    {
      GatherUnfold(rd.started, bytes, offset);
      GatherUnfold(rd.finished, bytes, offset);
      var lineEnd := LineEnd(bytes, offset);
      var line := bytes[offset..lineEnd];
      if line != [] {
        started := started + rd.started(line);
        finished := finished + rd.finished(line);
      }
      offset := lineEnd + 1;
    }
    assert offset == |bytes| ==> Gather(rd.started, bytes, Spans(bytes, offset)) == {} by {
      GatherNone(rd.started, bytes);
    }
    assert offset == |bytes| ==> Gather(rd.finished, bytes, Spans(bytes, offset)) == {} by {
      GatherNone(rd.finished, bytes);
    }
    var pending := started - finished;
    r := pending != {};
  }

  lemma GatherNone(tasks: Bytes -> set<string>, bytes: Bytes)
    ensures Gather(tasks, bytes, Spans(bytes, |bytes|)) == {}
  {
  }

  lemma GatherUnfold(tasks: Bytes -> set<string>, bytes: Bytes, offset: nat)
    requires offset < |bytes|
    ensures var e := LineEnd(bytes, offset);
            && NextLine(bytes, e) <= |bytes|
            && Gather(tasks, bytes, Spans(bytes, offset))
               == (if e == offset then {} else tasks(bytes[offset..e]))
                  + Gather(tasks, bytes, Spans(bytes, NextLine(bytes, e)))
    ensures Gather(tasks, bytes, Spans(bytes, |bytes|)) == {}
  {
    hide LineEnd;
    var e := LineEnd(bytes, offset);
    SpansUnfold(bytes, offset);
    if e > offset {
      assert Spans(bytes, offset)[1..] == Spans(bytes, NextLine(bytes, e));
    }
  }

  // The reader itself.

  /** What is left to complete, and the flag at the end, from a line start on. */
  function Ahead(rd: Reader, path: Path, bytes: Bytes, start: nat, seen: bool): (seq<LogCompletion>, bool)
    requires start <= |bytes|
  {
    var rest := Spans(bytes, start);
    (Completions(path, bytes, rest, Acts(rd, bytes, rest, seen)), SeenAtEnd(rd, bytes, rest, seen))
  }

  lemma AheadOfLine(rd: Reader, path: Path, bytes: Bytes, start: nat, seen: bool)
    requires start < |bytes|
    ensures var e := LineEnd(bytes, start);
            var next := NextLine(bytes, e);
            && start < next <= |bytes|
            && (e == start ==> Ahead(rd, path, bytes, start, seen) == Ahead(rd, path, bytes, next, seen))
            && (e > start ==>
                  var act := Judge(rd, bytes, Span(start, e), seen);
                  var (more, flag) := Ahead(rd, path, bytes, next, SeenAfter(rd, act, seen));
                  Ahead(rd, path, bytes, start, seen)
                  == ((if act.Emitted? then [LogCompletion(act.parsed, path, next)] else []) + more, flag))
  {
    hide Judge;
    var rest := Spans(bytes, start);
    var e := LineEnd(bytes, start);
    if e > start {
      assert rest[0] == Span(start, e) && rest[1..] == Spans(bytes, NextLine(bytes, e));
    }
  }

  /** The body of the loop over lines, for one non-empty line. */
  method ReadLine(rd: Reader, bytes: Bytes, sp: Span, seen: bool) returns (act: Act)
    requires sp.start < sp.end <= |bytes|
    ensures act == Judge(rd, bytes, sp, seen)
  {
    var parsed := rd.parse(bytes[sp.start..sp.end]);
    act := Skipped;
    match parsed
    case UserMessage(_) =>
      if rd.RequiresUserEntry() {
        act := UserEntry;
      }
    case TurnComplete(_, _) =>
      if !rd.RequiresUserEntry() || seen {
        var pending := false;
        if rd.provider.Antigravity? {
          pending := HasPendingTasks(rd, bytes[..sp.end]);
        }
        act := if pending then Deferred else Emitted(parsed);
      }
    case _ =>
  }

  /** `done` and what is ahead together are the goal. */
  predicate Remains(rd: Reader, path: Path, bytes: Bytes, start: nat, seen: bool, done: seq<LogCompletion>,
                    goal: (seq<LogCompletion>, bool))
    requires start <= |bytes|
  {
    var (more, flag) := Ahead(rd, path, bytes, start, seen);
    done + more == goal.0 && flag == goal.1
  }

  /** One turn of the loop. */
  lemma LineDone(rd: Reader, path: Path, bytes: Bytes, start: nat, seen: bool, done: seq<LogCompletion>,
                 goal: (seq<LogCompletion>, bool))
    requires start < |bytes| && Remains(rd, path, bytes, start, seen, done, goal)
    ensures var e := LineEnd(bytes, start);
            var next := NextLine(bytes, e);
            && start < next <= |bytes|
            && (e == start ==> Remains(rd, path, bytes, next, seen, done, goal))
            && (e > start ==>
                  var act := Judge(rd, bytes, Span(start, e), seen);
                  Remains(rd, path, bytes, next, SeenAfter(rd, act, seen),
                          if act.Emitted? then done + [LogCompletion(act.parsed, path, next)] else done, goal))
  {
    hide Ahead, Judge, SeenAfter;
    AheadOfLine(rd, path, bytes, start, seen);
  }

  function Marked(paths: set<Path>, path: Path, seen: bool): set<Path> {
    if seen then paths + {path} else paths - {path}
  }

  /** The loop over the lines of one file. The entry flag and the set of seen paths change together. */
  method ReadFile(rd: Reader, path: Path, bytes: Bytes, cursor: nat, paths: set<Path>)
    returns (completions: seq<LogCompletion>, seenPaths: set<Path>)
    ensures completions == PollCompletions(rd, path, bytes, cursor, path in paths)
    ensures seenPaths == Marked(paths, path, PollSeen(rd, bytes, cursor, path in paths))
  {
    hide Spans, Acts, Completions, SeenAtEnd, Judge, ParseStart, Remains;
    completions, seenPaths := [], paths;
    var requiresUserEntry := rd.RequiresUserEntry();
    if requiresUserEntry && cursor > |bytes| {
      seenPaths := seenPaths - {path};
    }
    var seenUserEntry := requiresUserEntry && path in seenPaths;
    var lineStart := ParseStart(bytes, cursor);
    ghost var goal := Ahead(rd, path, bytes, lineStart, seenUserEntry);
    AllRemains(rd, path, bytes, lineStart, seenUserEntry);
    while lineStart < |bytes|
      invariant 0 <= lineStart <= |bytes|
      invariant seenPaths == Marked(paths, path, if requiresUserEntry then seenUserEntry else path in paths)
      invariant !requiresUserEntry ==> !seenUserEntry
      invariant Remains(rd, path, bytes, lineStart, seenUserEntry, completions, goal)
    {
      LineDone(rd, path, bytes, lineStart, seenUserEntry, completions, goal);
      var lineEnd := LineEnd(bytes, lineStart);
      var nextLineStart := if lineEnd < |bytes| && bytes[lineEnd] == NEWLINE then lineEnd + 1 else lineEnd;
      if lineEnd == lineStart {
        lineStart := nextLineStart;
        continue;
      }
      var act := ReadLine(rd, bytes, Span(lineStart, lineEnd), seenUserEntry);
      JudgeShape(rd, bytes, Span(lineStart, lineEnd), seenUserEntry);
      match act {
      case UserEntry =>
        seenUserEntry := true;
        seenPaths := seenPaths + {path};
      case Emitted(parsed) =>
        completions := completions + [LogCompletion(parsed, path, nextLineStart)];
        if requiresUserEntry {
          seenUserEntry := false;
          seenPaths := seenPaths - {path};
        }
      case _ =>
      }
      assert nextLineStart != lineStart;  // so the no-progress exit of the loop is never taken
      lineStart := nextLineStart;
    }
    NothingRemains(rd, path, bytes, seenUserEntry, completions, goal);
  }

  lemma AllRemains(rd: Reader, path: Path, bytes: Bytes, start: nat, seen: bool)
    requires start <= |bytes|
    ensures Remains(rd, path, bytes, start, seen, [], Ahead(rd, path, bytes, start, seen))
  {
  }

  lemma NothingRemains(rd: Reader, path: Path, bytes: Bytes, seen: bool, done: seq<LogCompletion>,
                       goal: (seq<LogCompletion>, bool))
    requires Remains(rd, path, bytes, |bytes|, seen, done, goal)
    ensures goal.0 == done && goal.1 == seen
  {
    NothingAhead(rd, path, bytes, seen);
    assert done + [] == done;
  }

  lemma JudgeShape(rd: Reader, bytes: Bytes, sp: Span, seen: bool)
    requires sp.start <= sp.end <= |bytes|
    ensures Judge(rd, bytes, sp, seen).UserEntry? ==> rd.RequiresUserEntry()
  {
  }

  lemma NothingAhead(rd: Reader, path: Path, bytes: Bytes, seen: bool)
    ensures Ahead(rd, path, bytes, |bytes|, seen) == ([], seen)
  {
  }

  // Several files.

  datatype File = File(path: Path, bytes: Bytes)

  function CursorOf(cursors: map<Path, nat>, path: Path): nat {
    if path in cursors then cursors[path] else 0
  }

  function AfterFile(rd: Reader, f: File, cursor: nat, st: LogReadState): LogReadState {
    var paths := st.userEntrySeenPaths;
    LogReadState(st.cursors[f.path := |f.bytes|], Marked(paths, f.path, PollSeen(rd, f.bytes, cursor, f.path in paths)))
  }

  /** One poll over the files of a log root. Cursors are those of the state the poll began with. */
  function ReadAll(rd: Reader, files: seq<File>, cursors: map<Path, nat>, st: LogReadState):
    (seq<LogCompletion>, LogReadState)
  {
    if files == [] then ([], st) else
      var f := files[0];
      var cursor := CursorOf(cursors, f.path);
      var (more, end) := ReadAll(rd, files[1..], cursors, AfterFile(rd, f, cursor, st));
      (PollCompletions(rd, f.path, f.bytes, cursor, f.path in st.userEntrySeenPaths) + more, end)
  }

  /** `read_provider_log_tail_with_state`, after the files of the root have been listed and sorted. */
  method ReadProviderLogTail(rd: Reader, files: seq<File>, state: LogReadState)
    returns (completions: seq<LogCompletion>, updated: LogReadState)
    ensures (completions, updated) == ReadAll(rd, files, state.cursors, state)
  {
    hide PollCompletions, PollSeen, ReadAll;
    completions, updated := [], state;
    ghost var goal := ReadAll(rd, files, state.cursors, state);
    assert files[0..] == files;
    var i := 0;
    while i < |files|
      invariant 0 <= i <= |files|
      invariant completions + ReadAll(rd, files[i..], state.cursors, updated).0 == goal.0
      invariant ReadAll(rd, files[i..], state.cursors, updated).1 == goal.1
    {
      var f := files[i];
      ReadAllUnfold(rd, files, i, state.cursors, updated);
      var cursor := if f.path in state.cursors then state.cursors[f.path] else 0;
      var found, paths := ReadFile(rd, f.path, f.bytes, cursor, updated.userEntrySeenPaths);
      completions := completions + found;
      updated := LogReadState(updated.cursors[f.path := |f.bytes|], paths);
      i := i + 1;
    }
    assert files[i..] == [];
    ReadNone(rd, state.cursors, updated);
    assert completions == goal.0;
  }

  lemma ReadNone(rd: Reader, cursors: map<Path, nat>, st: LogReadState)
    ensures ReadAll(rd, [], cursors, st) == ([], st)
  {
  }

  lemma ReadAllUnfold(rd: Reader, files: seq<File>, i: nat, cursors: map<Path, nat>, st: LogReadState)
    requires i < |files|
    ensures var f := files[i];
            var cursor := CursorOf(cursors, f.path);
            var rest := ReadAll(rd, files[i + 1..], cursors, AfterFile(rd, f, cursor, st));
            && ReadAll(rd, files[i..], cursors, st).0
               == PollCompletions(rd, f.path, f.bytes, cursor, f.path in st.userEntrySeenPaths) + rest.0
            && ReadAll(rd, files[i..], cursors, st).1 == rest.1
  {
    hide PollCompletions, AfterFile;
    assert files[i..][0] == files[i] && files[i..][1..] == files[i + 1..];
  }

  predicate DistinctPaths(files: seq<File>) {
    forall i, j :: 0 <= i < j < |files| ==> files[i].path != files[j].path
  }

  function OfPath(cs: seq<LogCompletion>, path: Path): seq<LogCompletion> {
    if cs == [] then [] else (if cs[0].rawPath == path then [cs[0]] else []) + OfPath(cs[1..], path)
  }

  lemma {:induction false} OfPathAppend(a: seq<LogCompletion>, b: seq<LogCompletion>, path: Path)
    ensures OfPath(a + b, path) == OfPath(a, path) + OfPath(b, path)
  {
    if a == [] {
      assert a + b == b;
    } else {
      OfPathFirst(a + b, path);
      OfPathFirst(a, path);
      hide OfPath;
      assert (a + b)[1..] == a[1..] + b;
      OfPathAppend(a[1..], b, path);
      var first := if a[0].rawPath == path then [a[0]] else [];
      Reassociate(first, OfPath(a[1..], path), OfPath(b, path));
    }
  }

  lemma OfPathFirst(cs: seq<LogCompletion>, path: Path)
    requires cs != []
    ensures OfPath(cs, path) == (if cs[0].rawPath == path then [cs[0]] else []) + OfPath(cs[1..], path)
  {
  }

  lemma {:induction false} OfPathCompletions(of: Path, bytes: Bytes, spans: seq<Span>, acts: seq<Act>, path: Path)
    requires |acts| == |spans|
    ensures var cs := Completions(of, bytes, spans, acts); OfPath(cs, path) == if path == of then cs else []
  {
    if spans != [] {
      var more := Completions(of, bytes, spans[1..], acts[1..]);
      OfPathCompletions(of, bytes, spans[1..], acts[1..], path);
      OfPathAppend(CompletionOf(of, bytes, spans[0], acts[0]), more, path);
    }
  }

  function ContentOf(files: seq<File>, path: Path): Option<Bytes> {
    if files == [] then None
    else if files[0].path == path then Some(files[0].bytes)
    else ContentOf(files[1..], path)
  }

  lemma {:induction false} AbsentPath(files: seq<File>, path: Path)
    requires forall i :: 0 <= i < |files| ==> files[i].path != path
    ensures ContentOf(files, path) == None
  {
    if files != [] {
      AbsentPath(files[1..], path);
    }
  }

  /** A poll over several files does for each path what a poll of that file alone would do. */
  lemma {:induction false} PollDecomposes(rd: Reader, files: seq<File>, cursors: map<Path, nat>, st: LogReadState,
                                          path: Path)
    requires DistinctPaths(files)
    ensures var (cs, end) := ReadAll(rd, files, cursors, st);
            var seen := path in st.userEntrySeenPaths;
            match ContentOf(files, path)
            case Some(bytes) =>
              && OfPath(cs, path) == PollCompletions(rd, path, bytes, CursorOf(cursors, path), seen)
              && CursorOf(end.cursors, path) == |bytes|
              && (path in end.userEntrySeenPaths <==> PollSeen(rd, bytes, CursorOf(cursors, path), seen))
            case None =>
              && OfPath(cs, path) == []
              && CursorOf(end.cursors, path) == CursorOf(st.cursors, path)
              && (path in end.userEntrySeenPaths <==> seen)
  {
    hide PollSeen, PollCompletions, ReadAll, OfPath;
    if files == [] {
      ReadNone(rd, cursors, st);
      OfPathNone(path);
    } else {
      var f, rest := files[0], files[1..];
      var cursor := CursorOf(cursors, f.path);
      var now := PollCompletions(rd, f.path, f.bytes, cursor, f.path in st.userEntrySeenPaths);
      var next := AfterFile(rd, f, cursor, st);
      ReadAllUnfold(rd, files, 0, cursors, st);
      assert files[0..] == files;
      PollDecomposes(rd, rest, cursors, next, path);
      OfPathAppend(now, ReadAll(rd, rest, cursors, next).0, path);
      OfPathPoll(rd, f.path, f.bytes, cursor, f.path in st.userEntrySeenPaths, path);
      if f.path == path {
        assert forall i :: 0 <= i < |rest| ==> rest[i] == files[i + 1];
        AbsentPath(rest, path);
      }
    }
  }

  lemma OfPathNone(path: Path)
    ensures OfPath([], path) == []
  {
  }

  lemma OfPathPoll(rd: Reader, of: Path, bytes: Bytes, cursor: nat, seen: bool, path: Path)
    ensures var cs := PollCompletions(rd, of, bytes, cursor, seen); OfPath(cs, path) == if path == of then cs else []
  {
    hide Completions, PollSpans, PollActs, OfPath;
    OfPathCompletions(of, bytes, PollSpans(bytes, cursor), PollActs(rd, bytes, cursor, seen), path);
  }

  /** The completions of successive polls over a log root in which files come and go. */
  function Polls(rd: Reader, polls: seq<seq<File>>, st: LogReadState): seq<LogCompletion> {
    if polls == [] then [] else
      var (now, next) := ReadAll(rd, polls[0], st.cursors, st);
      now + Polls(rd, polls[1..], next)
  }

  function History(polls: seq<seq<File>>, path: Path): seq<Bytes> {
    if polls == [] then [] else
      (match ContentOf(polls[0], path) case Some(b) => [b] case None => []) + History(polls[1..], path)
  }

  /** Whatever the other files do, the completions of a path are those of tailing that path alone. */
  lemma {:induction false} PollsDecompose(rd: Reader, polls: seq<seq<File>>, st: LogReadState, path: Path)
    requires forall i :: 0 <= i < |polls| ==> DistinctPaths(polls[i])
    ensures OfPath(Polls(rd, polls, st), path)
            == Tail(rd, path, History(polls, path), if path in st.cursors then st.cursors[path] else 0,
                    path in st.userEntrySeenPaths)
  {
    hide ReadAll, PollCompletions, PollSeen, ContentOf;
    if polls != [] {
      var (now, next) := ReadAll(rd, polls[0], st.cursors, st);
      PollDecomposes(rd, polls[0], st.cursors, st, path);
      PollsDecompose(rd, polls[1..], next, path);
      OfPathAppend(now, Polls(rd, polls[1..], next), path);
      var rest := History(polls[1..], path);
      match ContentOf(polls[0], path) {
      case Some(b) => assert ([b] + rest)[1..] == rest;
      case None => assert [] + rest == rest;
      }
    }
  }
}
