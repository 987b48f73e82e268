/** The planner of the systemd edit of wsl.conf (src/cli/setup.rs). */
module WslConf {
  import opened Common

  // Text: lines, trimming, ASCII case.

  predicate White(c: char) {
    '\t' <= c <= '\r' || c == ' ' || c == '\U{0085}' || c == '\U{00A0}' || c == '\U{1680}'
    || '\U{2000}' <= c <= '\U{200A}'
    || c == '\U{2028}' || c == '\U{2029}' || c == '\U{202F}' || c == '\U{205F}' || c == '\U{3000}'
  }

  function TrimStart(s: string): string {
    if s != "" && White(s[0]) then TrimStart(s[1..]) else s
  }

  function TrimEnd(s: string): string {
    if s != "" && White(s[|s| - 1]) then TrimEnd(s[..|s| - 1]) else s
  }

  function Trim(s: string): string {
    TrimEnd(TrimStart(s))
  }

  function Lower(c: char): char {
    if 'A' <= c <= 'Z' then (c as int + 32) as char else c
  }

  predicate EqIgnoreCase(a: string, b: string) {
    |a| == |b| && forall i :: 0 <= i < |a| ==> Lower(a[i]) == Lower(b[i])
  }

  function Find(s: string, c: char): (i: nat)
    ensures i <= |s| && c !in s[..i] && (i < |s| ==> s[i] == c)
  {
    if s == "" || s[0] == c then 0 else
      var i := Find(s[1..], c);
      assert s[..i + 1] == [s[0]] + s[1..][..i];
      i + 1
  }

  function StripCr(line: string): string {
    if line != "" && line[|line| - 1] == '\r' then line[..|line| - 1] else line
  }

  /** `str::lines`: a line ends before its newline and one carriage return in front of it. */
  function Lines(s: string): seq<string>
    decreases |s|
  {
    var i := Find(s, '\n');
    if s == "" then [] else if i == |s| then [s] else [StripCr(s[..i])] + Lines(s[i + 1..])
  }

  /** The lines with a newline between any two and one at the end. */
  function Join(lines: seq<string>): string {
    if lines == [] then "\n" else if |lines| == 1 then lines[0] + "\n" else lines[0] + "\n" + Join(lines[1..])
  }

  function TrimAll(lines: seq<string>): (r: seq<string>)
    ensures |r| == |lines|
  {
    seq(|lines|, i requires 0 <= i < |lines| => Trim(lines[i]))
  }

  // The file format.

  predicate Header(t: string) {
    t != "" && t[0] == '[' && t[|t| - 1] == ']'
  }

  predicate Skipped(t: string) {
    t == "" || t[0] == '#' || t[0] == ';'
  }

  predicate ValidLine(t: string) {
    Skipped(t) || (Header(t) && |t| > 2) || '=' in t
  }

  predicate Valid(ts: seq<string>) {
    forall i :: 0 <= i < |ts| ==> ValidLine(ts[i])
  }

  predicate IsBoot(t: string) {
    Header(t) && EqIgnoreCase(t, BOOT)
  }

  predicate HasKey(t: string, key: string) {
    '=' in t && EqIgnoreCase(Trim(t[..Find(t, '=')]), key)
  }

  predicate Systemd(t: string) {
    HasKey(t, "systemd")
  }

  const BOOT := "[boot]"
  const ENABLED := "systemd=true"

  predicate SaysTrue(t: string) {
    EqIgnoreCase(t, ENABLED)
  }

  /** A setting: the header of its section ("" before the first one) and its trimmed line. */
  datatype Entry = Entry(section: string, line: string)

  predicate IsEntry(t: string) {
    !Skipped(t) && !Header(t) && '=' in t
  }

  function Section(section: string, t: string): string {
    if Header(t) then t else section
  }

  function SectionAfter(section: string, ts: seq<string>): string {
    if ts == [] then section else Section(SectionAfter(section, ts[..|ts| - 1]), ts[|ts| - 1])
  }

  function Entries(section: string, ts: seq<string>): seq<Entry> {
    if ts == [] then [] else
      var t := ts[|ts| - 1];
      Entries(section, ts[..|ts| - 1]) + if IsEntry(t) then [Entry(SectionAfter(section, ts[..|ts| - 1]), t)] else []
  }

  predicate IsBootSystemd(e: Entry) {
    IsBoot(e.section) && Systemd(e.line)
  }

  function Others(es: seq<Entry>): seq<Entry> {
    if es == [] then [] else
      var e := es[|es| - 1];
      Others(es[..|es| - 1]) + if IsBootSystemd(e) then [] else [e]
  }

  /** The settings of a text other than systemd of the boot section. */
  function OtherSettings(text: string): seq<Entry> {
    Others(Entries("", TrimAll(Lines(text))))
  }

  // The plan.

  datatype Edit = AlreadyEnabled | Write(before: string, after: string) | Malformed(line: nat, text: string)

  /** The scan for the boot section, from line `i`: its last header and the end of its lines. */
  function Scan(ts: seq<string>, i: nat, start: Option<nat>): (r: (Option<nat>, nat))
    requires i <= |ts| && (start.Some? ==> start.value < i)
    ensures r.1 <= |ts| && (r.0.Some? ==> r.0.value < r.1)
    decreases |ts| - i
  {
    if i == |ts| then (start, |ts|)
    else if IsBoot(ts[i]) then Scan(ts, i + 1, Some(i))
    else if Header(ts[i]) && start.Some? then (start, i)
    else Scan(ts, i + 1, start)
  }

  function FirstSystemd(ts: seq<string>, i: nat, end: nat): (k: nat)
    requires i <= end <= |ts|
    ensures i <= k <= end
    ensures forall j :: i <= j < k ==> !Systemd(ts[j])
    ensures k < end ==> Systemd(ts[k])
    decreases end - i
  {
    if i == end || Systemd(ts[i]) then i else FirstSystemd(ts, i + 1, end)
  }

  function FirstInvalid(ts: seq<string>): (k: nat)
    ensures k <= |ts| && (forall j :: 0 <= j < k ==> ValidLine(ts[j])) && (k < |ts| ==> !ValidLine(ts[k]))
  {
    if ts == [] || !ValidLine(ts[0]) then 0 else
      var k := FirstInvalid(ts[1..]);
      assert forall j :: 0 < j < |ts| ==> ts[1..][j - 1] == ts[j];
      k + 1
  }

  /** `[boot]` is the header of the lines in between, and `end` the first header after it that is not. */
  predicate Region(ts: seq<string>, start: nat, end: nat) {
    && start < end <= |ts|
    && IsBoot(ts[start])
    && (forall i :: start < i < end ==> !Header(ts[i]))
    && (end < |ts| ==> Header(ts[end]) && !IsBoot(ts[end]))
    && (forall i, j :: 0 <= i < j < end && IsBoot(ts[i]) && Header(ts[j]) ==> IsBoot(ts[j]))
  }

  datatype Change = Keep | Replace(at: nat) | Insert(at: nat) | AppendSection(gap: seq<string>)

  /** What to do with lines that are all valid. */
  function ChangeOf(ts: seq<string>): (change: Change)
    ensures Fits(change, |ts|)
  {
    var (start, end) := Scan(ts, 0, None);
    match start
    case Some(b) =>
      var k := FirstSystemd(ts, b + 1, end);
      if k == end then Insert(b + 1) else if SaysTrue(ts[k]) then Keep else Replace(k)
    case None => AppendSection(if ts != [] && ts[|ts| - 1] != "" then [""] else [])
  }

  predicate Fits(change: Change, n: nat) {
    (change.Replace? ==> change.at < n) && (change.Insert? ==> change.at <= n)
  }

  predicate Gap(gap: seq<string>) {
    gap == [] || gap == [""]
  }

  function Changed(lines: seq<string>, change: Change, boot: string, line: string): seq<string>
    requires Fits(change, |lines|)
  {
    match change
    case Keep => lines
    case Replace(k) => lines[k := line]
    case Insert(k) => lines[..k] + [line] + lines[k..]
    case AppendSection(gap) => lines + gap + [boot, line]
  }

  function Plan(content: Option<string>): Edit {
    var before := TextOf(content);
    var lines := Lines(before);
    var ts := TrimAll(lines);
    var bad := FirstInvalid(ts);
    if bad < |ts| then Malformed(bad + 1, ts[bad])
    else
      var change := ChangeOf(ts);
      if change.Keep? then AlreadyEnabled
      else Write(before, Join(Changed(lines, change, BOOT, ENABLED)))
  }

  // Reading back what was joined.

  predicate OneLine(s: string) {
    '\n' !in s
  }

  predicate AllOneLine(lines: seq<string>) {
    forall i :: 0 <= i < |lines| ==> OneLine(lines[i])
  }

  lemma {:induction false} LinesAreSingle(s: string)
    ensures AllOneLine(Lines(s))
    decreases |s|
  {
    var i := Find(s, '\n');
    if i < |s| {
      assert OneLine(s[..i]) && s == s[..i] + ['\n'] + s[i + 1..];
      hide Lines, OneLine, StripCr, Find;
      LinesAreSingle(s[i + 1..]);
      StripIsOneLine(s[..i]);
      FirstLine(s[..i], s[i + 1..]);
    } else {
      LastLineIsSingle(s);
    }
  }

  lemma LastLineIsSingle(s: string)
    requires Find(s, '\n') == |s|
    ensures AllOneLine(Lines(s))
  {
    assert s[..|s|] == s;
  }

  lemma StripIsOneLine(line: string)
    requires OneLine(line)
    ensures OneLine(StripCr(line))
  {
  }

  lemma FindAfter(a: string, c: char, b: string)
    requires c !in a
    ensures Find(a + [c] + b, c) == |a|
  {
    var s := a + [c] + b;
    var i := Find(s, c);
    assert s[|a|] == c && forall j :: 0 <= j < |a| ==> s[j] == a[j];
  }

  lemma FirstLine(a: string, rest: string)
    requires OneLine(a)
    ensures Lines(a + ['\n'] + rest) == [StripCr(a)] + Lines(rest)
  {
    hide StripCr;
    FindAfter(a, '\n', rest);
    var s := a + ['\n'] + rest;
    assert s[..|a|] == a && s[|a| + 1..] == rest;
  }

  lemma {:induction false} JoinThenLines(lines: seq<string>)
    requires lines != [] && AllOneLine(lines)
    ensures |Lines(Join(lines))| == |lines|
    ensures forall i :: 0 <= i < |lines| ==> Lines(Join(lines))[i] == StripCr(lines[i])
  {
    var rest := if |lines| == 1 then "" else Join(lines[1..]);
    assert Join(lines) == lines[0] + ['\n'] + rest;
    assert OneLine(lines[0]) && Lines("") == [];
    hide StripCr, Lines, Join, OneLine;
    FirstLine(lines[0], rest);
    if |lines| > 1 {
      JoinThenLines(lines[1..]);
    }
  }

  lemma {:induction false} TrimStartAppends(m: string, w: char)
    requires White(w)
    ensures TrimStart(m + [w]) == if TrimStart(m) == "" then "" else TrimStart(m) + [w]
  {
    if m == "" {
      assert m + [w] == [w] && [w][1..] == "";
    } else if White(m[0]) {
      assert (m + [w])[1..] == m[1..] + [w];
      TrimStartAppends(m[1..], w);
    }
  }

  lemma TrimIgnoresEnd(m: string, w: char)
    requires White(w)
    ensures Trim(m + [w]) == Trim(m)
  {
    TrimStartAppends(m, w);
    var x := TrimStart(m);
    assert (x + [w])[..|x|] == x;
  }

  lemma TrimStripCr(line: string)
    ensures Trim(StripCr(line)) == Trim(line)
  {
    if StripCr(line) != line {
      assert line == line[..|line| - 1] + ['\r'];
      TrimIgnoresEnd(line[..|line| - 1], '\r');
    }
  }

  /** Joining lines and reading them again changes none of them up to trimming. */
  lemma JoinRoundTrip(lines: seq<string>)
    requires lines != [] && AllOneLine(lines)
    ensures TrimAll(Lines(Join(lines))) == TrimAll(lines)
  {
    JoinThenLines(lines);
    hide Trim, StripCr;
    forall i | 0 <= i < |lines|
      ensures TrimAll(Lines(Join(lines)))[i] == TrimAll(lines)[i]
    {
      TrimStripCr(lines[i]);
    }
  }

  lemma TrimFixed(s: string)
    requires s != "" && !White(s[0]) && !White(s[|s| - 1])
    ensures Trim(s) == s
  {
  }

  lemma {:induction false} TrimEndKeepsHead(s: string)
    requires s != "" && !White(s[0])
    ensures TrimEnd(s) != "" && TrimEnd(s)[0] == s[0]
  {
    if White(s[|s| - 1]) {
      TrimEndKeepsHead(s[..|s| - 1]);
    }
  }

  // The texts that the planner writes.

  lemma KeyOf(key: string, value: string)
    requires key != "" && '=' !in key && !White(key[0]) && !White(key[|key| - 1])
    ensures HasKey(key + ['='] + value, key)
  {
    TrimFixed(key);
    hide Trim, White, Find;
    FindAfter(key, '=', value);
    assert (key + ['='] + value)[..|key|] == key;
    assert (key + ['='] + value)[|key|] == '=';
  }

  lemma EnabledSetting()
    ensures Systemd(ENABLED)
  {
    hide HasKey;
    KeyOf("systemd", "true");
    assert ENABLED == "systemd" + ['='] + "true";
  }

  lemma EnabledLine()
    ensures Trim(ENABLED) == ENABLED && !Header(ENABLED) && IsEntry(ENABLED) && Systemd(ENABLED)
    ensures SaysTrue(ENABLED) && ValidLine(ENABLED) && OneLine(ENABLED)
  {
    EnabledSetting();
    hide Systemd;
    TrimFixed(ENABLED);
    hide Trim;
    assert ENABLED[7] == '=';
  }

  lemma BootLine()
    ensures Trim(BOOT) == BOOT && IsBoot(BOOT) && ValidLine(BOOT) && OneLine(BOOT)
  {
    TrimFixed(BOOT);
  }

  lemma CommentIsNotSystemd(t: string)
    requires Skipped(t)
    ensures !Systemd(t)
  {
    if '=' in t {
      var key := t[..Find(t, '=')];
      assert key != "" && key[0] == t[0];
      TrimEndKeepsHead(key);
    }
  }

  /** A systemd line is a setting, not a comment. */
  lemma SystemdIsEntry(t: string)
    requires Systemd(t) && !Header(t)
    ensures IsEntry(t)
  {
    if Skipped(t) {
      CommentIsNotSystemd(t);
    }
  }

  // The region.

  lemma {:induction false} ScanFrom(ts: seq<string>, i: nat, start: Option<nat>)
    requires i <= |ts|
    requires start.None? ==> forall j :: 0 <= j < i ==> !IsBoot(ts[j])
    requires start.Some? ==> start.value < i && IsBoot(ts[start.value])
    requires start.Some? ==> forall j :: start.value < j < i ==> !Header(ts[j])
    requires forall a, b :: 0 <= a < b < i && IsBoot(ts[a]) && Header(ts[b]) ==> IsBoot(ts[b])
    ensures var (s, e) := Scan(ts, i, start);
            if s.Some? then Region(ts, s.value, e) else forall j :: 0 <= j < |ts| ==> !IsBoot(ts[j])
    decreases |ts| - i
  {
    if i < |ts| {
      if IsBoot(ts[i]) {
        ScanFrom(ts, i + 1, Some(i));
      } else if !(Header(ts[i]) && start.Some?) {
        ScanFrom(ts, i + 1, start);
      }
    }
  }

  /** The scan finds a region, or there is no boot header at all. */
  lemma ScanFinds(ts: seq<string>)
    ensures var (s, e) := Scan(ts, 0, None);
            if s.Some? then Region(ts, s.value, e) else forall j :: 0 <= j < |ts| ==> !IsBoot(ts[j])
  {
    ScanFrom(ts, 0, None);
  }

  lemma {:induction false} ScanTo(ts: seq<string>, i: nat, start: Option<nat>, s: nat, e: nat)
    requires Region(ts, s, e) && i <= e
    requires if i <= s then start.Some? ==> start.value < i && IsBoot(ts[start.value]) else start == Some(s)
    ensures Scan(ts, i, start) == (Some(s), e)
    decreases |ts| - i
  {
    if i < e {
      if IsBoot(ts[i]) {
        ScanTo(ts, i + 1, Some(i), s, e);
      } else {
        ScanTo(ts, i + 1, start, s, e);
      }
    }
  }

  /** There is only one region, and the scan finds it. */
  lemma RegionIsScanned(ts: seq<string>, s: nat, e: nat)
    requires Region(ts, s, e)
    ensures Scan(ts, 0, None) == (Some(s), e)
  {
    ScanTo(ts, 0, None, s, e);
  }

  // Settings.

  lemma {:induction false} EntriesJoin(section: string, a: seq<string>, b: seq<string>)
    ensures SectionAfter(section, a + b) == SectionAfter(SectionAfter(section, a), b)
    ensures Entries(section, a + b) == Entries(section, a) + Entries(SectionAfter(section, a), b)
  {
    hide IsEntry, Section;
    if b == [] {
      assert a + b == a;
    } else {
      assert (a + b)[..|a + b| - 1] == a + b[..|b| - 1];
      EntriesJoin(section, a, b[..|b| - 1]);
    }
  }

  lemma {:induction false} OthersJoin(a: seq<Entry>, b: seq<Entry>)
    ensures Others(a + b) == Others(a) + Others(b)
  {
    hide IsBootSystemd;
    if b == [] {
      assert a + b == a;
    } else {
      assert (a + b)[..|a + b| - 1] == a + b[..|b| - 1];
      OthersJoin(a, b[..|b| - 1]);
    }
  }

  lemma OtherEntriesJoin(section: string, a: seq<string>, b: seq<string>)
    ensures Others(Entries(section, a + b)) ==
            Others(Entries(section, a)) + Others(Entries(SectionAfter(section, a), b))
  {
    EntriesJoin(section, a, b);
    OthersJoin(Entries(section, a), Entries(SectionAfter(section, a), b));
  }

  /** Lines that keep the section and show the same other settings can be exchanged anywhere. */
  lemma Exchange(section: string, a: seq<string>, was: seq<string>, now: seq<string>, b: seq<string>)
    requires var at := SectionAfter(section, a);
             && Others(Entries(at, was)) == Others(Entries(at, now))
             && SectionAfter(at, was) == SectionAfter(at, now)
    ensures Others(Entries(section, a + was + b)) == Others(Entries(section, a + now + b))
  {
    hide Others, Entries, SectionAfter;
    EntriesJoin(section, a, was);
    EntriesJoin(section, a, now);
    OtherEntriesJoin(section, a, was);
    OtherEntriesJoin(section, a, now);
    OtherEntriesJoin(section, a + was, b);
    OtherEntriesJoin(section, a + now, b);
  }

  lemma {:induction false} SectionInRegion(ts: seq<string>, s: nat, e: nat, k: nat)
    requires Region(ts, s, e) && s < k <= e
    ensures SectionAfter("", ts[..k]) == ts[s]
  {
    assert ts[..k][..k - 1] == ts[..k - 1];
    if k > s + 1 {
      SectionInRegion(ts, s, e, k - 1);
    }
  }

  lemma OneEntry(section: string, t: string)
    requires IsEntry(t)
    ensures Entries(section, [t]) == [Entry(section, t)]
  {
    hide IsEntry;
    assert [t][..0] == [];
  }

  lemma OneSection(section: string, t: string)
    ensures SectionAfter(section, [t]) == Section(section, t)
  {
    hide Section;
    assert [t][..0] == [];
  }

  lemma OneOther(e: Entry)
    ensures Others([e]) == if IsBootSystemd(e) then [] else [e]
  {
    hide IsBootSystemd;
    assert [e][..0] == [];
  }

  /** A systemd line of the boot section is none of the other settings. */
  lemma NoOther(section: string, t: string)
    requires IsBoot(section) && Systemd(t) && !Header(t)
    ensures Others(Entries(section, [t])) == [] && SectionAfter(section, [t]) == section
  {
    hide Systemd, IsBoot, IsEntry, Header, Entries, Others, SectionAfter;
    SystemdIsEntry(t);
    OneEntry(section, t);
    OneOther(Entry(section, t));
    OneSection(section, t);
  }

  // The three edits.

  lemma ReplaceKeepsRegion(ts: seq<string>, s: nat, e: nat, k: nat, line: string)
    requires Region(ts, s, e) && s < k < e && !Header(line)
    ensures Region(ts[k := line], s, e)
  {
    hide EqIgnoreCase;
  }

  lemma InsertKeepsRegion(ts: seq<string>, s: nat, e: nat, line: string)
    requires Region(ts, s, e) && !Header(line)
    ensures Region(ts[..s + 1] + [line] + ts[s + 1..], s, e + 1)
  {
    hide EqIgnoreCase;
    var next := ts[..s + 1] + [line] + ts[s + 1..];
    assert forall j :: 0 <= j <= s ==> next[j] == ts[j];
    assert next[s + 1] == line;
    assert forall j :: s + 1 < j < |next| ==> next[j] == ts[j - 1];
  }

  /** Writing a systemd line over another, or a new one, in the boot section shows the same others. */
  lemma SameOthers(ts: seq<string>, s: nat, e: nat, k: nat, was: seq<string>, line: string, b: seq<string>)
    requires Systemd(line) && !Header(line)
    requires Region(ts, s, e) && s < k <= e && ts == ts[..k] + was + b
    requires was == [] || (|was| == 1 && Systemd(was[0]) && !Header(was[0]))
    ensures Others(Entries("", ts[..k] + [line] + b)) == Others(Entries("", ts))
  {
    SectionInRegion(ts, s, e, k);
    hide Region, Systemd, IsEntry, EqIgnoreCase, Header;
    NoOther(ts[s], line);
    if was != [] {
      assert was == [was[0]];
      NoOther(ts[s], was[0]);
    }
    Exchange("", ts[..k], was, [line], b);
  }

  lemma FirstIs(ts: seq<string>, i: nat, end: nat, k: nat)
    requires i <= k < end <= |ts| && Systemd(ts[k]) && forall j :: i <= j < k ==> !Systemd(ts[j])
    ensures FirstSystemd(ts, i, end) == k
  {
    hide Systemd;
    var first := FirstSystemd(ts, i, end);
  }

  lemma ReplaceInRegion(ts: seq<string>, s: nat, e: nat, k: nat, line: string)
    requires Systemd(line) && !Header(line)
    requires Region(ts, s, e) && s < k < e && Systemd(ts[k])
    requires forall j :: s < j < k ==> !Systemd(ts[j])
    ensures var next := ts[k := line];
            && Region(next, s, e)
            && FirstSystemd(next, s + 1, e) == k
            && Others(Entries("", next)) == Others(Entries("", ts))
  {
    assert !Header(ts[k]);
    ReplaceKeepsRegion(ts, s, e, k, line);
    FirstIs(ts[k := line], s + 1, e, k);
    hide FirstSystemd, Region, Systemd, IsEntry, Header, Others, Entries;
    assert ts == ts[..k] + [ts[k]] + ts[k + 1..];
    assert ts[k := line] == ts[..k] + [line] + ts[k + 1..];
    SameOthers(ts, s, e, k, [ts[k]], line, ts[k + 1..]);
  }

  lemma InsertInRegion(ts: seq<string>, s: nat, e: nat, line: string)
    requires Systemd(line) && !Header(line)
    requires Region(ts, s, e)
    ensures var next := ts[..s + 1] + [line] + ts[s + 1..];
            && Region(next, s, e + 1)
            && FirstSystemd(next, s + 1, e + 1) == s + 1
            && Others(Entries("", next)) == Others(Entries("", ts))
  {
    assert s + 1 <= e;
    InsertKeepsRegion(ts, s, e, line);
    hide Region, Systemd, IsEntry, Header, Others, Entries;
    assert ts == ts[..s + 1] + [] + ts[s + 1..];
    SameOthers(ts, s, e, s + 1, [], line, ts[s + 1..]);
  }

  lemma AppendRegion(ts: seq<string>, gap: seq<string>, boot: string, line: string)
    requires Systemd(line) && !Header(line) && IsBoot(boot)
    requires NoBoot(ts) && Gap(gap)
    ensures var next := ts + gap + [boot, line];
            && Region(next, |ts| + |gap|, |next|)
            && Others(Entries("", next)) == Others(Entries("", ts))
  {
    hide Systemd, EqIgnoreCase;
    var a := ts + gap;
    var next := a + [boot, line];
    assert forall j :: 0 <= j < |a| ==> next[j] == if j < |ts| then ts[j] else "";
    assert next[|a|] == boot && next[|a| + 1] == line;
    assert Region(next, |a|, |next|);
    assert gap == [""] ==> gap[..0] == [];
    assert Entries(SectionAfter("", ts), gap) == [];
    OtherEntriesJoin("", ts, gap);
    OtherEntriesJoin("", a, [boot, line]);
    BootEntries(SectionAfter("", a), boot, line);
  }

  lemma BootEntries(section: string, boot: string, line: string)
    requires Systemd(line) && !Header(line) && IsBoot(boot)
    ensures Others(Entries(section, [boot, line])) == []
  {
    hide Systemd, IsBoot, IsEntry, Header, Entries, Others, SectionAfter;
    HeaderOnly(section, boot);
    OtherEntriesJoin(section, [boot], [line]);
    NoOther(boot, line);
    assert [boot, line] == [boot] + [line];
  }

  lemma HeaderOnly(section: string, boot: string)
    requires IsBoot(boot)
    ensures Others(Entries(section, [boot])) == [] && SectionAfter(section, [boot]) == boot
  {
    hide EqIgnoreCase;
    OneSection(section, boot);
    assert [boot][..0] == [];
    assert Entries(section, [boot]) == [];
  }

  // What the plan achieves.

  predicate EnabledAt(ts: seq<string>, s: nat, e: nat, k: nat) {
    && Region(ts, s, e)
    && s < k < e
    && Systemd(ts[k])
    && SaysTrue(ts[k])
    && forall j :: s < j < k ==> !Systemd(ts[j])
  }

  /** The first systemd setting of the boot section is there and true. */
  ghost predicate Enabled(ts: seq<string>) {
    exists s, e, k :: EnabledAt(ts, s, e, k)
  }

  /** The same, with this very line. */
  ghost predicate EnabledBy(ts: seq<string>, line: string) {
    exists s: nat, e: nat, k: nat :: EnabledAt(ts, s, e, k) && ts[k] == line
  }

  lemma EnabledByIsEnabled(ts: seq<string>, line: string)
    requires EnabledBy(ts, line)
    ensures Enabled(ts)
  {
    var s: nat, e: nat, k: nat :| EnabledAt(ts, s, e, k) && ts[k] == line;
  }

  lemma EnabledIsKept(ts: seq<string>, s: nat, e: nat, k: nat)
    requires EnabledAt(ts, s, e, k)
    ensures ChangeOf(ts) == Keep
  {
    RegionIsScanned(ts, s, e);
    hide Systemd, SaysTrue, Scan, Header, IsBoot, FirstSystemd;
    FirstIs(ts, s + 1, e, k);
  }

  predicate FirstAt(ts: seq<string>, s: nat, e: nat, k: nat) {
    Region(ts, s, e) && s < k < e && Systemd(ts[k]) && forall j :: s < j < k ==> !Systemd(ts[j])
  }

  /** The change, by the region that the scan finds. */
  lemma ChangeShape(ts: seq<string>)
    ensures var (start, e) := Scan(ts, 0, None);
            var change := ChangeOf(ts);
            && (change.Keep? ==> Enabled(ts))
            && (change.Replace? ==> start.Some? && FirstAt(ts, start.value, e, change.at))
            && (change.Insert? ==> start.Some? && Region(ts, start.value, e) && change.at == start.value + 1)
            && (change.AppendSection? ==> Gap(change.gap) && NoBoot(ts))
  {
    ScanFinds(ts);
    var (start, e) := Scan(ts, 0, None);
    hide Systemd, SaysTrue, Scan, Header, IsBoot, FirstSystemd;
    if start.Some? {
      var k := FirstSystemd(ts, start.value + 1, e);
      if k < e && SaysTrue(ts[k]) {
        assert EnabledAt(ts, start.value, e, k);
      }
    }
  }

  lemma KeptIfEnabled(ts: seq<string>)
    ensures ChangeOf(ts) == Keep <==> Enabled(ts)
  {
    ChangeShape(ts);
    hide EnabledAt, ChangeOf, Scan, Systemd, IsBoot;
    if Enabled(ts) {
      var s: nat, e: nat, k: nat :| EnabledAt(ts, s, e, k);
      EnabledIsKept(ts, s, e, k);
    }
  }

  /** The lines that a change may write. */
  predicate Writes(boot: string, line: string) {
    && Systemd(line) && SaysTrue(line) && !Header(line) && IsBoot(boot)
    && Trim(line) == line && ValidLine(line) && OneLine(line)
    && Trim(boot) == boot && ValidLine(boot) && OneLine(boot)
  }

  lemma ReplaceEnables(ts: seq<string>, s: nat, e: nat, k: nat, boot: string, line: string)
    requires FirstAt(ts, s, e, k) && Writes(boot, line)
    ensures EnabledBy(ts[k := line], line) && Others(Entries("", ts[k := line])) == Others(Entries("", ts))
  {
    ReplaceInRegion(ts, s, e, k, line);
    hide Systemd, SaysTrue, Region, Others, Entries, FirstSystemd;
    assert EnabledAt(ts[k := line], s, e, k);
  }

  lemma InsertEnables(ts: seq<string>, s: nat, e: nat, boot: string, line: string)
    requires Region(ts, s, e) && Writes(boot, line)
    ensures var next := ts[..s + 1] + [line] + ts[s + 1..];
            EnabledBy(next, line) && Others(Entries("", next)) == Others(Entries("", ts))
  {
    InsertInRegion(ts, s, e, line);
    RegionBounds(ts, s, e);
    hide Systemd, SaysTrue, Region, Others, Entries, FirstSystemd;
    assert EnabledAt(ts[..s + 1] + [line] + ts[s + 1..], s, e + 1, s + 1);
  }

  lemma AppendEnables(ts: seq<string>, gap: seq<string>, boot: string, line: string)
    requires Gap(gap) && NoBoot(ts) && Writes(boot, line)
    ensures var next := ts + gap + [boot, line];
            EnabledBy(next, line) && Others(Entries("", next)) == Others(Entries("", ts))
  {
    AppendRegion(ts, gap, boot, line);
    hide Systemd, SaysTrue, Region, Others, Entries, FirstSystemd;
    var next := ts + gap + [boot, line];
    assert EnabledAt(next, |ts| + |gap|, |next|, |next| - 1);
  }

  predicate NoBoot(ts: seq<string>) {
    forall j :: 0 <= j < |ts| ==> !IsBoot(ts[j])
  }

  /** On trimmed lines: a change enables systemd and shows the same other settings. */
  lemma ChangeIsSound(ts: seq<string>, change: Change, boot: string, line: string)
    requires change == ChangeOf(ts) && change != Keep && Writes(boot, line)
    ensures var next := Changed(ts, change, boot, line);
            EnabledBy(next, line) && Others(Entries("", next)) == Others(Entries("", ts))
  {
    hide ChangeOf, Scan, Writes, EnabledBy, Others, Entries, Region, FirstAt, NoBoot, Gap;
    ChangeShape(ts);
    var (start, e) := Scan(ts, 0, None);
    assert change.Replace? ==> Changed(ts, change, boot, line) == ts[change.at := line];
    assert change.Insert? ==> Changed(ts, change, boot, line) == ts[..change.at] + [line] + ts[change.at..];
    assert change.AppendSection? ==> Changed(ts, change, boot, line) == ts + change.gap + [boot, line];
    hide *;
    if change.Replace? {
      ReplaceEnables(ts, start.value, e, change.at, boot, line);
    } else if change.Insert? {
      InsertEnables(ts, start.value, e, boot, line);
    } else {
      AppendEnables(ts, change.gap, boot, line);
    }
  }

  lemma RegionBounds(ts: seq<string>, s: nat, e: nat)
    requires Region(ts, s, e)
    ensures s < e <= |ts|
  {
  }

  predicate LinesOk(lines: seq<string>) {
    forall line :: line in lines ==> OneLine(line) && ValidLine(Trim(line))
  }

  lemma OkJoin(a: seq<string>, b: seq<string>)
    ensures TrimAll(a + b) == TrimAll(a) + TrimAll(b)
    ensures LinesOk(a + b) <==> LinesOk(a) && LinesOk(b)
  {
    hide Trim, ValidLine, OneLine;
    assert forall line :: line in a + b <==> line in a || line in b;
  }

  lemma OneOk(t: string)
    requires Trim(t) == t && ValidLine(t) && OneLine(t)
    ensures TrimAll([t]) == [t] && LinesOk([t])
  {
    hide Trim, ValidLine, OneLine;
  }

  /** Changing lines and trimming them commute, and what is written is valid. */
  lemma ChangedTrims(lines: seq<string>, change: Change, boot: string, line: string)
    requires Fits(change, |lines|) && Writes(boot, line) && (change.AppendSection? ==> Gap(change.gap))
    requires LinesOk(lines)
    ensures TrimAll(Changed(lines, change, boot, line)) == Changed(TrimAll(lines), change, boot, line)
    ensures LinesOk(Changed(lines, change, boot, line))
  {
    hide TrimAll, LinesOk;
    if change.Replace? {
      ReplaceTrims(lines, change.at, boot, line);
    } else if change.Insert? {
      InsertTrims(lines, change.at, boot, line);
    } else if change.AppendSection? {
      AppendTrims(lines, change.gap, boot, line);
    }
  }

  lemma ReplaceTrims(lines: seq<string>, k: nat, boot: string, line: string)
    requires k < |lines| && LinesOk(lines) && Writes(boot, line)
    ensures TrimAll(lines[k := line]) == TrimAll(lines)[k := line] && LinesOk(lines[k := line])
  {
    OneOk(line);
    hide TrimAll, LinesOk, Writes;
    var a, b := lines[..k], lines[k + 1..];
    assert lines[k := line] == a + [line] + b && lines == a + [lines[k]] + b;
    Middle(a, [lines[k]], b, line);
    assert TrimAll(lines)[k := line] == TrimAll(a) + [line] + TrimAll(b);
  }

  lemma InsertTrims(lines: seq<string>, k: nat, boot: string, line: string)
    requires k <= |lines| && LinesOk(lines) && Writes(boot, line)
    ensures TrimAll(lines[..k] + [line] + lines[k..]) == TrimAll(lines)[..k] + [line] + TrimAll(lines)[k..]
    ensures LinesOk(lines[..k] + [line] + lines[k..])
  {
    OneOk(line);
    hide TrimAll, LinesOk, Writes;
    var a, b := lines[..k], lines[k..];
    assert lines == a + [] + b;
    Middle(a, [], b, line);
    assert TrimAll(lines)[..k] == TrimAll(a) && TrimAll(lines)[k..] == TrimAll(b);
  }

  lemma AppendTrims(lines: seq<string>, gap: seq<string>, boot: string, line: string)
    requires Gap(gap) && LinesOk(lines) && Writes(boot, line)
    ensures TrimAll(lines + gap + [boot, line]) == TrimAll(lines) + gap + [boot, line]
    ensures LinesOk(lines + gap + [boot, line])
  {
    GapOk(gap);
    OneOk(line);
    OneOk(boot);
    hide TrimAll, LinesOk, Writes;
    OkJoin(lines, gap);
    OkJoin([boot], [line]);
    assert [boot, line] == [boot] + [line];
    OkJoin(lines + gap, [boot, line]);
  }

  lemma GapOk(gap: seq<string>)
    requires Gap(gap)
    ensures TrimAll(gap) == gap && LinesOk(gap)
  {
    assert Trim("") == "" && ValidLine("") && OneLine("");
  }

  lemma Middle(a: seq<string>, was: seq<string>, b: seq<string>, line: string)
    requires LinesOk(a + was + b) && TrimAll([line]) == [line] && LinesOk([line])
    ensures TrimAll(a + [line] + b) == TrimAll(a) + [line] + TrimAll(b)
    ensures TrimAll(a + was + b) == TrimAll(a) + TrimAll(was) + TrimAll(b)
    ensures LinesOk(a + [line] + b)
  {
    hide LinesOk, TrimAll;
    OkJoin(a, was);
    OkJoin(a + was, b);
    OkJoin(a, [line]);
    OkJoin(a + [line], b);
  }

  lemma WhatIsWritten()
    ensures Writes(BOOT, ENABLED)
  {
    EnabledLine();
    BootLine();
  }

  lemma OkIsValid(lines: seq<string>)
    requires AllOneLine(lines)
    ensures LinesOk(lines) <==> Valid(TrimAll(lines))
  {
    hide Trim, ValidLine, OneLine;
    assert forall i :: 0 <= i < |lines| ==> TrimAll(lines)[i] == Trim(lines[i]);
    if Valid(TrimAll(lines)) {
      forall line | line in lines
        ensures OneLine(line) && ValidLine(Trim(line))
      {
        var i :| 0 <= i < |lines| && lines[i] == line;
        assert ValidLine(TrimAll(lines)[i]);
      }
    }
  }

  lemma ChangedIsOneLine(lines: seq<string>)
    requires LinesOk(lines)
    ensures AllOneLine(lines)
  {
  }

  /** The lines of a file that needs a change, as the next run will read them. */
  lemma Rewritten(lines: seq<string>, boot: string, line: string)
    requires AllOneLine(lines) && Valid(TrimAll(lines)) && Writes(boot, line)
    requires ChangeOf(TrimAll(lines)) != Keep
    ensures var again := TrimAll(Lines(Join(Changed(lines, ChangeOf(TrimAll(lines)), boot, line))));
            && Valid(again)
            && again == Changed(TrimAll(lines), ChangeOf(TrimAll(lines)), boot, line)
            && EnabledBy(again, line)
            && Others(Entries("", again)) == Others(Entries("", TrimAll(lines)))
  {
    var ts := TrimAll(lines);
    var change := ChangeOf(ts);
    ChangeShape(ts);
    OkIsValid(lines);
    hide ChangeOf, Scan, Writes, EnabledBy, Others, Entries, Region, FirstAt, NoBoot;
    hide TrimAll, LinesOk, Valid, Join, Lines;
    ChangeIsSound(ts, change, boot, line);
    ChangedTrims(lines, change, boot, line);
    var next := Changed(lines, change, boot, line);
    ChangedIsOneLine(next);
    OkIsValid(next);
    assert next != [];
    JoinRoundTrip(next);
  }

  function TextOf(content: Option<string>): string {
    match content case Some(text) => text case None => ""
  }

  /** A line that is no comment, no header and no setting. */
  predicate Bad(t: string) {
    && t != "" && t[0] !in {'#', ';'}
    && !(t[0] == '[' && t[|t| - 1] == ']' && |t| > 2)
    && '=' !in t
  }

  function Lowered(s: string): (r: string)
    ensures |r| == |s|
  {
    seq(|s|, i requires 0 <= i < |s| => if 65 <= s[i] as int <= 90 then (s[i] as int + 32) as char else s[i])
  }

  /** The text has this setting, in letters of any case. */
  ghost predicate HasSetting(text: string, section: string, line: string) {
    exists e :: e in Entries("", TrimAll(Lines(text))) && Lowered(e.section) == section && Lowered(e.line) == line
  }

  /** The text has this very line under the section. */
  ghost predicate HasLine(text: string, section: string, line: string) {
    exists e :: e in Entries("", TrimAll(Lines(text))) && Lowered(e.section) == section && e.line == line
  }

  /** For every file: a malformed one is reported with its first bad line; one whose first systemd setting of
      the boot section is true is left alone; and any other is rewritten to a valid file that has systemd=true in
      its boot section, that the next plan leaves alone and that has the same other settings in the same order. */
  lemma PlanIsSound(content: Option<string>)
    ensures var text := TextOf(content);
            var ts := TrimAll(Lines(text));
            var plan := Plan(content);
            && (plan.Malformed? <==> exists i :: 0 <= i < |ts| && Bad(ts[i]))
            && (plan.Malformed? ==>
                  && 1 <= plan.line <= |ts|
                  && plan.text == ts[plan.line - 1]
                  && Bad(plan.text)
                  && forall i :: 0 <= i < plan.line - 1 ==> !Bad(ts[i]))
            && (plan.AlreadyEnabled? <==> Valid(ts) && Enabled(ts))
            && (plan.AlreadyEnabled? ==> HasSetting(text, "[boot]", "systemd=true"))
            && (plan.Write? ==>
                  && plan.before == text
                  && Valid(TrimAll(Lines(plan.after)))
                  && HasLine(plan.after, "[boot]", "systemd=true")
                  && Plan(Some(plan.after)) == AlreadyEnabled
                  && OtherSettings(plan.after) == OtherSettings(text))
  {
    hide *;
    PlanIsValid(content);
    var text := TextOf(content);
    InvalidIsBad(TrimAll(Lines(text)));
    var plan := Plan(content);
    if plan.AlreadyEnabled? {
      EnabledHasSetting(text);
    }
    if plan.Write? {
      WrittenHasLine(plan.after);
    }
  }

  lemma PlanIsValid(content: Option<string>)
    ensures var text := TextOf(content);
            var ts := TrimAll(Lines(text));
            var k := FirstInvalid(ts);
            var plan := Plan(content);
            && (plan.Malformed? <==> k < |ts|)
            && (plan.Malformed? ==> plan.line == k + 1 && plan.text == ts[k])
            && (plan.AlreadyEnabled? <==> Valid(ts) && Enabled(ts))
            && (plan.Write? ==>
                  && plan.before == text
                  && Valid(TrimAll(Lines(plan.after)))
                  && EnabledBy(TrimAll(Lines(plan.after)), ENABLED)
                  && Plan(Some(plan.after)) == AlreadyEnabled
                  && OtherSettings(plan.after) == OtherSettings(text))
  {
    var text := TextOf(content);
    var lines := Lines(text);
    var ts := TrimAll(lines);
    LinesAreSingle(text);
    KeptIfEnabled(ts);
    WhatIsWritten();
    ValidityOf(ts);
    hide ChangeOf, Enabled, EnabledBy, Others, Entries, Writes, Valid, Join, Lines, TrimAll, FirstInvalid, Changed;
    var plan := Plan(content);
    if plan.Write? {
      Rewritten(lines, BOOT, ENABLED);
      var again := TrimAll(Lines(plan.after));
      EnabledByIsEnabled(again, ENABLED);
      KeptIfEnabled(again);
      ValidityOf(again);
    }
  }

  /** Of the lines of the file, trimmed, a rewriting touches one: the first systemd setting of the boot section, else
      the place below the section's last header, else the end, where it adds the section after a blank line. */
  ghost predicate EditedTo(was: seq<string>, now: seq<string>) {
    || (exists s: nat, e: nat, k: nat :: FirstAt(was, s, e, k) && now == was[k := "systemd=true"])
    || (exists s: nat, e: nat ::
          && Region(was, s, e) && (forall j :: s < j < e ==> !Systemd(was[j]))
          && now == was[..s + 1] + ["systemd=true"] + was[s + 1..])
    || (NoBoot(was)
        && now == was + (if was == [] || was[|was| - 1] == "" then [] else [""]) + ["[boot]", "systemd=true"])
  }

  lemma RewritingIsOneEdit(content: Option<string>)
    ensures var plan := Plan(content);
            plan.Write? ==> EditedTo(TrimAll(Lines(TextOf(content))), TrimAll(Lines(plan.after)))
  {
    var lines := Lines(TextOf(content));
    var ts := TrimAll(lines);
    LinesAreSingle(TextOf(content));
    WhatIsWritten();
    ValidityOf(ts);
    hide ChangeOf, Enabled, EnabledBy, Others, Entries, Writes, Valid, Join, Lines, TrimAll, FirstInvalid, Changed;
    hide EditedTo;
    if Plan(content).Write? {
      Rewritten(lines, BOOT, ENABLED);
      ChangeEdits(ts);
    }
  }

  lemma ChangeEdits(ts: seq<string>)
    requires ChangeOf(ts) != Keep
    ensures EditedTo(ts, Changed(ts, ChangeOf(ts), BOOT, ENABLED))
  {
    var change := ChangeOf(ts);
    ChangeShape(ts);
    var (start, e) := Scan(ts, 0, None);
    hide Systemd, Scan, Region, IsBoot, NoBoot;
    if change.Insert? {
      assert FirstSystemd(ts, start.value + 1, e) == e;
      assert forall j :: start.value < j < e ==> !Systemd(ts[j]);
      hide FirstSystemd;
    }
  }

  lemma InvalidIsBad(ts: seq<string>)
    ensures var k := FirstInvalid(ts);
            && (k < |ts| <==> exists i :: 0 <= i < |ts| && Bad(ts[i]))
            && (k < |ts| ==> Bad(ts[k]))
            && (forall i :: 0 <= i < k ==> !Bad(ts[i]))
  {
    assert forall i :: 0 <= i < |ts| ==> (Bad(ts[i]) <==> !ValidLine(ts[i]));
    hide Bad, ValidLine;
    var k := FirstInvalid(ts);
    if exists i :: 0 <= i < |ts| && Bad(ts[i]) {
      var i :| 0 <= i < |ts| && Bad(ts[i]);
      assert !ValidLine(ts[i]);
    }
  }

  lemma LoweredIs(a: string, b: string)
    requires EqIgnoreCase(a, b)
    ensures Lowered(a) == Lowered(b)
  {
    assert forall i :: 0 <= i < |a| ==> Lower(a[i]) == Lowered(a)[i];
    assert forall i :: 0 <= i < |b| ==> Lower(b[i]) == Lowered(b)[i];
  }

  lemma LoweredTexts()
    ensures Lowered(BOOT) == "[boot]" && Lowered(ENABLED) == "systemd=true" && ENABLED == "systemd=true"
  {
  }

  lemma EnabledHasSetting(text: string)
    requires Enabled(TrimAll(Lines(text)))
    ensures HasSetting(text, "[boot]", "systemd=true")
  {
    var ts := TrimAll(Lines(text));
    hide Enabled, EnabledAt, Entries, Lines, TrimAll, Lowered;
    var e := EnabledIsASetting(ts);
    LoweredIs(e.section, BOOT);
    LoweredIs(e.line, ENABLED);
    LoweredTexts();
  }

  lemma WrittenHasLine(text: string)
    requires EnabledBy(TrimAll(Lines(text)), ENABLED)
    ensures HasLine(text, "[boot]", "systemd=true")
  {
    var ts := TrimAll(Lines(text));
    hide Entries, Lines, TrimAll, Lowered;
    var s: nat, e: nat, k: nat :| EnabledAt(ts, s, e, k) && ts[k] == ENABLED;
    SettingAt(ts, s, e, k);
    LoweredIs(ts[s], BOOT);
    LoweredTexts();
    assert Entry(ts[s], ts[k]).line == "systemd=true";
  }

  lemma ValidityOf(ts: seq<string>)
    ensures FirstInvalid(ts) == |ts| <==> Valid(ts)
    ensures Valid(ts[..FirstInvalid(ts)])
  {
    hide ValidLine;
  }

  lemma SettingAt(ts: seq<string>, s: nat, e: nat, k: nat)
    requires EnabledAt(ts, s, e, k)
    ensures s < |ts| && k < |ts| && IsBoot(ts[s]) && SaysTrue(ts[k])
    ensures Entry(ts[s], ts[k]) in Entries("", ts)
  {
    hide Systemd, SaysTrue, IsEntry, Header, EqIgnoreCase, Entries, SectionAfter;
    SystemdIsEntry(ts[k]);
    SectionInRegion(ts, s, e, k);
    assert ts == ts[..k] + [ts[k]] + ts[k + 1..];
    EntriesJoin("", ts[..k], [ts[k]]);
    EntriesJoin("", ts[..k] + [ts[k]], ts[k + 1..]);
    OneEntry(ts[s], ts[k]);
  }

  /** An enabled file has the setting systemd=true, in any case of letters, under the boot header. */
  lemma EnabledIsASetting(ts: seq<string>) returns (setting: Entry)
    requires Enabled(ts)
    ensures setting in Entries("", ts) && IsBoot(setting.section) && SaysTrue(setting.line)
  {
    hide EnabledAt, Entries;
    var s: nat, e: nat, k: nat :| EnabledAt(ts, s, e, k);
    SettingAt(ts, s, e, k);
    setting := Entry(ts[s], ts[k]);
  }

  /** The lines are the pieces of the text between newlines, less a carriage return at their end; nothing is lost. */
  lemma {:induction false} LinesAreThePieces(s: string) returns (pieces: seq<string>)
    ensures ArePieces(pieces, s)
    decreases |s|
  {
    var i := Find(s, '\n');
    if s == "" {
      pieces := [];
    } else if i == |s| {
      pieces := [s];
      assert s[..i] == s;
      LinesOfOne(s);
      TerminatedOfMore(s, []);
      assert [s] + [] == [s] && s + "\n" + "" == s + "\n";
    } else {
      var more := LinesAreThePieces(s[i + 1..]);
      pieces := [s[..i]] + more;
      assert s == s[..i] + ['\n'] + s[i + 1..];
      hide ArePieces;
      MorePieces(s[..i], s[i + 1..], more);
    }
  }

  predicate ArePieces(pieces: seq<string>, s: string) {
    && AllOneLine(pieces) && |pieces| == |Lines(s)|
    && (forall i :: 0 <= i < |pieces| ==> pieces[i] == Lines(s)[i] || pieces[i] == Lines(s)[i] + "\r")
    && Terminated(pieces) == Ended(s)
  }

  lemma MorePieces(line: string, rest: string, more: seq<string>)
    requires OneLine(line) && ArePieces(more, rest)
    ensures ArePieces([line] + more, line + ['\n'] + rest)
  {
    FirstLine(line, rest);
    StrippedIs(line);
    EndedAfter(line, rest);
    TerminatedOfMore(line, more);
    hide Lines, StripCr, Ended, Terminated, OneLine;
  }

  function Ended(s: string): string {
    if s == "" || s[|s| - 1] == '\n' then s else s + "\n"
  }

  lemma LinesOfOne(s: string)
    requires s != "" && Find(s, '\n') == |s|
    ensures Lines(s) == [s] && Ended(s) == s + "\n"
  {
  }

  lemma StrippedIs(line: string)
    ensures line == StripCr(line) || line == StripCr(line) + "\r"
  {
  }

  lemma EndedAfter(line: string, rest: string)
    ensures Ended(line + ['\n'] + rest) == line + "\n" + Ended(rest)
  {
    var s := line + ['\n'] + rest;
    assert s[|s| - 1] == if rest == "" then '\n' else rest[|rest| - 1];
    assert line + "\n" + (rest + "\n") == s + "\n";
  }

  lemma TerminatedOfMore(piece: string, more: seq<string>)
    ensures Terminated([piece] + more) == piece + "\n" + Terminated(more)
  {
    assert ([piece] + more)[1..] == more;
  }

  function Terminated(pieces: seq<string>): string {
    if pieces == [] then "" else pieces[0] + "\n" + Terminated(pieces[1..])
  }

  /** The code points of the property White_Space of Unicode. */
  predicate Space(c: char) {
    var n := c as int;
    9 <= n <= 13 || n in {32, 133, 160, 5760, 8232, 8233, 8239, 8287, 12288} || 8192 <= n <= 8202
  }

  lemma WhiteIsSpace(c: char)
    ensures White(c) <==> Space(c)
  {
  }

  /** Trimming takes white space off both ends, and all of it. */
  lemma TrimIs(s: string) returns (a: string, b: string)
    ensures s == a + Trim(s) + b
    ensures forall i :: 0 <= i < |a| ==> Space(a[i])
    ensures forall i :: 0 <= i < |b| ==> Space(b[i])
    ensures Trim(s) != "" ==> !Space(Trim(s)[0]) && !Space(Trim(s)[|Trim(s)| - 1])
  {
    a := TrimStartIs(s);
    var mid := TrimStart(s);
    b := TrimEndIs(mid);
    if mid != "" {
      TrimEndKeepsHead(mid);
    }
    forall c: char
      ensures White(c) <==> Space(c)
    {
      WhiteIsSpace(c);
    }
    hide White, Space, TrimStart, TrimEnd;
  }

  predicate AllWhite(s: string) {
    forall i :: 0 <= i < |s| ==> White(s[i])
  }

  lemma {:induction false} TrimStartIs(s: string) returns (a: string)
    ensures s == a + TrimStart(s) && AllWhite(a) && (TrimStart(s) != "" ==> !White(TrimStart(s)[0]))
  {
    if s != "" && White(s[0]) {
      var more := TrimStartIs(s[1..]);
      a := [s[0]] + more;
      assert s == [s[0]] + s[1..];
    } else {
      a := "";
    }
  }

  lemma {:induction false} TrimEndIs(s: string) returns (b: string)
    ensures s == TrimEnd(s) + b && AllWhite(b) && (TrimEnd(s) != "" ==> !White(TrimEnd(s)[|TrimEnd(s)| - 1]))
  {
    if s != "" && White(s[|s| - 1]) {
      var more := TrimEndIs(s[..|s| - 1]);
      b := more + [s[|s| - 1]];
      assert s == s[..|s| - 1] + [s[|s| - 1]];
    } else {
      b := "";
    }
  }

  // The code.

  method ValidateWslConf(content: string) returns (r: Option<(nat, string)>)
    ensures var ts := TrimAll(Lines(content));
            var bad := FirstInvalid(ts);
            r == if bad < |ts| then Some((bad + 1, ts[bad])) else None
    ensures r.None? <==> Valid(TrimAll(Lines(content)))
  {
    var lines := Lines(content);
    ghost var ts := TrimAll(lines);
    hide Trim, ValidLine, Lines, FirstInvalid;
    var i := 0;
    while i < |lines|
      invariant 0 <= i <= |lines|
      invariant forall j :: 0 <= j < i ==> ValidLine(ts[j])
    {
      var trimmed := Trim(lines[i]);
      assert trimmed == ts[i];
      if !ValidLine(trimmed) {
        return Some((i + 1, trimmed));
      }
      i := i + 1;
    }
    return None;
  }

  method FindBootSection(lines: seq<string>) returns (start: Option<nat>, end: nat)
    ensures (start, end) == Scan(TrimAll(lines), 0, None)
  {
    ghost var ts := TrimAll(lines);
    hide Trim, IsBoot;
    start, end := None, |lines|;
    var i := 0;
    while i < |lines|
      invariant 0 <= i <= |lines| && (start.Some? ==> start.value < i)
      invariant Scan(ts, i, start) == Scan(ts, 0, None)
    {
      var trimmed := Trim(lines[i]);
      assert trimmed == ts[i];
      if IsBoot(trimmed) {
        start := Some(i);
      } else if Header(trimmed) && start.Some? {
        return start, i;
      }
      i := i + 1;
    }
  }

  /** The edit of valid lines, in place; none if nothing is to be written. */
  method ReviseLines(before: seq<string>, boot: string, line: string) returns (r: Option<seq<string>>)
    ensures var change := ChangeOf(TrimAll(before));
            r == if change == Keep then None else Some(Changed(before, change, boot, line))
  {
    var lines := before;
    ghost var ts := TrimAll(lines);
    hide Trim, Scan, SaysTrue, Systemd;
    var start, end := FindBootSection(lines);
    if start.Some? {
      var k := start.value + 1;
      while k < end
        invariant start.value < k <= end
        invariant FirstSystemd(ts, k, end) == FirstSystemd(ts, start.value + 1, end)
      {
        var trimmed := Trim(lines[k]);
        assert trimmed == ts[k];
        if Systemd(trimmed) {
          if SaysTrue(trimmed) {
            return None;
          }
          lines := lines[k := line];
          return Some(lines);
        }
        k := k + 1;
      }
      lines := lines[..start.value + 1] + [line] + lines[start.value + 1..];
    } else {
      if |lines| > 0 && Trim(lines[|lines| - 1]) != "" {
        lines := lines + [""];
      }
      lines := lines + [boot, line];
      assert lines == Changed(before, ChangeOf(ts), boot, line);
    }
    return Some(lines);
  }

  method PlanWslConfSystemdEnable(content: Option<string>) returns (r: Edit)
    ensures r == Plan(content)
  {
    var before := TextOf(content);
    var bad := ValidateWslConf(before);
    if bad.Some? {
      return Malformed(bad.value.0, bad.value.1);
    }
    hide TrimAll, Lines, Join, ValidLine, FirstInvalid, ChangeOf, Changed;
    var after := ReviseLines(Lines(before), BOOT, ENABLED);
    return if after.Some? then Write(before, Join(after.value)) else AlreadyEnabled;
  }
}
