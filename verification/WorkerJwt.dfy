/** The unsigned worker token of src/claude_gateway.rs (section 6 of RFC 7519): minting and reading it. */
module WorkerJwt {
  import opened Common
  import Base64Url
  import Utf8
  import opened Json
  import JsonGrammar

  const EXPIRY := 32_503_680_000

  function EscapeChar(c: char): string {
    match c
    case '"' => "\\\""
    case '\\' => "\\\\"
    case '\n' => "\\n"
    case '\r' => "\\r"
    case '\t' => "\\t"
    case _ => [c]
  }

  function JsonEscape(s: string): string {
    if s == "" then "" else EscapeChar(s[0]) + JsonEscape(s[1..])
  }

  function Quoted(s: string): string {
    "\"" + s + "\""
  }

  function Member(key: string, valueText: string): string {
    "\"" + key + "\":" + valueText
  }

  function Header(): string {
    "{" + Member("alg", Quoted("none")) + "," + Member("typ", Quoted("JWT")) + "}"
  }

  function Payload(workerId: string): string {
    "{" + Member("exp", "32503680000") + ","
    + Member("sub", Quoted("ah-worker-session")) + ","
    + Member("worker_id", Quoted(JsonEscape(workerId))) + "}"
  }

  function Segment(text: string): string {
    Base64Url.Encode(Utf8.Encode(text))
  }

  function FakeWorkerJwt(workerId: string): string {
    Segment(Header()) + "." + Segment(Payload(workerId)) + "."
  }

  function Split(s: string, sep: char): (r: seq<string>)
    ensures r != []
  {
    if s == "" then [""]
    else
      var rest := Split(s[1..], sep);
      if s[0] == sep then [""] + rest else [[s[0]] + rest[0]] + rest[1..]
  }

  function DecodeJsonSegment(segment: string): Option<Value> {
    match Base64Url.Decode(segment)
    case None => None
    case Some(bytes) =>
      match Utf8.Decode(bytes)
      case None => None
      case Some(text) => Parse(text)
  }

  datatype JwtError = NotThreeSegments | BadSegment | BadHeader | BadExpiry | BadSubject | MissingWorkerId

  function FakeJwtWorkerId(token: string): Result<string, JwtError> {
    var parts := Split(token, '.');
    if |parts| != 3 || parts[2] != "" then Err(NotThreeSegments) else
      var header := DecodeJsonSegment(parts[0]);
      if header.None? then Err(BadSegment)
      else if GetString(header.value, "alg") != Some("none") || GetString(header.value, "typ") != Some("JWT")
      then Err(BadHeader)
      else
        var payload := DecodeJsonSegment(parts[1]);
        if payload.None? then Err(BadSegment)
        else if GetInt64(payload.value, "exp") != Some(EXPIRY) then Err(BadExpiry)
        else if GetString(payload.value, "sub") != Some("ah-worker-session") then Err(BadSubject)
        else
          match GetString(payload.value, "worker_id")
          case Some(id) => if id == "" then Err(MissingWorkerId) else Ok(id)
          case None => Err(MissingWorkerId)
  }

  // Strings.

  /** No control character but newline, carriage return and tab. */
  predicate Printable(s: string) {
    forall i :: 0 <= i < |s| ==> s[i] >= ' ' || s[i] == '\n' || s[i] == '\r' || s[i] == '\t'
  }

  predicate Plain(s: string) {
    forall i :: 0 <= i < |s| ==> s[i] >= ' ' && s[i] != '"' && s[i] != '\\'
  }

  lemma EscapedCharIsRead(c: char, rest: string)
    ensures ParseString(EscapeChar(c) + rest)
            == if c >= ' ' || c == '\n' || c == '\r' || c == '\t' then Prepend(c, ParseString(rest)) else Fail
  {
    var e := EscapeChar(c);
    assert |e| == 1 ==> (e + rest)[1..] == rest;
    assert |e| == 2 ==> (e + rest)[2..] == rest && (e + rest)[0] == e[0] && (e + rest)[1] == e[1];
  }

  /** The string rules undo the escaping, and refuse it exactly for the control characters it leaves bare. */
  lemma {:induction false} EscapedIsRead(w: string, rest: string)
    ensures ParseString(JsonEscape(w) + "\"" + rest) == if Printable(w) then Got(w, rest) else Fail
  {
    hide EscapeChar;
    if w == "" {
      assert JsonEscape(w) + "\"" + rest == "\"" + rest;
      assert ("\"" + rest)[1..] == rest;
    } else {
      hide ParseString;
      var tail := JsonEscape(w[1..]) + "\"" + rest;
      assert JsonEscape(w) + "\"" + rest == EscapeChar(w[0]) + tail;
      EscapedCharIsRead(w[0], tail);
      EscapedIsRead(w[1..], rest);
      assert w == [w[0]] + w[1..];
      assert Printable(w) <==> Printable([w[0]]) && Printable(w[1..]);
    }
  }

  lemma {:induction false} PlainIsRead(s: string, rest: string)
    requires Plain(s)
    ensures ParseString(s + "\"" + rest) == Got(s, rest)
  {
    if s == "" {
      assert s + "\"" + rest == "\"" + rest;
      assert ("\"" + rest)[1..] == rest;
    } else {
      var text := s + "\"" + rest;
      PlainIsRead(s[1..], rest);
      assert text[1..] == s[1..] + "\"" + rest;
      assert s == [s[0]] + s[1..];
    }
  }

  // Object members.

  /** One member of an object and what follows it. */
  lemma MemberIsRead(key: string, valueText: string, v: Value, tail: string, members: map<string, Value>)
    requires Plain(key) && tail != "" && (tail[0] == ',' || tail[0] == '}')
    requires ParseValue(valueText + tail) == Got(v, tail)
    ensures ParseMembers(Member(key, valueText) + tail, members)
            == if tail[0] == '}' then Got(Object(members[key := v]), tail[1..])
               else ParseMembers(tail[1..], members[key := v])
  {
    var text := "\"" + key + "\":" + valueText + tail;
    var after := ":" + (valueText + tail);
    hide ParseValue, ParseString;
    PlainIsRead(key, after);
    assert text[1..] == key + "\"" + after;
    assert SkipWs(text) == text && SkipWs(after) == after && SkipWs(tail) == tail;
    assert after[1..] == valueText + tail;
  }

  lemma StringIsRead(s: string, tail: string)
    requires Plain(s)
    ensures ParseValue("\"" + s + "\"" + tail) == Got(String(s), tail)
  {
    var text := "\"" + s + "\"" + tail;
    hide ParseString;
    PlainIsRead(s, tail);
    assert text[1..] == s + "\"" + tail;
  }

  lemma MemberFails(key: string, rest: string, members: map<string, Value>)
    requires Plain(key) && ParseValue(rest).Fail?
    ensures ParseMembers(Member(key, rest), members).Fail?
  {
    var text := Member(key, rest);
    var after := ":" + rest;
    hide ParseValue, ParseString;
    PlainIsRead(key, after);
    assert text[1..] == key + "\"" + after;
    assert SkipWs(text) == text && SkipWs(after) == after;
    assert after[1..] == rest;
  }

  lemma TakeDigit(c: char, rest: string)
    requires Digit(c)
    ensures TakeDigits([c] + rest) == ([c] + TakeDigits(rest).0, TakeDigits(rest).1)
  {
    assert ([c] + rest)[1..] == rest;
  }

  lemma {:induction false} DigitsAreTaken(ds: string, tail: string)
    requires forall i :: 0 <= i < |ds| ==> Digit(ds[i])
    requires tail == "" || !Digit(tail[0])
    ensures TakeDigits(ds + tail) == (ds, tail)
  {
    if ds == "" {
      assert ds + tail == tail;
    } else {
      hide TakeDigits;
      DigitsAreTaken(ds[1..], tail);
      TakeDigit(ds[0], ds[1..] + tail);
      assert ds + tail == [ds[0]] + (ds[1..] + tail);
      assert ds == [ds[0]] + ds[1..];
    }
  }

  lemma NumberIsRead(ds: string, tail: string)
    requires ds != "" && ds[0] != '0' && forall i :: 0 <= i < |ds| ==> Digit(ds[i])
    requires tail != "" && tail[0] == ','
    ensures ParseValue(ds + tail) == Got(Number(Int64(false, ValueOf(ds))), tail)
  {
    hide TakeDigits, ValueOf, Int64;
    DigitsAreTaken(ds, tail);
    var text := ds + tail;
    assert text[0] == ds[0];
    assert SkipWs(text) == text;
  }

  lemma ExpiryIsRead(tail: string)
    requires tail != "" && tail[0] == ','
    ensures ParseValue("32503680000" + tail) == Got(Number(Some(EXPIRY)), tail)
  {
    hide ParseValue, ValueOf;
    NumberIsRead("32503680000", tail);
    ExpiryValue();
  }

  lemma ExpiryValue()
    ensures ValueOf("32503680000") == EXPIRY
  {
    assert "32503680000"[..10] == "3250368000";
    assert "3250368000"[..9] == "325036800";
    assert "325036800"[..8] == "32503680";
    assert "32503680"[..7] == "3250368";
    assert "3250368"[..6] == "325036";
    assert "325036"[..5] == "32503";
    assert "32503"[..4] == "3250";
    assert "3250"[..3] == "325";
    assert "325"[..2] == "32";
    assert "32"[..1] == "3";
    assert ValueOf("3") == 3;
    assert ValueOf("32") == 32;
    assert ValueOf("325") == 325;
    assert ValueOf("3250") == 3250;
    assert ValueOf("32503") == 32503;
    assert ValueOf("325036") == 325036;
    assert ValueOf("3250368") == 3250368;
    assert ValueOf("32503680") == 32503680;
    assert ValueOf("325036800") == 325036800;
    assert ValueOf("3250368000") == 3250368000;
  }

  lemma ObjectIsRead(body: string)
    requires body != "" && body[0] == '"'
    ensures ParseValue("{" + body) == ParseMembers(body, map[])
  {
    hide ParseMembers;
    var text := "{" + body;
    assert SkipWs(text) == text && text[1..] == body && SkipWs(body) == body;
  }

  lemma HeaderIsRead()
    ensures Parse(Header()) == Some(Object(map["alg" := String("none"), "typ" := String("JWT")]))
  {
    hide ParseValue, ParseMembers, ParseString, SkipWs;
    var last := Member("typ", Quoted("JWT")) + "}";
    var rest := "," + last;
    var body := Member("alg", Quoted("none")) + rest;
    assert Header() == "{" + body;
    ObjectIsRead(body);
    StringIsRead("none", rest);
    MemberIsRead("alg", Quoted("none"), String("none"), rest, map[]);
    assert rest[1..] == last;
    StringIsRead("JWT", "}");
    MemberIsRead("typ", Quoted("JWT"), String("JWT"), "}", map["alg" := String("none")]);
    NothingToSkip();
    assert "}"[1..] == "";
  }

  lemma NothingToSkip()
    ensures SkipWs("") == ""
  {
  }

  ghost function PayloadValue(workerId: string): Value {
    Object(map["exp" := Number(Some(EXPIRY)), "sub" := String("ah-worker-session"), "worker_id" := String(workerId)])
  }

  lemma LastMemberIsRead(w: string, members: map<string, Value>)
    ensures ParseMembers(Member("worker_id", Quoted(JsonEscape(w))) + "}", members)
            == if Printable(w) then Got(Object(members["worker_id" := String(w)]), "") else Fail
  {
    hide ParseValue, ParseMembers, ParseString, JsonEscape, Printable, SkipWs;
    var idText := Quoted(JsonEscape(w));
    IdIsRead(w, "}");
    if Printable(w) {
      MemberIsRead("worker_id", idText, String(w), "}", members);
      assert "}"[1..] == "";
    } else {
      MemberFails("worker_id", idText + "}", members);
      assert Member("worker_id", idText) + "}" == Member("worker_id", idText + "}");
    }
  }

  /** The payload is a JSON text exactly when the worker id has no control character that stays bare. */
  lemma PayloadIsRead(w: string)
    ensures Parse(Payload(w)) == if Printable(w) then Some(PayloadValue(w)) else None
  {
    hide ParseValue, ParseMembers, ParseString, SkipWs, JsonEscape, Printable, Plain;
    var sub := "ah-worker-session";
    var last := Member("worker_id", Quoted(JsonEscape(w))) + "}";
    var mid := Member("sub", Quoted(sub)) + ("," + last);
    var body := Member("exp", "32503680000") + ("," + mid);
    var m1 := map["exp" := Number(Some(EXPIRY))];
    assert Payload(w) == "{" + body;
    PlainNames();
    ObjectIsRead(body);
    ExpiryIsRead("," + mid);
    MemberIsRead("exp", "32503680000", Number(Some(EXPIRY)), "," + mid, map[]);
    assert ("," + mid)[1..] == mid;
    StringIsRead(sub, "," + last);
    MemberIsRead("sub", Quoted(sub), String(sub), "," + last, m1);
    assert ("," + last)[1..] == last;
    LastMemberIsRead(w, m1["sub" := String(sub)]);
    NothingToSkip();
  }

  lemma PlainNames()
    ensures Plain("exp") && Plain("sub") && Plain("ah-worker-session")
  {
  }

  lemma IdIsRead(w: string, tail: string)
    ensures ParseValue(Quoted(JsonEscape(w)) + tail) == if Printable(w) then Got(String(w), tail) else Fail
  {
    hide ParseString, JsonEscape, Printable;
    var text := Quoted(JsonEscape(w)) + tail;
    EscapedIsRead(w, tail);
    assert text[1..] == JsonEscape(w) + "\"" + tail;
    assert SkipWs(text) == text;
  }

  // Segments.

  lemma SegmentIsRead(text: string)
    ensures DecodeJsonSegment(Segment(text)) == Parse(text)
  {
    Utf8.RoundTrip(text);
    Base64Url.RoundTrip(Utf8.Encode(text));
  }

  lemma {:induction false} SplitFirst(a: string, rest: string, sep: char)
    requires forall i :: 0 <= i < |a| ==> a[i] != sep
    ensures Split(a + [sep] + rest, sep) == [a] + Split(rest, sep)
  {
    var s := a + [sep] + rest;
    if a == "" {
      assert s[1..] == rest;
    } else {
      SplitFirst(a[1..], rest, sep);
      assert s[1..] == a[1..] + [sep] + rest;
      assert a == [a[0]] + a[1..];
    }
  }

  lemma SegmentHasNoDot(text: string)
    ensures forall i :: 0 <= i < |Segment(text)| ==> Segment(text)[i] != '.'
  {
    Base64Url.EncodeAlphabet(Utf8.Encode(text));
    assert Base64Url.SextetOf('.') == None;
  }

  lemma MintedSegments(w: string)
    ensures Split(FakeWorkerJwt(w), '.') == [Segment(Header()), Segment(Payload(w)), ""]
  {
    hide Split, Segment, Header, Payload;
    var h, p := Segment(Header()), Segment(Payload(w));
    SegmentHasNoDot(Header());
    SegmentHasNoDot(Payload(w));
    SplitFirst(h, p + ".", '.');
    SplitFirst(p, "", '.');
    assert FakeWorkerJwt(w) == h + ['.'] + (p + ".");
    assert p + ['.'] + "" == p + ".";
    SplitNone('.');
  }

  lemma SplitNone(sep: char)
    ensures Split("", sep) == [""]
  {
  }

  /** Reading a minted token gives the worker id back, exactly for the non-empty ids without bare control
      characters; the empty id is missing, and the others do not parse. */
  lemma MintedTokenIsRead(w: string)
    ensures FakeJwtWorkerId(FakeWorkerJwt(w))
            == if !Printable(w) then Err(BadSegment) else if w == "" then Err(MissingWorkerId) else Ok(w)
  {
    hide Split, FakeWorkerJwt, DecodeJsonSegment, Segment, Header, Payload, Printable, Parse;
    MintedSegments(w);
    SegmentIsRead(Header());
    HeaderIsRead();
    SegmentIsRead(Payload(w));
    PayloadIsRead(w);
  }

  // Every token, minted or not.

  predicate NoDot(s: string) {
    forall i :: 0 <= i < |s| ==> s[i] != '.'
  }

  /** The token is `a.b.` and has no other dot. */
  predicate Shaped(token: string, a: string, b: string) {
    token == a + "." + b + "." && NoDot(a) && NoDot(b)
  }

  lemma {:induction false} SplitParts(s: string)
    ensures var parts := Split(s, '.');
            && (forall i :: 0 <= i < |parts| ==> NoDot(parts[i]))
            && s == Rejoined(parts)
  {
    if s != "" {
      var rest := Split(s[1..], '.');
      SplitParts(s[1..]);
      hide Split;
      assert s == [s[0]] + s[1..];
      if s[0] == '.' {
        SplitUnfold(s);
        assert Rejoined([""] + rest) == "" + "." + Rejoined(rest) by { assert ([""] + rest)[1..] == rest; }
      } else {
        SplitUnfold(s);
        RejoinLonger(s[0], rest);
      }
    }
  }

  lemma SplitUnfold(s: string)
    requires s != ""
    ensures var rest := Split(s[1..], '.');
            Split(s, '.') == if s[0] == '.' then [""] + rest else [[s[0]] + rest[0]] + rest[1..]
  {
  }

  /** The parts with dots between them. */
  function Rejoined(parts: seq<string>): string {
    if parts == [] then "" else if |parts| == 1 then parts[0] else parts[0] + "." + Rejoined(parts[1..])
  }

  lemma RejoinLonger(c: char, parts: seq<string>)
    requires parts != []
    ensures Rejoined([[c] + parts[0]] + parts[1..]) == [c] + Rejoined(parts)
  {
    var longer := [[c] + parts[0]] + parts[1..];
    assert longer[1..] == parts[1..];
  }

  lemma ShapedSplits(token: string, a: string, b: string)
    requires Shaped(token, a, b)
    ensures Split(token, '.') == [a, b, ""]
  {
    hide Split;
    assert token == a + ['.'] + (b + ['.'] + "");
    SplitFirst(a, b + ['.'] + "", '.');
    SplitFirst(b, "", '.');
    SplitNone('.');
  }

  lemma SplitShaped(token: string)
    requires var parts := Split(token, '.'); |parts| == 3 && parts[2] == ""
    ensures var parts := Split(token, '.'); Shaped(token, parts[0], parts[1])
  {
    SplitParts(token);
    var parts := Split(token, '.');
    hide Split;
    assert parts[1..][1..] == [parts[2]];
    assert Rejoined(parts[1..][1..]) == "";
    assert Rejoined(parts[1..]) == parts[1] + "." + "";
    assert Rejoined(parts) == parts[0] + "." + Rejoined(parts[1..]);
  }

  /** The bytes of the segment are the UTF-8 text of a JSON value. */
  ghost predicate Carries(segment: string, v: Value) {
    exists text :: Base64Url.Decode(segment) == Some(Utf8.Encode(text)) && JsonGrammar.Derives(text, v)
  }

  lemma SegmentCarries(segment: string, v: Value)
    ensures DecodeJsonSegment(segment) == Some(v) <==> Carries(segment, v)
  {
    hide Base64Url.Decode, Utf8.Decode, Utf8.Encode, Parse, JsonGrammar.Derives;
    if DecodeJsonSegment(segment) == Some(v) {
      var bytes := Base64Url.Decode(segment).value;
      var text := Utf8.Decode(bytes).value;
      Utf8.DecodeIsExact(bytes, text);
      JsonGrammar.ParseIsExact(text, v);
    }
    if Carries(segment, v) {
      var text :| Base64Url.Decode(segment) == Some(Utf8.Encode(text)) && JsonGrammar.Derives(text, v);
      Utf8.DecodeIsExact(Utf8.Encode(text), text);
      JsonGrammar.ParseIsExact(text, v);
    }
  }

  predicate Holds(v: Value, key: string, member: Value) {
    v.Object? && key in v.members && v.members[key] == member
  }

  predicate GoodHeader(v: Value) {
    Holds(v, "alg", String("none")) && Holds(v, "typ", String("JWT"))
  }

  predicate GoodExpiry(v: Value) {
    Holds(v, "exp", Number(Some(32_503_680_000)))
  }

  predicate GoodSubject(v: Value) {
    Holds(v, "sub", String("ah-worker-session"))
  }

  predicate Names(v: Value, id: string) {
    Holds(v, "worker_id", String(id)) && id != ""
  }

  ghost predicate Good(token: string, id: string) {
    exists a, b, h, p ::
      && Shaped(token, a, b)
      && Carries(a, h) && GoodHeader(h)
      && Carries(b, p) && GoodExpiry(p) && GoodSubject(p) && Names(p, id)
  }

  lemma HeaderChecks(v: Value)
    ensures GoodHeader(v) <==> GetString(v, "alg") == Some("none") && GetString(v, "typ") == Some("JWT")
  {
  }

  lemma PayloadChecks(v: Value)
    ensures GoodExpiry(v) <==> GetInt64(v, "exp") == Some(EXPIRY)
    ensures GoodSubject(v) <==> GetString(v, "sub") == Some("ah-worker-session")
    ensures forall id :: Names(v, id) <==> GetString(v, "worker_id") == Some(id) && id != ""
  {
  }

  /** A token `a.b.` whose first segment carries no JSON, or not the header of an unsigned token, is refused for it
      before its second segment is looked at. */
  lemma HeaderComesFirst(token: string, a: string, b: string, h: Value)
    requires Shaped(token, a, b)
    ensures (forall v :: !Carries(a, v)) ==> FakeJwtWorkerId(token) == Err(BadSegment)
    ensures Carries(a, h) && !GoodHeader(h) ==> FakeJwtWorkerId(token) == Err(BadHeader)
    ensures Carries(a, h) && GoodHeader(h) && (forall v :: !Carries(b, v)) ==> FakeJwtWorkerId(token) == Err(BadSegment)
  {
    ShapedSplits(token, a, b);
    hide Split, DecodeJsonSegment, Carries, Shaped, GetString, GetInt64, GoodHeader;
    SegmentCarries(a, h);
    HeaderChecks(h);
    if DecodeJsonSegment(a).Some? {
      SegmentCarries(a, DecodeJsonSegment(a).value);
    }
    if DecodeJsonSegment(b).Some? {
      SegmentCarries(b, DecodeJsonSegment(b).value);
    }
  }

  /** With a good header and a payload that is JSON, the expiry, the subject and the worker id are looked at in this
      order: the first that is wrong gives its error, and if none is, the answer is the worker id. */
  lemma PayloadDecides(token: string, a: string, b: string, h: Value, p: Value)
    requires Shaped(token, a, b) && Carries(a, h) && GoodHeader(h) && Carries(b, p)
    ensures var r := FakeJwtWorkerId(token);
            if !GoodExpiry(p) then r == Err(BadExpiry)
            else if !GoodSubject(p) then r == Err(BadSubject)
            else if forall id :: !Names(p, id) then r == Err(MissingWorkerId)
            else r.Ok? && Names(p, r.value)
  {
    ShapedSplits(token, a, b);
    hide Split, DecodeJsonSegment, Carries, Shaped, GetString, GetInt64, GoodHeader, GoodExpiry, GoodSubject, Names;
    SegmentCarries(a, h);
    SegmentCarries(b, p);
    HeaderChecks(h);
    PayloadChecks(p);
    var id := GetString(p, "worker_id");
    assert id.Some? && id.value != "" ==> Names(p, id.value);
  }

  /** The reader accepts exactly the good tokens, with the worker id they name, and says that a token does not have
      three segments exactly if it is not of the form `a.b.`. */
  lemma TokenIsReadExactly(token: string, id: string)
    ensures FakeJwtWorkerId(token) == Ok(id) <==> Good(token, id)
    ensures FakeJwtWorkerId(token) == Err(NotThreeSegments) <==> forall a, b :: !Shaped(token, a, b)
  {
    hide DecodeJsonSegment, Carries, Shaped, GetString, GetInt64, GoodHeader, GoodExpiry, GoodSubject, Names;
    if Good(token, id) {
      var a, b, h, p :| Shaped(token, a, b) && Carries(a, h) && GoodHeader(h)
                        && Carries(b, p) && GoodExpiry(p) && GoodSubject(p) && Names(p, id);
      PayloadDecides(token, a, b, h, p);
      PayloadChecks(p);
    }
    if FakeJwtWorkerId(token) == Ok(id) {
      AcceptedIsGood(token, id);
    }
    if exists a, b :: Shaped(token, a, b) {
      var a, b :| Shaped(token, a, b);
      ShapedSplits(token, a, b);
    } else if FakeJwtWorkerId(token) != Err(NotThreeSegments) {
      SplitShaped(token);
    }
  }

  lemma AcceptedIsGood(token: string, id: string)
    requires FakeJwtWorkerId(token) == Ok(id)
    ensures Good(token, id)
  {
    var parts := Split(token, '.');
    var h, p := DecodeJsonSegment(parts[0]).value, DecodeJsonSegment(parts[1]).value;
    hide DecodeJsonSegment, Carries, Shaped, GetString, GetInt64, GoodHeader, GoodExpiry, GoodSubject, Names;
    SplitShaped(token);
    SegmentCarries(parts[0], h);
    SegmentCarries(parts[1], p);
    HeaderChecks(h);
    PayloadChecks(p);
  }

  // Identity.

  datatype IdentityError = AuthInvalid(error: JwtError) | WorkerIdMismatch(tokenId: string)

  /** `validate_worker_identity`, once the bearer token has been found. */
  function ValidateWorkerIdentity(channelId: string, token: string): Result<string, IdentityError> {
    match FakeJwtWorkerId(token)
    case Err(e) => Err(AuthInvalid(e))
    case Ok(id) => if id == channelId then Ok(token) else Err(WorkerIdMismatch(id))
  }

  /** A channel accepts exactly the good tokens for its own worker id; a good token for another id is a mismatch, and
      any other token is invalid with the reader's error. */
  lemma IdentityIsChecked(channelId: string, token: string)
    ensures var r := ValidateWorkerIdentity(channelId, token);
            && (r == Ok(token) <==> Good(token, channelId))
            && (r.Ok? ==> r.value == token)
            && (forall id :: r == Err(WorkerIdMismatch(id)) <==> Good(token, id) && id != channelId)
            && ((forall id :: !Good(token, id)) ==>
                  FakeJwtWorkerId(token).Err? && r == Err(AuthInvalid(FakeJwtWorkerId(token).error)))
  {
    hide FakeJwtWorkerId, Good;
    forall id
      ensures FakeJwtWorkerId(token) == Ok(id) <==> Good(token, id)
    {
      TokenIsReadExactly(token, id);
    }
  }

  /** A minted token is good on its own channel only. */
  lemma TokenFitsItsChannel(w: string, channelId: string)
    ensures ValidateWorkerIdentity(channelId, FakeWorkerJwt(w)).Ok? <==> w == channelId && w != "" && Printable(w)
    ensures w != "" && Printable(w) && w != channelId ==>
              ValidateWorkerIdentity(channelId, FakeWorkerJwt(w)) == Err(WorkerIdMismatch(w))
  {
    hide FakeWorkerJwt, FakeJwtWorkerId, Printable;
    MintedTokenIsRead(w);
  }

  lemma EscapeFirst(c: char, d: char, x: string, y: string)
    requires EscapeChar(c) + x == EscapeChar(d) + y
    ensures c == d && x == y
  {
    var s, t := EscapeChar(c) + x, EscapeChar(d) + y;
    assert s[0] == EscapeChar(c)[0] && t[0] == EscapeChar(d)[0];
    assert |EscapeChar(c)| == |EscapeChar(d)|;
    assert |EscapeChar(c)| == 2 ==> s[1] == EscapeChar(c)[1] && t[1] == EscapeChar(d)[1];
    assert x == s[|EscapeChar(c)|..] && y == t[|EscapeChar(d)|..];
  }

  lemma {:induction false} EscapeIsInjective(a: string, b: string)
    requires JsonEscape(a) == JsonEscape(b)
    ensures a == b
  {
    if a != "" && b != "" {
      EscapeFirst(a[0], b[0], JsonEscape(a[1..]), JsonEscape(b[1..]));
      EscapeIsInjective(a[1..], b[1..]);
      assert a == [a[0]] + a[1..] && b == [b[0]] + b[1..];
    }
  }

  lemma Sandwich(p: string, a: string, b: string, q: string)
    requires p + a + q == p + b + q
    ensures a == b
  {
    assert |a| == |b|;
    assert a == (p + a + q)[|p|..|p| + |a|] && b == (p + b + q)[|p|..|p| + |b|];
  }

  lemma SegmentIsInjective(a: string, b: string)
    requires Segment(a) == Segment(b)
    ensures a == b
  {
    Base64Url.EncodeInjective(Utf8.Encode(a), Utf8.Encode(b));
    Utf8.RoundTrip(a);
    Utf8.RoundTrip(b);
  }

  /** Different worker ids, readable or not, get different tokens. */
  lemma MintingIsInjective(v: string, w: string)
    requires FakeWorkerJwt(v) == FakeWorkerJwt(w)
    ensures v == w
  {
    hide Segment, Header, JsonEscape;
    var h := Segment(Header()) + ".";
    Sandwich(h, Segment(Payload(v)), Segment(Payload(w)), ".");
    SegmentIsInjective(Payload(v), Payload(w));
    var front := "{" + Member("exp", "32503680000") + "," + Member("sub", Quoted("ah-worker-session")) + ","
                 + "\"worker_id\":\"";
    assert Payload(v) == front + JsonEscape(v) + "\"}" && Payload(w) == front + JsonEscape(w) + "\"}";
    Sandwich(front, JsonEscape(v), JsonEscape(w), "\"}");
    EscapeIsInjective(v, w);
  }
}
