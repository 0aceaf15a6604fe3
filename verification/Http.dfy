/** Printing and parsing of HTTP messages (kwikhttp/protocol.go). */
module Http {
  import opened Common
  import opened HttpText

  type Headers = map<string, seq<string>>

  datatype Request = Request(verb: string, url: string, version: string, headers: Headers, body: string)

  datatype Response = Response(version: string, status: int, text: string, headers: Headers, body: string)

  const CONTENT_LENGTH := "content-length"
  const CRLF := "\r\n"

  function Added(h: Headers, key: string, value: string): Headers {
    var k := Lower(key);
    h[k := (if k in h then h[k] else []) + [value]]
  }

  function First(h: Headers, key: string): string {
    var k := Lower(key);
    if k in h && h[k] != [] then h[k][0] else ""
  }

  // ----- The reader -----

  /** ReadString up to and with a line feed: the line and what follows, or an error. */
  function ReadLine(s: string): Option<(string, string)> {
    var i := IndexOf(s, '\n');
    if i.None? then None else Some((s[..i.value + 1], s[i.value + 1..]))
  }

  /** A trimmed header line: a field, or none when it has no colon. */
  function Field(line: string): Option<(string, string)> {
    var i := IndexOf(line, ':');
    if i.None? then None else Some((Trim(line[..i.value]), Trim(line[i.value + 1..])))
  }

  function WithField(h: Headers, f: Option<(string, string)>): Headers {
    if f.None? then h else Added(h, f.value.0, f.value.1)
  }

  /** The header lines up to the blank one, on top of `h`. */
  function ParseHeaders(s: string, h: Headers): Option<(Headers, string)>
    decreases |s|
  {
    var r := ReadLine(s);
    if r.None? then None
    else
      var line := Trim(r.value.0);
      if line == "" then Some((h, r.value.1)) else ParseHeaders(r.value.1, WithField(h, Field(line)))
  }

  function ParseBody(h: Headers, rest: string): Option<string> {
    var length := First(h, CONTENT_LENGTH);
    if length == "" then Some("")
    else
      var n := Atoi(length);
      if n.None? then None
      else if n.value <= 0 then Some("")
      else if |rest| < n.value then None
      else Some(rest[..n.value])
  }

  function ParseRequest(s: string): Option<Request> {
    var r := ReadLine(s);
    if r.None? then None
    else
      var parts := Split(Trim(r.value.0));
      if |parts| != 3 then None
      else
        var hs := ParseHeaders(r.value.1, map[]);
        if hs.None? then None
        else
          var body := ParseBody(hs.value.0, hs.value.1);
          if body.None? then None else Some(Request(parts[0], parts[1], parts[2], hs.value.0, body.value))
  }

  /** The version, code and text of a trimmed status line; the text may be missing. */
  function ParseStatus(line: string): Option<(string, int, string)> {
    var parts := SplitN(line, 3);
    if |parts| < 2 || Atoi(parts[1]).None? then None
    else Some((parts[0], Atoi(parts[1]).value, if |parts| >= 3 then parts[2] else ""))
  }

  function ParseResponse(s: string): Option<Response> {
    var r := ReadLine(s);
    if r.None? then None
    else
      var status := ParseStatus(Trim(r.value.0));
      if status.None? then None
      else
        var hs := ParseHeaders(r.value.1, map[]);
        if hs.None? then None
        else
          var body := ParseBody(hs.value.0, hs.value.1);
          if body.None? then None
          else Some(Response(status.value.0, status.value.1, status.value.2, hs.value.0, body.value))
  }

  // ----- The writer -----

  function FieldLine(key: string, value: string): string {
    key + ": " + value + CRLF
  }

  function ValueLines(key: string, values: seq<string>): string {
    if values == [] then "" else FieldLine(key, values[0]) + ValueLines(key, values[1..])
  }

  /** `order` is the order in which the map is iterated. */
  function HeaderLines(h: Headers, order: seq<string>): string
    requires forall i :: 0 <= i < |order| ==> order[i] in h
  {
    if order == [] then "" else ValueLines(order[0], h[order[0]]) + HeaderLines(h, order[1..])
  }

  /** An order of all keys, each once. */
  ghost predicate OrderOf(h: Headers, order: seq<string>) {
    && (forall k :: k in h <==> k in order)
    && (forall i, j :: 0 <= i < j < |order| ==> order[i] != order[j])
  }

  function RequestLine(r: Request): string {
    r.verb + " " + r.url + " " + r.version
  }

  function StatusLine(r: Response): string {
    r.version + " " + Decimal(r.status) + " " + r.text
  }

  ghost function Message(line: string, h: Headers, order: seq<string>, body: string): string
    requires OrderOf(h, order)
  {
    line + CRLF + (HeaderLines(h, order) + (CRLF + body))
  }

  ghost function SerializeRequest(r: Request, order: seq<string>): string
    requires OrderOf(r.headers, order)
  {
    Message(RequestLine(r), r.headers, order, r.body)
  }

  ghost function SerializeResponse(r: Response, order: seq<string>): string
    requires OrderOf(r.headers, order)
  {
    Message(StatusLine(r), r.headers, order, r.body)
  }

  // ----- One line -----

  lemma ReadLineBack(line: string, rest: string)
    requires '\n' !in line
    ensures ReadLine(line + CRLF + rest) == Some((line + CRLF, rest))
  {
    var head := line + "\r";
    assert '\n' !in head;
    IndexOfFirst(head, '\n', rest);
    assert line + CRLF + rest == head + ['\n'] + rest;
    assert (line + CRLF + rest)[..|head| + 1] == line + CRLF;
    assert (line + CRLF + rest)[|head| + 1..] == rest;
  }

  /** What a header name and a value must be to survive: trimmed, and no colon in the name. */
  predicate PlainField(key: string, value: string) {
    Trimmed(key) && ':' !in key && Trimmed(value)
  }

  lemma TrimmedLine(key: string, value: string)
    requires Trimmed(key) && Trimmed(value)
    ensures Trim(FieldLine(key, value)) == key + (if value == "" then ":" else ": " + value)
  {
    var line := key + (if value == "" then ":" else ": " + value);
    var pad := if value == "" then " " + CRLF else CRLF;
    assert Trimmed(line);
    TrimPadding(line, pad);
    assert FieldLine(key, value) == line + pad;
  }

  lemma FieldBack(key: string, value: string)
    requires PlainField(key, value)
    ensures Trim(FieldLine(key, value)) != "" && Field(Trim(FieldLine(key, value))) == Some((key, value))
  {
    TrimmedLine(key, value);
    var line := Trim(FieldLine(key, value));
    var after := if value == "" then "" else " " + value;
    assert line == key + [':'] + after;
    IndexOfFirst(key, ':', after);
    assert line[..|key|] == key && line[|key| + 1..] == after;
    TrimExactly(key);
    TrimExactly(value);
    if value != "" {
      TrimBefore(' ', value);
    }
  }

  /** A field line without line feeds reads back as the same field exactly when it is plain. */
  lemma FieldExactly(key: string, value: string)
    ensures Field(Trim(FieldLine(key, value))) == Some((key, value)) <==> PlainField(key, value)
  {
    if PlainField(key, value) {
      FieldBack(key, value);
    }
    var line := Trim(FieldLine(key, value));
    if Field(line) == Some((key, value)) {
      var i := IndexOf(line, ':').value;
      TrimExactly(line[..i]);
      TrimExactly(line[i + 1..]);
      TrimKeepsOut(line[..i], ':');
    }
  }

  lemma TrimKeepsOut(s: string, c: char)
    requires c !in s
    ensures c !in Trim(s)
  {
    TrimLeftStarts(s);
    TrimRightEnds(TrimLeft(s));
    var t := TrimLeft(s);
    assert forall i :: 0 <= i < |t| ==> t[i] == s[|s| - |t| + i];
    assert forall i :: 0 <= i < |Trim(s)| ==> Trim(s)[i] == t[i];
  }

  // ----- The headers -----

  predicate PlainValues(key: string, values: seq<string>) {
    Lower(key) == key && '\n' !in key
    && forall i :: 0 <= i < |values| ==> '\n' !in values[i] && PlainField(key, values[i])
  }

  /** Lower-case names, and fields that survive as lines. */
  predicate PlainHeaders(h: Headers) {
    forall k :: k in h && h[k] != [] ==> PlainValues(k, h[k])
  }

  /** The names that have a value. */
  function Kept(h: Headers): Headers {
    map k | k in h && h[k] != [] :: h[k]
  }

  function AddedAll(h: Headers, key: string, values: seq<string>): Headers
    decreases |values|
  {
    if values == [] then h else AddedAll(Added(h, key, values[0]), key, values[1..])
  }

  lemma {:induction false} AddedAllAppends(h: Headers, key: string, values: seq<string>)
    requires Lower(key) == key
    ensures AddedAll(h, key, values)
         == if values == [] then h else h[key := (if key in h then h[key] else []) + values]
    decreases |values|
  {
    if values != [] {
      AddedAllAppends(Added(h, key, values[0]), key, values[1..]);
      var before := if key in h then h[key] else [];
      assert before + values == (before + [values[0]]) + values[1..];
      var h1 := Added(h, key, values[0]);
      assert h1 == h[key := before + [values[0]]];
      if values[1..] == [] {
        assert values == [values[0]];
      } else {
        assert h1[key := h1[key] + values[1..]] == h[key := before + values];
      }
    }
  }

  lemma FieldLineBack(key: string, value: string, rest: string, h: Headers)
    requires '\n' !in key && '\n' !in value && PlainField(key, value)
    ensures ParseHeaders(FieldLine(key, value) + rest, h) == ParseHeaders(rest, Added(h, key, value))
  {
    var line := key + ": " + value;
    assert '\n' !in line;
    ReadLineBack(line, rest);
    FieldBack(key, value);
    assert FieldLine(key, value) == line + CRLF;
  }

  lemma {:induction false} ValuesBack(key: string, values: seq<string>, rest: string, h: Headers)
    requires PlainValues(key, values)
    ensures ParseHeaders(ValueLines(key, values) + rest, h) == ParseHeaders(rest, AddedAll(h, key, values))
    decreases |values|
  {
    if values == [] {
      assert ValueLines(key, values) + rest == rest;
    } else {
      var more := ValueLines(key, values[1..]) + rest;
      assert ValueLines(key, values) + rest == FieldLine(key, values[0]) + more;
      FieldLineBack(key, values[0], more, h);
      ValuesBack(key, values[1..], rest, Added(h, key, values[0]));
    }
  }

  predicate Fresh(h0: Headers, order: seq<string>) {
    && (forall i :: 0 <= i < |order| ==> order[i] !in h0)
    && (forall i, j :: 0 <= i < j < |order| ==> order[i] != order[j])
  }

  function KeptOf(h: Headers, order: seq<string>): Headers {
    map k | k in h && k in order && h[k] != [] :: h[k]
  }

  lemma FirstAndRest(order: seq<string>, k: string)
    requires order != []
    ensures k in order <==> k == order[0] || k in order[1..]
  {
    if k in order && k != order[0] {
      var i :| 0 <= i < |order| && order[i] == k;
      assert order[1..][i - 1] == k;
    }
  }

  lemma FreshRest(h0: Headers, order: seq<string>, values: seq<string>)
    requires order != [] && Fresh(h0, order)
    ensures Fresh(h0, order[1..]) && Fresh(h0[order[0] := values], order[1..]) && order[0] !in order[1..]
  {
    assert forall i :: 0 <= i < |order[1..]| ==> order[1..][i] == order[i + 1];
  }

  lemma KeptStep(h0: Headers, h: Headers, order: seq<string>)
    requires order != [] && Fresh(h0, order) && order[0] in h
    ensures var k := order[0];
            var h1 := if h[k] == [] then h0 else h0[k := h[k]];
            Fresh(h1, order[1..]) && h1 + KeptOf(h, order[1..]) == h0 + KeptOf(h, order)
  {
    var k := order[0];
    FreshRest(h0, order, h[k]);
    forall q
      ensures q in order <==> q == k || q in order[1..]
    {
      FirstAndRest(order, q);
    }
    var rest := KeptOf(h, order[1..]);
    if h[k] == [] {
      assert KeptOf(h, order) == rest;
    } else {
      assert KeptOf(h, order) == rest[k := h[k]];
      assert h0[k := h[k]] + rest == h0 + rest[k := h[k]];
    }
  }

  /** Whatever the order of iteration, the printed header lines read back as the same values under the
      same names, in the order they had. */
  lemma {:induction false} HeadersBack(h: Headers, order: seq<string>, rest: string, h0: Headers)
    requires PlainHeaders(h) && Fresh(h0, order) && forall i :: 0 <= i < |order| ==> order[i] in h
    ensures ParseHeaders(HeaderLines(h, order) + rest, h0) == ParseHeaders(rest, h0 + KeptOf(h, order))
    decreases |order|
  {
    if order == [] {
      assert HeaderLines(h, order) + rest == rest;
      assert h0 + KeptOf(h, order) == h0;
    } else {
      var k := order[0];
      var more := HeaderLines(h, order[1..]) + rest;
      assert HeaderLines(h, order) + rest == ValueLines(k, h[k]) + more;
      KeptStep(h0, h, order);
      if h[k] == [] {
        assert ValueLines(k, h[k]) + more == more;
        HeadersBack(h, order[1..], rest, h0);
      } else {
        ValuesBack(k, h[k], more, h0);
        AddedAllAppends(h0, k, h[k]);
        assert [] + h[k] == h[k];
        HeadersBack(h, order[1..], rest, h0[k := h[k]]);
      }
    }
  }

  lemma BlankLine(body: string, h: Headers)
    ensures ParseHeaders(CRLF + body, h) == Some((h, body))
  {
    ReadLineBack("", body);
    assert "" + CRLF + body == CRLF + body;
    AllSpaceTrims("" + CRLF);
  }

  /** The first line apart, a printed message reads back as its headers and body. */
  lemma HeadBack(line: string, h: Headers, order: seq<string>, body: string)
    requires PlainHeaders(h) && OrderOf(h, order) && '\n' !in line
    ensures ReadLine(Message(line, h, order, body)).Some?
    ensures var r := ReadLine(Message(line, h, order, body)).value;
            r.0 == line + CRLF && ParseHeaders(r.1, map[]) == Some((Kept(h), body))
  {
    ReadLineBack(line, HeaderLines(h, order) + (CRLF + body));
    HeadersBack(h, order, CRLF + body, map[]);
    assert map[] + KeptOf(h, order) == Kept(h);
    BlankLine(body, Kept(h));
  }

  // ----- The body -----

  /** Content-Length is absent and the body empty, or it is the length of the body. */
  predicate LengthAgrees(h: Headers, body: string) {
    var length := First(h, CONTENT_LENGTH);
    if length == "" then body == ""
    else Atoi(length).Some? && (Atoi(length).value == |body| || (Atoi(length).value < 0 && body == ""))
  }

  lemma BodyExactly(h: Headers, body: string)
    ensures ParseBody(Kept(h), body) == Some(body) <==> LengthAgrees(h, body)
  {
    assert First(Kept(h), CONTENT_LENGTH) == First(h, CONTENT_LENGTH);
    var length := First(h, CONTENT_LENGTH);
    if length != "" && Atoi(length).Some? && 0 < Atoi(length).value <= |body| {
      assert body[..|body|] == body;
      assert body[..Atoi(length).value] == body ==> Atoi(length).value == |body|;
    }
  }

  // ----- The first lines -----

  /** The request line splits into the same three parts. */
  predicate PlainRequest(r: Request) {
    && ' ' !in r.verb && ' ' !in r.url && ' ' !in r.version
    && r.verb != "" && !Space(r.verb[0]) && r.version != "" && !Space(r.version[|r.version| - 1])
  }

  function Join(parts: seq<string>): string {
    if parts == [] then "" else if |parts| == 1 then parts[0] else parts[0] + " " + Join(parts[1..])
  }

  lemma JoinCons(a: string, parts: seq<string>)
    requires parts != []
    ensures Join([a] + parts) == a + " " + Join(parts)
  {
    assert ([a] + parts)[1..] == parts;
  }

  lemma CutAt(s: string, i: nat)
    requires i < |s| && s[i] == ' '
    ensures s == s[..i] + " " + s[i + 1..]
  {
  }

  lemma {:induction false} SplitJoins(s: string)
    ensures Join(Split(s)) == s && forall i :: 0 <= i < |Split(s)| ==> ' ' !in Split(s)[i]
    decreases |s|
  {
    var i := IndexOf(s, ' ');
    if i.Some? {
      var rest := Split(s[i.value + 1..]);
      SplitJoins(s[i.value + 1..]);
      JoinCons(s[..i.value], rest);
      CutAt(s, i.value);
    }
  }

  lemma JoinThree(a: string, b: string, c: string)
    ensures Join([a, b, c]) == a + " " + b + " " + c
  {
    assert [a, b, c][1..] == [b, c] && [b, c][1..] == [c];
    assert Join([b, c]) == b + " " + c;
    assert a + " " + (b + " " + c) == a + " " + b + " " + c;
  }

  lemma SplitThree(a: string, b: string, c: string)
    requires ' ' !in a && ' ' !in b && ' ' !in c
    ensures Split(a + " " + b + " " + c) == [a, b, c]
  {
    assert a + " " + (b + " " + c) == a + " " + b + " " + c;
    SplitAt(a, b + " " + c);
    SplitAt(b, c);
    SplitOne(c);
  }

  lemma RequestLineExactly(r: Request)
    ensures Split(Trim(RequestLine(r) + CRLF)) == [r.verb, r.url, r.version] <==> PlainRequest(r)
  {
    var line, parts := RequestLine(r), [r.verb, r.url, r.version];
    if PlainRequest(r) {
      TrimPadding(line, CRLF);
      SplitThree(r.verb, r.url, r.version);
    }
    if Split(Trim(line + CRLF)) == parts {
      SplitJoins(Trim(line + CRLF));
      JoinThree(r.verb, r.url, r.version);
      TrimExactly(line + CRLF);
      assert Trimmed(line);
      NoSpaceIn(parts);
    }
  }

  lemma NoSpaceIn(parts: seq<string>)
    requires |parts| == 3 && forall i :: 0 <= i < |parts| ==> ' ' !in parts[i]
    ensures ' ' !in parts[0] && ' ' !in parts[1] && ' ' !in parts[2]
  {
  }

  // ----- What the parsers return -----

  lemma LowerLower(s: string)
    ensures Lower(Lower(s)) == Lower(s)
  {
    assert forall i :: 0 <= i < |s| ==> Lower(Lower(s))[i] == Lower(s)[i];
  }

  /** Lower case changes letters only. */
  lemma LowerKeepsOut(s: string, c: char)
    requires c !in s && !('a' <= c <= 'z')
    ensures c !in Lower(s)
  {
  }

  lemma LowerKeepsTrimmed(s: string)
    requires Trimmed(s)
    ensures Trimmed(Lower(s))
  {
  }

  /** Trimming a line takes the line feed with it. */
  lemma LineHasNoFeed(s: string)
    requires ReadLine(s).Some?
    ensures '\n' !in Trim(ReadLine(s).value.0)
  {
    var line := ReadLine(s).value.0;
    var body := line[..|line| - 1];
    var i := IndexOf(s, '\n').value;
    assert body == s[..i] && line == body + ['\n'];
    TrimLastSpace(body, '\n');
    TrimKeepsOut(body, '\n');
  }

  lemma TrimLastSpace(s: string, c: char)
    requires Space(c)
    ensures Trim(s + [c]) == Trim(s)
  {
    if AllSpace(s) {
      AllSpaceTrims(s);
      AllSpaceTrims(s + [c]);
    } else {
      TrimLeftOfLonger(s, [c]);
      TrimRightPadding(TrimLeft(s), [c]);
    }
  }

  lemma {:induction false} TrimLeftOfLonger(s: string, pad: string)
    requires !AllSpace(s)
    ensures TrimLeft(s + pad) == TrimLeft(s) + pad
  {
    if Space(s[0]) {
      assert (s + pad)[1..] == s[1..] + pad;
      TrimLeftOfLonger(s[1..], pad);
    }
  }

  /** A header field that was parsed from a trimmed line is plain under its lower-case name. */
  lemma ParsedFieldIsPlain(line: string)
    requires '\n' !in line && Field(line).Some?
    ensures var (key, value) := Field(line).value;
            '\n' !in Lower(key) && '\n' !in value && PlainField(Lower(key), value)
  {
    var i := IndexOf(line, ':').value;
    var name, rest := line[..i], line[i + 1..];
    TrimExactly(name);
    TrimExactly(rest);
    TrimKeepsOut(name, ':');
    TrimKeepsOut(name, '\n');
    TrimKeepsOut(rest, '\n');
    LowerKeepsOut(Trim(name), ':');
    LowerKeepsOut(Trim(name), '\n');
    LowerKeepsTrimmed(Trim(name));
  }

  lemma AddedIsPlain(h: Headers, key: string, value: string)
    requires PlainHeaders(h) && '\n' !in Lower(key) && '\n' !in value && PlainField(Lower(key), value)
    ensures PlainHeaders(Added(h, key, value))
  {
    LowerLower(key);
  }

  /** Whatever was printed, the headers that a parser returns are plain. */
  lemma {:induction false} ParsedIsPlain(s: string, h: Headers)
    requires PlainHeaders(h) && ParseHeaders(s, h).Some?
    ensures PlainHeaders(ParseHeaders(s, h).value.0)
    decreases |s|
  {
    hide PlainHeaders, Field, Trim, Added;
    var r := ReadLine(s).value;
    var line := Trim(r.0);
    LineHasNoFeed(s);
    if line != "" {
      if Field(line).Some? {
        ParsedFieldIsPlain(line);
        AddedIsPlain(h, Field(line).value.0, Field(line).value.1);
      }
      ParsedIsPlain(r.1, WithField(h, Field(line)));
    }
  }

  lemma KeptIsPlain(h: Headers)
    requires PlainHeaders(Kept(h))
    ensures PlainHeaders(h)
  {
    var kept := Kept(h);
    forall k | k in h && h[k] != []
      ensures PlainValues(k, h[k])
    {
      assert k in kept && kept[k] == h[k];
    }
  }

  /** A message whose headers come back has plain ones. */
  lemma OnlyPlainComesBack(s: string, h: Headers)
    requires ParseHeaders(s, map[]).Some? && ParseHeaders(s, map[]).value.0 == Kept(h)
    ensures PlainHeaders(h)
  {
    ParsedIsPlain(s, map[]);
    KeptIsPlain(h);
  }

  lemma {:induction false} SplitKeepsOut(s: string, c: char)
    requires c !in s
    ensures forall i :: 0 <= i < |Split(s)| ==> c !in Split(s)[i]
    decreases |s|
  {
    var i := IndexOf(s, ' ');
    if i.Some? {
      SplitKeepsOut(s[i.value + 1..], c);
    }
  }

  lemma {:induction false} SplitNKeepsOut(s: string, n: nat, c: char)
    requires n > 0 && c !in s
    ensures forall i :: 0 <= i < |SplitN(s, n)| ==> c !in SplitN(s, n)[i]
  {
    var i := IndexOf(s, ' ');
    if n > 1 && i.Some? {
      SplitNKeepsOut(s[i.value + 1..], n - 1, c);
    }
  }

  /** A request that reads back has a first line without line feeds and plain headers. */
  lemma RequestComesBackPlain(r: Request, s: string)
    requires ParseRequest(s) == Some(r.(headers := Kept(r.headers)))
    ensures '\n' !in RequestLine(r) && PlainHeaders(r.headers)
  {
    hide Trim, Split, ParseHeaders, ParseBody, PlainHeaders, Kept;
    var first := ReadLine(s).value;
    var parts := Split(Trim(first.0));
    LineHasNoFeed(s);
    SplitKeepsOut(Trim(first.0), '\n');
    assert '\n' !in parts[0] && '\n' !in parts[1] && '\n' !in parts[2];
    OnlyPlainComesBack(first.1, r.headers);
  }

  /** A request reads back, but for names without values, exactly when its headers are plain, its first
      line has no line feed and three parts, and Content-Length agrees with its body, whatever the order
      in which the header map was iterated. */
  lemma RequestRoundTripExactly(r: Request, order: seq<string>)
    requires OrderOf(r.headers, order)
    ensures ParseRequest(SerializeRequest(r, order)) == Some(r.(headers := Kept(r.headers)))
       <==> && PlainHeaders(r.headers) && '\n' !in RequestLine(r)
            && PlainRequest(r) && LengthAgrees(r.headers, r.body)
  {
    if ParseRequest(SerializeRequest(r, order)) == Some(r.(headers := Kept(r.headers))) {
      RequestComesBackPlain(r, SerializeRequest(r, order));
    }
    if PlainHeaders(r.headers) && '\n' !in RequestLine(r) {
      PlainRequestExactly(r, order);
    }
  }

  lemma PlainRequestExactly(r: Request, order: seq<string>)
    requires PlainHeaders(r.headers) && OrderOf(r.headers, order) && '\n' !in RequestLine(r)
    ensures ParseRequest(SerializeRequest(r, order)) == Some(r.(headers := Kept(r.headers)))
       <==> PlainRequest(r) && LengthAgrees(r.headers, r.body)
  {
    HeadBack(RequestLine(r), r.headers, order, r.body);
    RequestLineExactly(r);
    BodyExactly(r.headers, r.body);
  }

  // ----- Responses -----

  /** The status line reads back; the text may be empty. */
  predicate PlainResponse(r: Response) {
    && ' ' !in r.version && r.version != "" && !Space(r.version[0])
    && (r.text == "" || !Space(r.text[|r.text| - 1]))
    && -(MAX_INT + 1) <= r.status <= MAX_INT
  }

  lemma SplitStatus(version: string, code: string, text: string)
    requires ' ' !in version && ' ' !in code
    ensures SplitN(version + " " + code + " " + text, 3) == [version, code, text]
    ensures SplitN(version + " " + code, 3) == [version, code]
  {
    assert version + " " + (code + " " + text) == version + " " + code + " " + text;
    SplitAt(version, code + " " + text);
    SplitAt(code, text);
    SplitAt(version, code);
    SplitOne(code);
  }

  lemma TrimmedStatus(r: Response)
    requires PlainResponse(r)
    ensures Trim(StatusLine(r) + CRLF)
         == if r.text == "" then r.version + " " + Decimal(r.status) else StatusLine(r)
  {
    AtoiDecimalExactly(r.status);
    if r.text == "" {
      var line := r.version + " " + Decimal(r.status);
      TrimPadding(line, " " + CRLF);
      assert StatusLine(r) + CRLF == line + (" " + CRLF);
    } else {
      TrimPadding(StatusLine(r), CRLF);
    }
  }

  lemma StatusBack(r: Response)
    requires PlainResponse(r)
    ensures ParseStatus(Trim(StatusLine(r) + CRLF)) == Some((r.version, r.status, r.text))
  {
    AtoiDecimalExactly(r.status);
    TrimmedStatus(r);
    SplitStatus(r.version, Decimal(r.status), r.text);
  }

  lemma {:induction false} SplitNJoins(s: string, n: nat)
    requires n > 0
    ensures Join(SplitN(s, n)) == s
    ensures |SplitN(s, n)| > 1 ==> ' ' !in SplitN(s, n)[0]
  {
    var i := IndexOf(s, ' ');
    if n > 1 && i.Some? {
      var rest := SplitN(s[i.value + 1..], n - 1);
      SplitNJoins(s[i.value + 1..], n - 1);
      JoinCons(s[..i.value], rest);
      CutAt(s, i.value);
    }
  }

  lemma AtoiFits(s: string)
    ensures Atoi(s).Some? ==> -(MAX_INT + 1) <= Atoi(s).value <= MAX_INT
  {
  }

  /** A status line that reads back is a plain one. */
  lemma StatusOnlyPlain(r: Response)
    requires ParseStatus(Trim(StatusLine(r) + CRLF)) == Some((r.version, r.status, r.text))
    ensures PlainResponse(r)
  {
    hide Trim, SplitN, Atoi, Decimal;
    var line := Trim(StatusLine(r) + CRLF);
    var parts := SplitN(line, 3);
    SplitNJoins(line, 3);
    TrimExactly(StatusLine(r) + CRLF);
    AtoiFits(parts[1]);
    if |parts| == 3 {
      assert parts == [r.version, parts[1], r.text];
      JoinThree(r.version, parts[1], r.text);
      assert line == r.version + " " + (parts[1] + " " + r.text);
      TrimmedEnds(r.version, parts[1] + " " + r.text, r.text);
    } else {
      assert parts == [r.version, parts[1]];
      JoinTwo(r.version, parts[1]);
      TrimmedEnds(r.version, parts[1], parts[1]);
    }
  }

  lemma TrimmedEnds(a: string, rest: string, b: string)
    requires Trimmed(a + " " + rest) && |b| <= |rest| && rest[|rest| - |b|..] == b
    ensures a != "" && !Space(a[0]) && (b == "" || !Space(b[|b| - 1]))
  {
    var line := a + " " + rest;
    assert line[0] == if a == "" then ' ' else a[0];
    if b != "" {
      assert line[|line| - 1] == rest[|rest| - 1] == b[|b| - 1];
    }
  }

  lemma JoinTwo(a: string, b: string)
    ensures Join([a, b]) == a + " " + b
  {
    assert [a, b][1..] == [b];
  }

  lemma ResponseComesBackPlain(r: Response, s: string)
    requires ParseResponse(s) == Some(r.(headers := Kept(r.headers)))
    ensures '\n' !in StatusLine(r) && PlainHeaders(r.headers)
  {
    hide Trim, SplitN, ParseHeaders, ParseBody, PlainHeaders, Kept, Atoi, Decimal;
    var first := ReadLine(s).value;
    var parts := SplitN(Trim(first.0), 3);
    LineHasNoFeed(s);
    SplitNKeepsOut(Trim(first.0), 3, '\n');
    assert '\n' !in parts[0] && (|parts| >= 3 ==> '\n' !in parts[2]);
    AtoiDecimalExactly(r.status);
    OnlyPlainComesBack(first.1, r.headers);
  }

  /** The same for responses; the code must be a 64-bit number. */
  lemma ResponseRoundTripExactly(r: Response, order: seq<string>)
    requires OrderOf(r.headers, order)
    ensures ParseResponse(SerializeResponse(r, order)) == Some(r.(headers := Kept(r.headers)))
       <==> && PlainHeaders(r.headers) && '\n' !in StatusLine(r)
            && PlainResponse(r) && LengthAgrees(r.headers, r.body)
  {
    if ParseResponse(SerializeResponse(r, order)) == Some(r.(headers := Kept(r.headers))) {
      ResponseComesBackPlain(r, SerializeResponse(r, order));
    }
    if PlainHeaders(r.headers) && '\n' !in StatusLine(r) {
      PlainResponseExactly(r, order);
    }
  }

  lemma PlainResponseExactly(r: Response, order: seq<string>)
    requires PlainHeaders(r.headers) && OrderOf(r.headers, order) && '\n' !in StatusLine(r)
    ensures ParseResponse(SerializeResponse(r, order)) == Some(r.(headers := Kept(r.headers)))
       <==> PlainResponse(r) && LengthAgrees(r.headers, r.body)
  {
    HeadBack(StatusLine(r), r.headers, order, r.body);
    if PlainResponse(r) {
      StatusBack(r);
    }
    if ParseStatus(Trim(StatusLine(r) + CRLF)) == Some((r.version, r.status, r.text)) {
      StatusOnlyPlain(r);
    }
    BodyExactly(r.headers, r.body);
  }

  // ----- Messages as the package makes them -----

  function StatusText(code: int): string {
    if code < 400 then SuccessText(code) else ErrorText(code)
  }

  function SuccessText(code: int): string {
    match code
    case 200 => "OK"
    case 201 => "Created"
    case 202 => "Accepted"
    case 204 => "No Content"
    case 301 => "Moved Permanently"
    case 302 => "Found"
    case 304 => "Not Modified"
    case _ => "Unknown"
  }

  function ErrorText(code: int): string {
    match code
    case 400 => "Bad Request"
    case 401 => "Unauthorized"
    case 403 => "Forbidden"
    case 404 => "Not Found"
    case 405 => "Method Not Allowed"
    case 500 => "Internal Server Error"
    case 501 => "Not Implemented"
    case 502 => "Bad Gateway"
    case 503 => "Service Unavailable"
    case _ => "Unknown"
  }

  function SetTo(h: Headers, key: string, value: string): Headers {
    h[Lower(key) := [value]]
  }

  lemma ContentLengthName()
    ensures Lower("Content-Length") == CONTENT_LENGTH == Lower(CONTENT_LENGTH)
  {
    var name := "Content-Length";
    assert |name| == |CONTENT_LENGTH| == 14;
    assert forall i :: 0 <= i < 14 ==> LowerChar(name[i]) == CONTENT_LENGTH[i] == LowerChar(CONTENT_LENGTH[i]);
  }

  /** SetBody keeps Content-Length in step with the body, whatever it was before. */
  lemma SetBodyAgrees(h: Headers, body: string)
    requires |body| <= MAX_INT
    ensures LengthAgrees(SetTo(h, "Content-Length", Itoa(|body|)), body)
  {
    ContentLengthName();
    LengthSetAgrees(h[CONTENT_LENGTH := [Itoa(|body|)]], body);
  }

  lemma LengthSetAgrees(h: Headers, body: string)
    requires |body| <= MAX_INT && Lower(CONTENT_LENGTH) == CONTENT_LENGTH
    requires CONTENT_LENGTH in h && h[CONTENT_LENGTH] == [Itoa(|body|)]
    ensures LengthAgrees(h, body)
  {
    AtoiDecimalExactly(|body|);
    assert Decimal(|body|) == Itoa(|body|);
  }

  /** GetResponse of the response writer: the length is added when there is none, and the version is
      never set. */
  function WriterResponse(status: int, headers: Headers, body: string): Response {
    var h := Kept(headers);
    Response("", status, StatusText(status),
             if CONTENT_LENGTH in h then h else SetTo(h, "Content-Length", Itoa(|body|)), body)
  }

  /** A phrase starts with a capital letter and ends without white space. */
  predicate Phrase(t: string) {
    t != "" && 'A' <= t[0] <= 'Z' && !Space(t[|t| - 1]) && '\n' !in t
  }

  lemma SuccessTextIsPhrase(code: int)
    ensures Phrase(SuccessText(code))
  {
  }

  lemma ErrorTextIsPhrase(code: int)
    ensures Phrase(ErrorText(code))
  {
  }

  lemma WordIsNoNumber(text: string)
    requires Phrase(text)
    ensures Atoi(SplitN(text, 2)[0]).None?
  {
    var i := IndexOf(text, ' ');
    var word := SplitN(text, 2)[0];
    assert word[0] == text[0];
    assert !IsDigit(word[0]);
  }

  lemma VersionlessStatus(code: string, text: string)
    requires ' ' !in code && Trimmed(code) && code != "" && Phrase(text)
    ensures ParseStatus(Trim("" + " " + code + " " + text + CRLF)) == None
  {
    var line := code + " " + text;
    TrimmedAfterSpace(line);
    assert "" + " " + code + " " + text + CRLF == " " + line + CRLF;
    SplitAt(code, text);
    WordIsNoNumber(text);
    assert SplitN(line, 3) == [code] + SplitN(text, 2);
    assert SplitN(line, 3)[1] == SplitN(text, 2)[0];
  }

  /** What the response writer makes is refused by the response parser, whatever the status, the
      headers and the body: the code is read as the version and a word as the code. */
  lemma WriterResponseNeverReadsBack(status: int, headers: Headers, body: string, order: seq<string>)
    requires OrderOf(WriterResponse(status, headers, body).headers, order)
    ensures var r := WriterResponse(status, headers, body); ParseResponse(SerializeResponse(r, order)) == None
  {
    var r := WriterResponse(status, headers, body);
    SuccessTextIsPhrase(status);
    ErrorTextIsPhrase(status);
    AtoiDecimalExactly(status);
    VersionlessStatus(Decimal(status), r.text);
    ReadLineBack(StatusLine(r), HeaderLines(r.headers, order) + (CRLF + r.body));
  }

  lemma TrimmedAfterSpace(line: string)
    requires Trimmed(line) && line != ""
    ensures Trim(" " + line + CRLF) == line
  {
    TrimPadding(line, CRLF);
    assert (" " + line + CRLF)[1..] == line + CRLF;
    assert TrimLeft(" " + line + CRLF) == TrimLeft(line + CRLF);
  }

  /** The writer adds a Content-Length that agrees with the body when the handler set none; one that the
      handler set is kept, right or wrong. */
  lemma WriterLengthExactly(status: int, headers: Headers, body: string)
    requires |body| <= MAX_INT
    ensures var r := WriterResponse(status, headers, body);
            r.version == "" && r.status == status && r.body == body && r.text == StatusText(status)
    ensures var h := WriterResponse(status, headers, body).headers;
            && (CONTENT_LENGTH !in Kept(headers) ==>
                  LengthAgrees(h, body) && h == Kept(headers)[CONTENT_LENGTH := [Itoa(|body|)]])
            && (CONTENT_LENGTH in Kept(headers) ==>
                  h == Kept(headers) && (LengthAgrees(h, body) <==> LengthAgrees(headers, body)))
  {
    ContentLengthName();
    if CONTENT_LENGTH !in Kept(headers) {
      LengthSetAgrees(Kept(headers)[CONTENT_LENGTH := [Itoa(|body|)]], body);
    } else {
      assert First(Kept(headers), CONTENT_LENGTH) == First(headers, CONTENT_LENGTH);
    }
  }

  // ----- The text itself -----

  /** A request with one header, character for character. */
  lemma RequestImage(verb: string, url: string, version: string, key: string, value: string, body: string)
    ensures var r := Request(verb, url, version, map[key := [value]], body);
            OrderOf(r.headers, [key])
            && SerializeRequest(r, [key])
               == verb + " " + url + " " + version + "\r\n" + key + ": " + value + "\r\n" + "\r\n" + body
  {
    var h: Headers := map[key := [value]];
    OneLine(h, key, value);
    hide HeaderLines;
    var line := verb + " " + url + " " + version;
    assert line + "\r\n" + ((key + ": " + value + "\r\n") + ("\r\n" + body))
        == line + "\r\n" + key + ": " + value + "\r\n" + "\r\n" + body;
  }

  lemma OneLine(h: Headers, key: string, value: string)
    requires h == map[key := [value]]
    ensures OrderOf(h, [key]) && HeaderLines(h, [key]) == key + ": " + value + "\r\n"
  {
    assert [key][1..] == [] && [value][1..] == [];
    assert ValueLines(key, [value]) == FieldLine(key, value) + "";
    assert HeaderLines(h, [key]) == ValueLines(key, [value]) + "";
  }

  /** A response with one header. */
  lemma ResponseImage(version: string, text: string, key: string, value: string, body: string)
    ensures var r := Response(version, 404, text, map[key := [value]], body);
            OrderOf(r.headers, [key])
            && SerializeResponse(r, [key])
               == version + " " + "404" + " " + text + "\r\n" + key + ": " + value + "\r\n" + "\r\n" + body
  {
    var h: Headers := map[key := [value]];
    OneLine(h, key, value);
    assert Itoa(4) == "4" && Itoa(40) == "40" && Itoa(404) == "404";
    hide HeaderLines;
    var line := version + " " + "404" + " " + text;
    assert line + "\r\n" + ((key + ": " + value + "\r\n") + ("\r\n" + body))
        == line + "\r\n" + key + ": " + value + "\r\n" + "\r\n" + body;
  }

  /** A header line ends at its line feed, with or without a carriage return. One without a colon is
      skipped; one with a colon adds its value under the lower-case name, however it is spelled. */
  lemma LinesRead(line: string, rest: string, h: Headers)
    requires '\n' !in line
    ensures Trim(line) != "" && ':' !in line ==> ParseHeaders(line + "\n" + rest, h) == ParseHeaders(rest, h)
    ensures Trim(line) == "" ==> ParseHeaders(line + "\n" + rest, h) == Some((h, rest))
    ensures forall i :: 0 <= i < |Trim(line)| && Trim(line)[i] == ':' && ':' !in Trim(line)[..i] ==>
              ParseHeaders(line + "\n" + rest, h)
              == ParseHeaders(rest, Added(h, Trim(Trim(line)[..i]), Trim(Trim(line)[i + 1..])))
  {
    var s := line + "\n" + rest;
    LineEnds(line, rest);
    TrimLastSpace(line, '\n');
    var t := Trim(line);
    if t != "" {
      if ':' !in line {
        TrimKeepsOut(line, ':');
        assert Field(t).None?;
      }
      forall i | 0 <= i < |t| && t[i] == ':' && ':' !in t[..i]
        ensures IndexOf(t, ':') == Some(i)
      {
        assert t == t[..i] + [':'] + t[i + 1..];
        IndexOfFirst(t[..i], ':', t[i + 1..]);
      }
    }
  }

  lemma LineEnds(line: string, rest: string)
    requires '\n' !in line
    ensures ReadLine(line + "\n" + rest) == Some((line + "\n", rest))
  {
    IndexOfFirst(line, '\n', rest);
    var s := line + "\n" + rest;
    assert s[..|line| + 1] == line + "\n" && s[|line| + 1..] == rest;
  }

  // ----- The objects and loops -----

  class HTTPHeaders {
    var fields: Headers

    constructor ()
      ensures fields == map[]
    {
      fields := map[];
    }

    /** Names differ only when their lower-case forms do: every spelling of the name sees the value
        behind the earlier ones, and Get goes on giving the first of them. */
    method Add(key: string, value: string)
      modifies this
      ensures forall name :: Lower(name) == Lower(key) ==>
                Has(name) && GetAll(name) == old(GetAll(key)) + [value]
                && Get(name) == if old(GetAll(key)) == [] then value else old(Get(key))
      ensures forall name :: Lower(name) != Lower(key) ==>
                Has(name) == old(Has(name)) && GetAll(name) == old(GetAll(name))
      ensures fields == Added(old(fields), key, value)
    {
      var k := Lower(key);
      fields := fields[k := (if k in fields then fields[k] else []) + [value]];
    }

    /** Whatever was there, every spelling of the name then has the one value. */
    method Set(key: string, value: string)
      modifies this
      ensures forall name :: Lower(name) == Lower(key) ==>
                Has(name) && GetAll(name) == [value] && Get(name) == value
      ensures forall name :: Lower(name) != Lower(key) ==>
                Has(name) == old(Has(name)) && GetAll(name) == old(GetAll(name))
      ensures fields == SetTo(old(fields), key, value)
    {
      fields := fields[Lower(key) := [value]];
    }

    /** Afterwards no spelling of the name has a value. */
    method Del(key: string)
      modifies this
      ensures forall name :: Lower(name) == Lower(key) ==> !Has(name) && GetAll(name) == [] && Get(name) == ""
      ensures forall name :: Lower(name) != Lower(key) ==>
                Has(name) == old(Has(name)) && GetAll(name) == old(GetAll(name))
    {
      fields := fields - {Lower(key)};
    }

    function Get(key: string): (value: string)
      reads this
      ensures value == if GetAll(key) == [] then "" else GetAll(key)[0]
    {
      First(fields, key)
    }

    function GetAll(key: string): (values: seq<string>)
      reads this
      ensures values != [] ==> Has(key)
    {
      if Lower(key) in fields then fields[Lower(key)] else []
    }

    predicate Has(key: string)
      reads this
    {
      Lower(key) in fields
    }
  }

  /** The header loop of both parsers. */
  method ReadHeaders(input: string) returns (result: Option<(Headers, string)>)
    ensures result == ParseHeaders(input, map[])
  {
    var headers := new HTTPHeaders();
    var rest := input;
    while true
      invariant ParseHeaders(rest, headers.fields) == ParseHeaders(input, map[])
      decreases |rest|
    {
      var r := ReadLine(rest);
      if r.None? {
        return None;
      }
      rest := r.value.1;
      var line := Trim(r.value.0);
      if line == "" {
        return Some((headers.fields, rest));
      }
      var colon := IndexOf(line, ':');
      if colon.None? {
        continue;
      }
      headers.Add(Trim(line[..colon.value]), Trim(line[colon.value + 1..]));
    }
  }

  method ReadBody(headers: Headers, rest: string) returns (body: Option<string>)
    ensures body == ParseBody(headers, rest)
  {
    var length := First(headers, CONTENT_LENGTH);
    if length != "" {
      var n := Atoi(length);
      if n.None? {
        return None;
      }
      if n.value > 0 {
        if |rest| < n.value {
          return None;
        }
        return Some(rest[..n.value]);
      }
    }
    return Some("");
  }

  method ParseHTTPRequest(input: string) returns (request: Option<Request>)
    ensures request == ParseRequest(input)
  {
    var first := ReadLine(input);
    if first.None? {
      return None;
    }
    var parts := Split(Trim(first.value.0));
    if |parts| != 3 {
      return None;
    }
    var headers := ReadHeaders(first.value.1);
    if headers.None? {
      return None;
    }
    var body := ReadBody(headers.value.0, headers.value.1);
    if body.None? {
      return None;
    }
    return Some(Request(parts[0], parts[1], parts[2], headers.value.0, body.value));
  }

  method ParseHTTPResponse(input: string) returns (response: Option<Response>)
    ensures response == ParseResponse(input)
  {
    var first := ReadLine(input);
    if first.None? {
      return None;
    }
    var parts := SplitN(Trim(first.value.0), 3);
    if |parts| < 2 {
      return None;
    }
    var code := Atoi(parts[1]);
    if code.None? {
      return None;
    }
    var text := "";
    if |parts| >= 3 {
      text := parts[2];
    }
    var headers := ReadHeaders(first.value.1);
    if headers.None? {
      return None;
    }
    var body := ReadBody(headers.value.0, headers.value.1);
    if body.None? {
      return None;
    }
    return Some(Response(parts[0], code.value, text, headers.value.0, body.value));
  }

  lemma HeaderLinesSnoc(h: Headers, order: seq<string>, k: string)
    requires (forall i :: 0 <= i < |order| ==> order[i] in h) && k in h
    ensures HeaderLines(h, order + [k]) == HeaderLines(h, order) + ValueLines(k, h[k])
  {
    if order == [] {
      assert order + [k] == [k] && [k][1..] == [];
      assert ValueLines(k, h[k]) + "" == ValueLines(k, h[k]);
    } else {
      HeaderLinesSnoc(h, order[1..], k);
      assert (order + [k])[1..] == order[1..] + [k];
      AppendAssoc(ValueLines(order[0], h[order[0]]), HeaderLines(h, order[1..]), ValueLines(k, h[k]));
    }
  }

  lemma AppendAssoc(a: string, b: string, c: string)
    ensures (a + b) + c == a + (b + c)
  {
  }

  lemma ValueLinesStep(key: string, values: seq<string>, i: nat)
    requires i < |values|
    ensures ValueLines(key, values[..i + 1]) == ValueLines(key, values[..i]) + FieldLine(key, values[i])
  {
    if i == 0 {
      assert values[..1][1..] == [] && values[..0] == [];
      assert FieldLine(key, values[0]) + "" == FieldLine(key, values[0]) == "" + FieldLine(key, values[0]);
    } else {
      ValueLinesStep(key, values[1..], i - 1);
      assert values[..i + 1][1..] == values[1..][..i] && values[..i][1..] == values[1..][..i - 1];
      AppendAssoc(FieldLine(key, values[0]), ValueLines(key, values[1..][..i - 1]), FieldLine(key, values[i]));
    }
  }

  /** The header loop of both printers; the map is iterated in any order. */
  method WriteHeaders(headers: Headers) returns (out: string, ghost order: seq<string>)
    ensures OrderOf(headers, order) && out == HeaderLines(headers, order)
  {
    out, order := "", [];
    var todo := headers.Keys;
    while todo != {}
      invariant todo <= headers.Keys
      invariant forall k :: k in headers ==> (k in order <==> k !in todo)
      invariant forall i :: 0 <= i < |order| ==> order[i] in headers
      invariant forall i, j :: 0 <= i < j < |order| ==> order[i] != order[j]
      invariant out == HeaderLines(headers, order)
      decreases todo
    {
      var key :| key in todo;
      var values := headers[key];
      var lines := "";
      for i := 0 to |values|
        invariant lines == ValueLines(key, values[..i])
      {
        ValueLinesStep(key, values, i);
        lines := lines + (key + ": " + values[i] + CRLF);
      }
      assert values[..|values|] == values;
      HeaderLinesSnoc(headers, order, key);
      out := out + lines;
      todo, order := todo - {key}, order + [key];
    }
  }

  method SerializeHTTPRequest(r: Request) returns (out: string)
    ensures exists order :: OrderOf(r.headers, order) && out == SerializeRequest(r, order)
  {
    var lines, order := WriteHeaders(r.headers);
    out := r.verb + " " + r.url + " " + r.version + CRLF + (lines + (CRLF + r.body));
    assert out == SerializeRequest(r, order);
  }

  method SerializeHTTPResponse(r: Response) returns (out: string)
    ensures exists order :: OrderOf(r.headers, order) && out == SerializeResponse(r, order)
  {
    var lines, order := WriteHeaders(r.headers);
    out := r.version + " " + Decimal(r.status) + " " + r.text + CRLF + (lines + (CRLF + r.body));
    assert out == SerializeResponse(r, order);
  }
}
