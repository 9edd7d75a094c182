/**
  HTTP/1.1 response framing: how the data plane renders a head, and an independent client that
  reads a connection line by line and takes exactly Content-Length bytes of body.
*/
module HttpFraming {
  import opened Base
  import opened Text

  datatype Header = Header(name: string, value: string)

  predicate SameName(a: string, b: string) { Lower(a) == Lower(b) }

  // HeaderMap: entries in order, names compared without case.

  function Get(hs: seq<Header>, name: string): Option<string> {
    if hs == [] then None
    else if SameName(hs[0].name, name) then Some(hs[0].value) else Get(hs[1..], name)
  }

  function Set(hs: seq<Header>, name: string, value: string): seq<Header> {
    if hs == [] then [Header(name, value)]
    else if SameName(hs[0].name, name) then [Header(hs[0].name, value)] + hs[1..]
    else [hs[0]] + Set(hs[1..], name, value)
  }

  function Remove(hs: seq<Header>, name: string): seq<Header> {
    if hs == [] then []
    else (if SameName(hs[0].name, name) then [] else [hs[0]]) + Remove(hs[1..], name)
  }

  lemma {:induction false} GetAfterSet(hs: seq<Header>, name: string, value: string, other: string)
    ensures Get(Set(hs, name, value), other) == if SameName(other, name) then Some(value) else Get(hs, other)
    decreases |hs|
  {
    if hs != [] {
      if SameName(hs[0].name, name) {
        assert Set(hs, name, value)[1..] == hs[1..];
      } else {
        GetAfterSet(hs[1..], name, value, other);
        assert Set(hs, name, value)[1..] == Set(hs[1..], name, value);
      }
    }
  }

  /** No character of the field can end a line or a header name. */
  predicate CleanName(s: string) { '\r' !in s && ':' !in s }

  predicate CleanValue(s: string) { '\r' !in s }

  predicate CleanHeaders(hs: seq<Header>) {
    forall h | h in hs :: CleanName(h.name) && CleanValue(h.value)
  }

  lemma {:induction false} SetClean(hs: seq<Header>, name: string, value: string)
    requires CleanHeaders(hs) && CleanName(name) && CleanValue(value)
    ensures CleanHeaders(Set(hs, name, value))
    decreases |hs|
  {
    if hs != [] {
      assert hs[0] in hs && forall h | h in hs[1..] :: h in hs;
      SetClean(hs[1..], name, value);
    }
  }

  lemma {:induction false} RemoveClean(hs: seq<Header>, name: string)
    requires CleanHeaders(hs)
    ensures CleanHeaders(Remove(hs, name))
    decreases |hs|
  {
    if hs != [] {
      assert hs[0] in hs && forall h | h in hs[1..] :: h in hs;
      RemoveClean(hs[1..], name);
    }
  }

  // ---------------------------------------------------------------------------
  //  Rendering
  // ---------------------------------------------------------------------------

  function RefusalPhrase(status: nat): (r: string)
    ensures CleanValue(r)
  {
    match status
    case 400 => "Bad Request"
    case 401 => "Unauthorized"
    case 403 => "Forbidden"
    case 404 => "Not Found"
    case 405 => "Method Not Allowed"
    case 408 => "Request Timeout"
    case _ => "Error"
  }

  function LimitPhrase(status: nat): (r: string)
    ensures CleanValue(r)
  {
    match status
    case 413 => "Payload Too Large"
    case 414 => "URI Too Long"
    case 416 => "Range Not Satisfiable"
    case 431 => "Request Header Fields Too Large"
    case 500 => "Internal Server Error"
    case 503 => "Service Unavailable"
    case _ => "Error"
  }

  function ReasonPhrase(status: nat): (r: string)
    ensures CleanValue(r)
  {
    match status
    case 200 => "OK"
    case 201 => "Created"
    case 204 => "No Content"
    case 206 => "Partial Content"
    case _ => if status < 413 then RefusalPhrase(status) else LimitPhrase(status)
  }

  const PROTOCOL := "HTTP/1.1 "

  function StatusLine(status: nat): string { PROTOCOL + Digits(status) + " " + ReasonPhrase(status) }

  function HeaderLine(h: Header): string { h.name + ": " + h.value }

  function HeaderLines(hs: seq<Header>): (r: seq<string>)
    ensures |r| == |hs|
  {
    seq(|hs|, i requires 0 <= i < |hs| => HeaderLine(hs[i]))
  }

  const CRLF := "\r\n"

  /** Lines, then an empty line. */
  function RenderLines(lines: seq<string>): string {
    if lines == [] then CRLF else lines[0] + CRLF + RenderLines(lines[1..])
  }

  function HeadLines(status: nat, hs: seq<Header>): seq<string> { [StatusLine(status)] + HeaderLines(hs) }

  function RenderHead(status: nat, hs: seq<Header>): string { RenderLines(HeadLines(status, hs)) }

  /** A response as put on the wire; a HEAD response has no body. */
  datatype Sent = Sent(status: nat, headers: seq<Header>, body: string, headOnly: bool)

  function Frame(m: Sent): string { RenderHead(m.status, m.headers) + if m.headOnly then "" else m.body }

  /** Texts one after the other. */
  function Concat(parts: seq<string>): string {
    if parts == [] then "" else Concat(parts[..|parts| - 1]) + parts[|parts| - 1]
  }

  function FrameList(log: seq<Sent>): (r: seq<string>)
    ensures |r| == |log|
  {
    Mapped(Frame, log)
  }

  function Frames(log: seq<Sent>): string { Concat(FrameList(log)) }

  /** The declared length is the length of the body. */
  predicate WellFramed(m: Sent) {
    && CleanHeaders(m.headers)
    && Get(m.headers, "Content-Length").Some?
    && (m.headOnly || Get(m.headers, "Content-Length") == Some(Digits(|m.body|)))
    && |m.body| <= INT64_MAX
    && (m.headOnly ==> m.body == "")
  }

  // ---------------------------------------------------------------------------
  //  A client
  // ---------------------------------------------------------------------------

  datatype Lines = NoLines | Lines(lines: seq<string>, rest: string)

  /** Lines up to the empty line. */
  function ReadLines(s: string): Lines
    decreases |s|
  {
    var i := Find(s, '\r', 0);
    if i + 1 >= |s| || s[i + 1] != '\n' then NoLines
    else if i == 0 then Lines([], s[2..])
    else
      var more := ReadLines(s[i + 2..]);
      if more.NoLines? then NoLines else Lines([s[..i]] + more.lines, more.rest)
  }

  /** Value of the first header line with the given name. */
  function Lookup(lines: seq<string>, name: string): Option<string> {
    if lines == [] then None
    else
      var colon := Find(lines[0], ':', 0);
      if colon < |lines[0]| && SameName(lines[0][..colon], name) then Some(Trim(lines[0][colon + 1..]))
      else Lookup(lines[1..], name)
  }

  datatype Received = Received(lines: seq<string>, body: string)

  datatype Reading = Stuck | Reading(messages: seq<Received>, rest: string)

  /** Read one response; the client knows whether it asked with HEAD. */
  function ReadOne(s: string, headOnly: bool): Reading {
    var h := ReadLines(s);
    if h.NoLines? || h.lines == [] then Stuck
    else if headOnly then Reading([Received(h.lines, "")], h.rest)
    else
      var field := Lookup(h.lines[1..], "Content-Length");
      if field.None? || Number(field.value).None? then Stuck
      else
        var n := Number(field.value).value;
        if n > |h.rest| then Stuck
        else Reading([Received(h.lines, h.rest[..n])], h.rest[n..])
  }

  /** Read as many responses as there were requests. */
  function ReadAll(s: string, heads: seq<bool>): Reading
    decreases |heads|
  {
    if heads == [] then Reading([], s)
    else
      var one := ReadOne(s, heads[0]);
      if one.Stuck? then Stuck
      else
        var more := ReadAll(one.rest, heads[1..]);
        if more.Stuck? then Stuck else Reading(one.messages + more.messages, more.rest)
  }

  // ---------------------------------------------------------------------------
  //  The client reads what was sent
  // ---------------------------------------------------------------------------

  lemma LineRead(l: string, tail: string)
    requires l != "" && '\r' !in l
    ensures ReadLines(l + CRLF + tail) ==
      var more := ReadLines(tail); if more.NoLines? then NoLines else Lines([l] + more.lines, more.rest)
  {
    var s := l + CRLF + tail;
    assert s == l + ['\r'] + (['\n'] + tail);
    FindFirst(l, '\r', ['\n'] + tail);
    assert s[..|l|] == l && s[|l| + 2..] == tail && s[|l| + 1] == '\n';
  }

  lemma Assoc(a: string, b: string, c: string)
    ensures (a + b) + c == a + (b + c)
  {}

  predicate CleanLines(lines: seq<string>) {
    forall i | 0 <= i < |lines| :: lines[i] != "" && '\r' !in lines[i]
  }

  lemma {:induction false} LinesRead(lines: seq<string>, rest: string)
    requires CleanLines(lines)
    ensures ReadLines(RenderLines(lines) + rest) == Lines(lines, rest)
    decreases |lines|
  {
    if lines == [] {
      var s := CRLF + rest;
      assert s[0] == '\r' && s[1] == '\n' && s[2..] == rest;
    } else {
      assert CleanLines(lines[1..]);
      var more := RenderLines(lines[1..]);
      Assoc(lines[0] + CRLF, more, rest);
      LinesRead(lines[1..], rest);
      LineRead(lines[0], more + rest);
      assert [lines[0]] + lines[1..] == lines;
    }
  }

  lemma HeaderLineRead(h: Header)
    requires CleanName(h.name)
    ensures var line := HeaderLine(h);
      && Find(line, ':', 0) == |h.name| < |line|
      && line[..|h.name|] == h.name && Trim(line[|h.name| + 1..]) == Trim(h.value)
  {
    var v := [' '] + h.value;
    var line := h.name + [':'] + v;
    assert HeaderLine(h) == line;
    FindFirst(h.name, ':', v);
    assert line[|h.name| + 1..] == v && v[1..] == h.value;
  }

  lemma {:induction false} LookupRead(hs: seq<Header>, name: string)
    requires CleanHeaders(hs)
    ensures Lookup(HeaderLines(hs), name) ==
      if Get(hs, name).Some? then Some(Trim(Get(hs, name).value)) else None
    decreases |hs|
  {
    if hs != [] {
      assert hs[0] in hs && forall h | h in hs[1..] :: h in hs;
      HeaderLineRead(hs[0]);
      assert HeaderLines(hs)[0] == HeaderLine(hs[0]) && HeaderLines(hs)[1..] == HeaderLines(hs[1..]);
      LookupRead(hs[1..], name);
    }
  }

  lemma HeadClean(status: nat, hs: seq<Header>)
    requires CleanHeaders(hs)
    ensures CleanLines(HeadLines(status, hs))
  {
    StatusClean(status);
    forall i | 0 <= i < |hs| ensures HeaderLine(hs[i]) != "" && '\r' !in HeaderLine(hs[i]) {
      assert hs[i] in hs;
    }
  }

  lemma StatusClean(status: nat)
    ensures StatusLine(status) != "" && '\r' !in StatusLine(status)
  {
    assert forall c | c in Digits(status) :: Digit(c);
  }

  /** What the client should see of a response. */
  function Expected(m: Sent): Received { Received(HeadLines(m.status, m.headers), m.body) }

  /** The client finds the declared length. */
  lemma LengthRead(m: Sent)
    requires WellFramed(m) && !m.headOnly
    ensures Lookup(HeaderLines(m.headers), "Content-Length") == Some(Digits(|m.body|))
    ensures Number(Digits(|m.body|)) == Some(|m.body|)
  {
    LookupRead(m.headers, "Content-Length");
    TrimSolid(Digits(|m.body|));
    ValueDigits(|m.body|);
  }

  lemma HeadRead(m: Sent, rest: string)
    requires CleanHeaders(m.headers)
    ensures ReadLines(Frame(m) + rest) ==
      Lines(HeadLines(m.status, m.headers), (if m.headOnly then "" else m.body) + rest)
  {
    var body := if m.headOnly then "" else m.body;
    HeadClean(m.status, m.headers);
    LinesRead(HeadLines(m.status, m.headers), body + rest);
    Assoc(RenderHead(m.status, m.headers), body, rest);
  }

  lemma Taken(body: string, rest: string)
    ensures (body + rest)[..|body|] == body && (body + rest)[|body|..] == rest
  {}

  lemma OneRead(m: Sent, rest: string)
    requires WellFramed(m)
    ensures ReadOne(Frame(m) + rest, m.headOnly) == Reading([Expected(m)], rest)
  {
    HeadRead(m, rest);
    assert HeadLines(m.status, m.headers)[1..] == HeaderLines(m.headers);
    if m.headOnly {
      assert "" + rest == rest;
    } else {
      LengthRead(m);
      Taken(m.body, rest);
    }
  }

  function HeadFlags(log: seq<Sent>): (r: seq<bool>)
    ensures |r| == |log|
  {
    Mapped((m: Sent) => m.headOnly, log)
  }

  function AllExpected(log: seq<Sent>): (r: seq<Received>)
    ensures |r| == |log|
  {
    Mapped(Expected, log)
  }

  lemma {:induction false} ConcatCons(parts: seq<string>)
    requires parts != []
    ensures Concat(parts) == parts[0] + Concat(parts[1..])
    decreases |parts|
  {
    var n := |parts| - 1;
    if n == 0 {
      assert parts[..0] == [] && parts[1..] == [];
    } else {
      var mid := parts[1..n];
      assert parts[..n][1..] == mid && parts[1..][..n - 1] == mid && parts[1..][n - 1] == parts[n];
      ConcatCons(parts[..n]);
      Assoc(parts[0], Concat(mid), parts[n]);
    }
  }

  /** One more response in front. */
  lemma ReadMore(m: Sent, rest: string, heads: seq<bool>)
    requires WellFramed(m) && ReadAll(rest, heads).Reading?
    ensures ReadAll(Frame(m) + rest, [m.headOnly] + heads) ==
      Reading([Expected(m)] + ReadAll(rest, heads).messages, ReadAll(rest, heads).rest)
  {
    OneRead(m, rest);
    assert ([m.headOnly] + heads)[1..] == heads;
  }

  lemma {:induction false} FramesCons(log: seq<Sent>)
    requires log != []
    ensures Frames(log) == Frame(log[0]) + Frames(log[1..])
  {
    MappedCons(Frame, log);
    ConcatCons(FrameList(log));
    assert FrameList(log)[1..] == FrameList(log[1..]);
  }

  predicate AllFramed(log: seq<Sent>) { forall i | 0 <= i < |log| :: WellFramed(log[i]) }

  /** A client that reads the connection gets exactly the responses that were sent, in order,
      each with its whole body and nothing left over. */
  lemma {:induction false} ClientReadsAll(log: seq<Sent>)
    requires AllFramed(log)
    ensures ReadAll(Frames(log), HeadFlags(log)) == Reading(AllExpected(log), "")
    decreases |log|
  {
    if log == [] {
      assert Frames(log) == "";
    } else {
      var rest := log[1..];
      ClientReadsAll(rest);
      ReadMore(log[0], Frames(rest), HeadFlags(rest));
      FramesCons(log);
      MappedCons((m: Sent) => m.headOnly, log);
      MappedCons(Expected, log);
    }
  }

  // ---------------------------------------------------------------------------
  //  What the client makes of a head
  // ---------------------------------------------------------------------------

  /** The word at position i. */
  function Word(line: string, i: nat): string
    requires i <= |line|
  {
    line[i..][..Find(line[i..], ' ', 0)]
  }

  /** The status code in a status line. */
  function Code(line: string): Option<nat> {
    if PROTOCOL <= line then Number(Word(line, |PROTOCOL|)) else None
  }

  lemma DigitsSolid(n: nat)
    ensures ' ' !in Digits(n)
  {
    assert forall c | c in Digits(n) :: Digit(c);
  }

  lemma WordRead(prefix: string, code: string, phrase: string)
    requires ' ' !in code
    ensures var line := prefix + code + " " + phrase;
      prefix <= line && Word(line, |prefix|) == code
  {
    var line, tail := prefix + code + " " + phrase, code + [' '] + phrase;
    assert line == prefix + tail && line[|prefix|..] == tail;
    FindFirst(code, ' ', phrase);
    assert tail[..|code|] == code;
  }

  lemma CodeRead(status: nat)
    requires status <= INT64_MAX
    ensures Code(StatusLine(status)) == Some(status)
  {
    DigitsSolid(status);
    WordRead(PROTOCOL, Digits(status), ReasonPhrase(status));
    ValueDigits(status);
  }

  /** The client finds the status and, whatever their case, the values of all headers. */
  lemma HeadDecoded(m: Sent, name: string)
    requires CleanHeaders(m.headers) && m.status <= INT64_MAX
    ensures var lines := Expected(m).lines;
      && Code(lines[0]) == Some(m.status)
      && Lookup(lines[1..], name) == if Get(m.headers, name).Some? then Some(Trim(Get(m.headers, name).value)) else None
  {
    CodeRead(m.status);
    LookupRead(m.headers, name);
    assert Expected(m).lines[1..] == HeaderLines(m.headers);
  }
}
