/**
  What the large-file data plane decides to send: the response to a request with its own Range
  framing, and the headers, status and slice that go on the wire.  Module KeepAlive sends it.
*/
module LargeFilePlane {
  import opened Base
  import opened Text
  import opened RangeHeader
  import opened HttpFraming

  /** A response stream: what the source holds, the length the handler declares (negative:
      unknown), whether it has a native descriptor, whether Seek works. */
  datatype Stream = NoStream | Stream(content: string, length: int, native: bool, seekable: bool)

  datatype Response = Response(status: nat, headers: seq<Header>, body: string, stream: Stream)

  datatype Method = GetMethod | HeadMethod | OtherMethod

  /** A parsed request: method, number of Content-Length headers, chunked transfer coding, does
      the path name a transfer, the Range header, did the client say `Connection: close`. */
  datatype Request = Request(
    verb: Method, lengths: nat, chunked: bool, transfer: bool, range: Option<string>, close: bool)

  /** The request object before anything was parsed. */
  const BLANK := Request(OtherMethod, 0, false, false, None, false)

  /** What reading the next head gives. */
  datatype Incoming =
    | Timeout(partial: bool)                // partial: some bytes of a head have arrived
    | Closed
    | TooLarge
    | BadHead(status: nat, residue: bool)   // residue: bytes beyond this head are buffered
    | Head(request: Request, residue: bool)

  datatype Outgoing = Outgoing(
    status: nat, headers: seq<Header>, body: string, stream: Stream,
    offset: nat, length: nat, headOnly: bool)

  predicate Decent(r: Response) {
    && CleanHeaders(r.headers) && |r.body| <= INT64_MAX
    && (r.stream.Stream? ==> r.stream.length <= INT64_MAX)
  }

  function FormatContentRange(r: ByteRange, total: nat): string
    requires 0 <= r.first && 0 <= r.last
  {
    "bytes " + Digits(r.first) + "-" + Digits(r.last) + "/" + Digits(total)
  }

  function FormatUnsatisfied(total: nat): string { "bytes */" + Digits(total) }

  /** A JSON error response. */
  function ErrorResponse(status: nat, text: nat -> string): Response {
    Response(status, [Header("Content-Type", "application/json")], text(status), NoStream)
  }

  /** What the Range header asks for; no header counts as an empty one. */
  function Wanted(request: Request, r: Response): RangeResult {
    if r.stream.NoStream? || r.stream.length < 0 || request.range.None? then Absent
    else Reference(request.range.value, r.stream.length)
  }

  /** Ranges are within the object. */
  predicate Sensible(want: RangeResult, r: Response) {
    want.Partial? ==> r.stream.Stream? && want.ranges != [] && InBounds(want.ranges, r.stream.length)
  }

  lemma WantedSensible(request: Request, r: Response)
    ensures Sensible(Wanted(request, r), r)
  {
    if Wanted(request, r).Partial? { PartialBounds(request.range.value, r.stream.length); }
  }

  function ErrorOut(status: nat, more: seq<Header>, text: nat -> string, headOnly: bool): Outgoing {
    Outgoing(status, [Header("Content-Type", "application/json")] + more, text(status), NoStream, 0, 0, headOnly)
  }

  function Arrange(headOnly: bool, r: Response, want: RangeResult, text: nat -> string): Outgoing
    requires Sensible(want, r)
  {
    if r.stream.NoStream? then Outgoing(r.status, r.headers, r.body, NoStream, 0, 0, headOnly)
    else if r.stream.length < 0 then ErrorOut(500, [], text, headOnly)
    else
      var total := r.stream.length;
      var whole := Outgoing(r.status, r.headers, r.body, r.stream, 0, total, headOnly);
      match want
      case Absent => whole
      case Malformed => whole.(status := 200)
      case Unsatisfiable => ErrorOut(416, [Header("Content-Range", FormatUnsatisfied(total))], text, headOnly)
      case Partial(ranges) =>
        if |ranges| != 1 then whole.(status := 200)
        else
          var x := ranges[0];
          assert x in ranges;
          whole.(status := 206, offset := x.first, length := x.last - x.first + 1,
                 headers := Set(r.headers, "Content-Range", FormatContentRange(x, total)))
  }

  function Prepare(request: Request, r: Response, text: nat -> string): Outgoing {
    WantedSensible(request, r);
    Arrange(request.verb.HeadMethod?, r, Wanted(request, r), text)
  }

  /** Up to n characters of the source from position `from`. */
  function Slice(content: string, from: nat, n: nat): string {
    if from >= |content| then "" else content[from..Min(from + n, |content|)]
  }

  function BodyOf(out: Outgoing): string {
    if out.stream.Stream? then Slice(out.stream.content, out.offset, out.length) else out.body
  }

  function Declared(out: Outgoing): nat { if out.stream.Stream? then out.length else |out.body| }

  /** A body without a content type is plain text. */
  function Typed(out: Outgoing): seq<Header> {
    if out.stream.NoStream? && Get(out.headers, "Content-Type").None? && out.body != ""
    then Set(out.headers, "Content-Type", "text/plain") else out.headers
  }

  /** The headers put on the wire. */
  function FinalHeaders(out: Outgoing, closing: bool): seq<Header> {
    var sized := Set(Remove(Typed(out), "Content-Length"), "Content-Length", Digits(Declared(out)));
    if closing then Set(sized, "Connection", "close") else sized
  }

  function Sending(out: Outgoing, closing: bool): Sent {
    Sent(out.status, FinalHeaders(out, closing), if out.headOnly then "" else BodyOf(out), out.headOnly)
  }

  // ---------------------------------------------------------------------------
  //  What is sent is well framed and is what was asked for
  // ---------------------------------------------------------------------------

  lemma FormattedClean(r: ByteRange, total: nat)
    requires 0 <= r.first && 0 <= r.last
    ensures CleanValue(FormatContentRange(r, total)) && CleanValue(FormatUnsatisfied(total))
  {}

  lemma SizedHeaders(hs: seq<Header>, n: nat, closing: bool)
    requires CleanHeaders(hs)
    ensures var sized := Set(Remove(hs, "Content-Length"), "Content-Length", Digits(n));
      var r := if closing then Set(sized, "Connection", "close") else sized;
      CleanHeaders(r) && Get(r, "Content-Length") == Some(Digits(n))
  {
    var without := Remove(hs, "Content-Length");
    var sized := Set(without, "Content-Length", Digits(n));
    RemoveClean(hs, "Content-Length");
    SetClean(without, "Content-Length", Digits(n));
    GetAfterSet(without, "Content-Length", Digits(n), "Content-Length");
    SetClean(sized, "Connection", "close");
    GetAfterSet(sized, "Connection", "close", "Content-Length");
    assert |Lower("Connection")| != |Lower("Content-Length")|;
  }

  lemma FinalFramed(out: Outgoing, closing: bool)
    requires CleanHeaders(out.headers) && Declared(out) <= INT64_MAX
    requires out.headOnly || |BodyOf(out)| == Declared(out)
    ensures WellFramed(Sending(out, closing))
  {
    var typed := Typed(out);
    SetClean(out.headers, "Content-Type", "text/plain");
    SizedHeaders(typed, Declared(out), closing);
  }

  lemma ErrorClean(status: nat, more: seq<Header>, text: nat -> string, headOnly: bool)
    requires CleanHeaders(more)
    ensures CleanHeaders(ErrorOut(status, more, text, headOnly).headers)
  {}

  lemma RangedClean(r: Response, x: ByteRange)
    requires CleanHeaders(r.headers) && r.stream.Stream? && 0 <= x.first <= x.last < r.stream.length
    ensures CleanHeaders(Set(r.headers, "Content-Range", FormatContentRange(x, r.stream.length)))
  {
    FormattedClean(x, r.stream.length);
    SetClean(r.headers, "Content-Range", FormatContentRange(x, r.stream.length));
  }

  lemma UnsatisfiedClean(total: nat, text: nat -> string, headOnly: bool)
    ensures CleanHeaders(ErrorOut(416, [Header("Content-Range", FormatUnsatisfied(total))], text, headOnly).headers)
  {
    FormattedClean(ByteRange(0, 0), total);
    ErrorClean(416, [Header("Content-Range", FormatUnsatisfied(total))], text, headOnly);
  }

  lemma ArrangedClean(headOnly: bool, r: Response, want: RangeResult, text: nat -> string)
    requires Sensible(want, r) && Decent(r) && forall n: nat :: |text(n)| <= INT64_MAX
    ensures CleanHeaders(Arrange(headOnly, r, want, text).headers)
    ensures Declared(Arrange(headOnly, r, want, text)) <= INT64_MAX
  {
    if r.stream.Stream? {
      if r.stream.length < 0 {
        ErrorClean(500, [], text, headOnly);
      } else if want.Unsatisfiable? {
        UnsatisfiedClean(r.stream.length, text, headOnly);
      } else if want.Partial? && |want.ranges| == 1 {
        assert want.ranges[0] in want.ranges;
        RangedClean(r, want.ranges[0]);
      }
    }
  }

  /** What a completed exchange must have sent: the part of the object that was asked for. */
  predicate Serves(headOnly: bool, r: Response, want: RangeResult, m: Sent) {
    && m.headOnly == headOnly
    && (r.stream.NoStream? ==> m.status == r.status && (m.headOnly || m.body == r.body))
    && (r.stream.Stream? && r.stream.length < 0 ==> m.status == 500)
    && (r.stream.Stream? && r.stream.length >= 0 ==>
          match want
          case Partial(ranges) =>
            if |ranges| == 1 then SinglePart(r, ranges[0], m) else Whole(r, 200, m)
          case Absent => Whole(r, r.status, m)
          case Malformed => Whole(r, 200, m)
          case Unsatisfiable =>
            m.status == 416 && Get(m.headers, "Content-Range") == Some(FormatUnsatisfied(r.stream.length)))
  }

  /** The headers that the data plane sets itself. */
  predicate Reserved(name: string) {
    || SameName(name, "Content-Type") || SameName(name, "Content-Length")
    || SameName(name, "Content-Range") || SameName(name, "Connection")
  }

  /** The response is not replaced by an error. */
  predicate Passed(r: Response, want: RangeResult) { r.stream.NoStream? || (r.stream.length >= 0 && !want.Unsatisfiable?) }

  /** Every other header of the response is sent as it is, and so is its content type. */
  ghost predicate Carries(r: Response, m: Sent) {
    && (forall name :: !Reserved(name) ==> Get(m.headers, name) == Get(r.headers, name))
    && (Get(r.headers, "Content-Type").Some? ==> Get(m.headers, "Content-Type") == Get(r.headers, "Content-Type"))
  }

  ghost predicate Faithful(request: Request, r: Response, m: Sent) {
    && Serves(request.verb.HeadMethod?, r, Wanted(request, r), m)
    && (Passed(r, Wanted(request, r)) ==> Carries(r, m))
  }

  /** The slice named in Content-Range was sent. */
  predicate SinglePart(r: Response, x: ByteRange, m: Sent)
    requires r.stream.Stream?
  {
    && m.status == 206 && 0 <= x.first <= x.last < r.stream.length
    && Get(m.headers, "Content-Range") == Some(FormatContentRange(x, r.stream.length))
    && (m.headOnly || (x.last < |r.stream.content| && m.body == r.stream.content[x.first..x.last + 1]))
  }

  /** The whole object was sent. */
  predicate Whole(r: Response, status: nat, m: Sent)
    requires r.stream.Stream? && r.stream.length >= 0
  {
    m.status == status &&
    (m.headOnly || (r.stream.length <= |r.stream.content| && m.body == r.stream.content[..r.stream.length]))
  }

  lemma {:induction false} GetAfterRemove(hs: seq<Header>, name: string, other: string)
    requires !SameName(name, other)
    ensures Get(Remove(hs, name), other) == Get(hs, other)
    decreases |hs|
  {
    if hs != [] {
      GetAfterRemove(hs[1..], name, other);
      if SameName(hs[0].name, name) {
        assert Remove(hs, name) == Remove(hs[1..], name);
      } else {
        assert Remove(hs, name)[1..] == Remove(hs[1..], name);
      }
    }
  }

  /** The last header changes leave Content-Range alone. */
  lemma RangeHeaderStays(out: Outgoing, closing: bool)
    ensures Get(FinalHeaders(out, closing), "Content-Range") == Get(out.headers, "Content-Range")
  {
    var name := "Content-Range";
    var typed := Typed(out);
    var without := Remove(typed, "Content-Length");
    var sized := Set(without, "Content-Length", Digits(Declared(out)));
    assert Lower(name)[8] == 'r' && Lower("Content-Length")[8] == 'l';
    assert |Lower(name)| == 13 && |Lower("Content-Type")| == 12 && |Lower("Connection")| == 10;
    GetAfterSet(out.headers, "Content-Type", "text/plain", name);
    GetAfterRemove(typed, "Content-Length", name);
    GetAfterSet(without, "Content-Length", Digits(Declared(out)), name);
    GetAfterSet(sized, "Connection", "close", name);
  }

  lemma ArrangedServes(headOnly: bool, r: Response, want: RangeResult, text: nat -> string, closing: bool)
    requires Sensible(want, r)
    requires var out := Arrange(headOnly, r, want, text); out.headOnly || |BodyOf(out)| == Declared(out)
    ensures Serves(headOnly, r, want, Sending(Arrange(headOnly, r, want, text), closing))
  {
    var out := Arrange(headOnly, r, want, text);
    RangeHeaderStays(out, closing);
    if r.stream.Stream? && r.stream.length >= 0 {
      if want.Partial? && |want.ranges| == 1 {
        assert want.ranges[0] in want.ranges;
        var v := FormatContentRange(want.ranges[0], r.stream.length);
        GetAfterSet(r.headers, "Content-Range", v, "Content-Range");
      } else if want.Unsatisfiable? {
        UnsatisfiedNamed(r.stream.length, text, headOnly);
      }
    }
  }

  lemma UnsatisfiedNamed(total: nat, text: nat -> string, headOnly: bool)
    ensures var out := ErrorOut(416, [Header("Content-Range", FormatUnsatisfied(total))], text, headOnly);
      Get(out.headers, "Content-Range") == Some(FormatUnsatisfied(total))
  {
    var tail := [Header("Content-Range", FormatUnsatisfied(total))];
    var hs := [Header("Content-Type", "application/json")] + tail;
    assert hs[1..] == tail && |Lower("Content-Type")| != |Lower("Content-Range")|;
    assert Get(tail, "Content-Range") == Some(tail[0].value);
  }

  lemma PreparedHeaders(request: Request, r: Response, text: nat -> string, name: string)
    requires Passed(r, Wanted(request, r)) && !SameName(name, "Content-Range")
    ensures Get(Prepare(request, r, text).headers, name) == Get(r.headers, name)
  {
    var want := Wanted(request, r);
    WantedSensible(request, r);
    if r.stream.Stream? && want.Partial? && |want.ranges| == 1 {
      assert want.ranges[0] in want.ranges;
      GetAfterSet(r.headers, "Content-Range", FormatContentRange(want.ranges[0], r.stream.length), name);
    }
  }

  lemma SizedKeep(hs: seq<Header>, n: nat, closing: bool, name: string)
    requires !SameName(name, "Content-Length") && !SameName(name, "Connection")
    ensures var sized := Set(Remove(hs, "Content-Length"), "Content-Length", Digits(n));
      Get(if closing then Set(sized, "Connection", "close") else sized, name) == Get(hs, name)
  {
    var without := Remove(hs, "Content-Length");
    GetAfterRemove(hs, "Content-Length", name);
    GetAfterSet(without, "Content-Length", Digits(n), name);
    GetAfterSet(Set(without, "Content-Length", Digits(n)), "Connection", "close", name);
  }

  lemma FinalHeadersKeep(out: Outgoing, closing: bool, name: string)
    ensures !Reserved(name) ==> Get(FinalHeaders(out, closing), name) == Get(out.headers, name)
  {
    if !Reserved(name) {
      GetAfterSet(out.headers, "Content-Type", "text/plain", name);
      SizedKeep(Typed(out), Declared(out), closing, name);
    }
  }

  lemma FinalTypeKept(out: Outgoing, closing: bool)
    ensures Get(out.headers, "Content-Type").Some? ==>
      Get(FinalHeaders(out, closing), "Content-Type") == Get(out.headers, "Content-Type")
  {
    assert |Lower("Content-Type")| == 12 && |Lower("Content-Length")| == 14 && |Lower("Connection")| == 10;
    SizedKeep(Typed(out), Declared(out), closing, "Content-Type");
  }

  lemma HeadersCarried(request: Request, r: Response, text: nat -> string, closing: bool)
    requires Passed(r, Wanted(request, r))
    ensures Carries(r, Sending(Prepare(request, r, text), closing))
  {
    var out := Prepare(request, r, text);
    forall name | !Reserved(name) ensures Get(Sending(out, closing).headers, name) == Get(r.headers, name) {
      PreparedHeaders(request, r, text, name);
      FinalHeadersKeep(out, closing, name);
    }
    assert |Lower("Content-Type")| == 12 && |Lower("Content-Range")| == 13;
    PreparedHeaders(request, r, text, "Content-Type");
    FinalTypeKept(out, closing);
  }

  /** A closing response says so. */
  lemma ClosingAnnounced(out: Outgoing)
    ensures Get(Sending(out, true).headers, "Connection") == Some("close")
  {
    var sized := Set(Remove(Typed(out), "Content-Length"), "Content-Length", Digits(Declared(out)));
    GetAfterSet(sized, "Connection", "close", "Connection");
  }

  // ---------------------------------------------------------------------------
  //  What can be sent in full
  // ---------------------------------------------------------------------------

  /** The source can be read and holds what it declares. */
  predicate Readable(r: Response) {
    r.stream.Stream? ==> r.stream.seekable && r.stream.length <= |r.stream.content|
  }

  predicate Sendable(out: Outgoing) {
    out.headOnly || out.stream.NoStream? || out.length == 0
    || (out.stream.seekable && out.offset + out.length <= |out.stream.content|)
  }

  lemma PreparedSendable(request: Request, r: Response, text: nat -> string)
    requires Readable(r)
    ensures Sendable(Prepare(request, r, text))
  {
    var want := Wanted(request, r);
    WantedSensible(request, r);
    if r.stream.Stream? && want.Partial? && |want.ranges| == 1 { assert want.ranges[0] in want.ranges; }
  }

  lemma SendingFaithful(request: Request, r: Response, text: nat -> string, closing: bool)
    requires Decent(r) && forall n: nat :: |text(n)| <= INT64_MAX
    ensures var out := Prepare(request, r, text);
      out.headOnly || |BodyOf(out)| == Declared(out) ==>
        WellFramed(Sending(out, closing)) && Faithful(request, r, Sending(out, closing))
  {
    var out := Prepare(request, r, text);
    WantedSensible(request, r);
    ArrangedClean(request.verb.HeadMethod?, r, Wanted(request, r), text);
    if out.headOnly || |BodyOf(out)| == Declared(out) {
      FinalFramed(out, closing);
      ArrangedServes(request.verb.HeadMethod?, r, Wanted(request, r), text, closing);
      if Passed(r, Wanted(request, r)) { HeadersCarried(request, r, text, closing); }
    }
  }
}
