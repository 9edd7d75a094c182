/**
  The keep-alive loop of one data-plane connection, down to the send loops.  Every send, read
  and sendfile call may transfer fewer bytes than asked for, or fail.
*/
module KeepAlive {
  import opened Base
  import opened Text
  import opened HttpFraming
  import opened LargeFilePlane

  datatype Options = Options(keepAliveMax: int, useSendfile: bool, chunk: int, buffer: int)

  function MaxResponses(o: Options): nat { Max(1, o.keepAliveMax) }

  lemma SliceOfSlice(s: string, from: nat, to: nat, i: nat, j: nat)
    requires from <= to <= |s| && i <= j <= to - from
    ensures s[from..to][i..j] == s[from + i..from + j]
  {
    var a, b := s[from..to][i..j], s[from + i..from + j];
    assert |a| == |b| && forall k | 0 <= k < |a| :: a[k] == s[from + i + k] && b[k] == s[from + i + k];
  }

  /** The next piece of the source is the next piece of the slice to be sent. */
  lemma NextPiece(content: string, offset: nat, length: nat, sent: nat, got: nat)
    requires sent + got <= length && offset + sent + got <= |content| && got > 0
    ensures var body := Slice(content, offset, length);
      && sent + got <= |body|
      && content[offset + sent..offset + sent + got] == body[sent..sent + got]
      && body[..sent] + body[sent..sent + got] == body[..sent + got]
  {
    var end := Min(offset + length, |content|);
    var body := Slice(content, offset, length);
    assert body == content[offset..end] && |body| == end - offset;
    SliceOfSlice(content, offset, end, sent, sent + got);
    assert body[..sent + got] == body[..sent] + body[sent..sent + got];
  }

  /** Each mark is exactly the first responses, whole. */
  ghost predicate Marked(marks: seq<string>, log: seq<Exchange>) {
    |marks| <= |log| + 1 && forall i | 0 <= i < |marks| :: marks[i] == Frames(Messages(log[..i]))
  }

  lemma MarkNow(marks: seq<string>, log: seq<Exchange>)
    requires Marked(marks, log) && |marks| == |log|
    ensures Marked(marks + [Frames(Messages(log))], log)
  {
    var more := marks + [Frames(Messages(log))];
    assert log[..|log|] == log;
    forall i | 0 <= i < |more| ensures more[i] == Frames(Messages(log[..i])) {
      if i < |marks| { assert more[i] == marks[i]; }
    }
  }

  lemma MarksStay(marks: seq<string>, log: seq<Exchange>, x: Exchange)
    requires Marked(marks, log)
    ensures Marked(marks, log + [x])
  {
    forall i | 0 <= i < |marks| ensures marks[i] == Frames(Messages((log + [x])[..i])) {
      assert (log + [x])[..i] == log[..i];
    }
  }

  /** A response that was written in full, and what it answers. */
  datatype Exchange = Exchange(request: Request, response: Response, sent: Sent)

  ghost predicate Sane(x: Exchange) { WellFramed(x.sent) && Faithful(x.request, x.response, x.sent) }

  ghost predicate AllSane(log: seq<Exchange>) { forall i | 0 <= i < |log| :: Sane(log[i]) }

  function Messages(log: seq<Exchange>): (r: seq<Sent>)
    ensures |r| == |log|
  {
    Mapped((x: Exchange) => x.sent, log)
  }

  lemma FramesSnoc(log: seq<Exchange>, x: Exchange)
    ensures Frames(Messages(log + [x])) == Frames(Messages(log)) + Frame(x.sent)
  {
    MappedSnoc((x: Exchange) => x.sent, log, x);
    MappedSnoc(Frame, Messages(log), x.sent);
    var parts := FrameList(Messages(log + [x]));
    assert parts[..|parts| - 1] == FrameList(Messages(log));
  }

  /** What the loop has to show between two requests. */
  ghost predicate InStep(wire: string, marks: seq<string>, log: seq<Exchange>) {
    wire == Frames(Messages(log)) && AllSane(log) && Marked(marks, log)
  }

  lemma OneMore(marks: seq<string>, log: seq<Exchange>, x: Exchange)
    requires InStep(Frames(Messages(log)), marks, log) && Sane(x)
    ensures InStep(Frames(Messages(log)) + Frame(x.sent), marks, log + [x])
  {
    FramesSnoc(log, x);
    MarksStay(marks, log, x);
  }

  /** Whenever the loop goes on, a client that reads what was written so far gets exactly the
      responses, in order, each with its whole body and nothing left over. */
  lemma ClientInStep(marks: seq<string>, log: seq<Exchange>, i: nat)
    requires Marked(marks, log) && AllSane(log) && i < |marks|
    ensures var sent := Messages(log[..i]);
      ReadAll(marks[i], HeadFlags(sent)) == Reading(AllExpected(sent), "")
  {
    var sent := Messages(log[..i]);
    forall j | 0 <= j < |sent| ensures WellFramed(sent[j]) { assert Sane(log[j]); }
    ClientReadsAll(sent);
  }

  // ---------------------------------------------------------------------------
  //  What each arrival is owed
  // ---------------------------------------------------------------------------

  /** A request for the handler: unambiguous length, on a transfer path, GET or HEAD. */
  predicate Acceptable(q: Request) {
    q.lengths <= 1 && !(q.chunked && q.lengths == 1) && q.transfer && (q.verb.GetMethod? || q.verb.HeadMethod?)
  }

  /** An error response with the text for its status, sent under that status. */
  predicate Refused(x: Exchange, text: nat -> string, status: nat) {
    && x.response.stream.NoStream? && x.response.status == status && x.sent.status == status
    && x.response.body == text(status) && Get(x.response.headers, "Content-Type") == Some("application/json")
  }

  /** The exchange is the one that the arrival is owed: what the handler makes of the request, or
      the refusal of its first defect. */
  predicate Owed(a: Incoming, first: bool, handler: Request -> Response, text: nat -> string, x: Exchange) {
    match a
    case Timeout(partial) => (partial || first) && Refused(x, text, 408)
    case Closed => false
    case TooLarge => Refused(x, text, 431)
    case BadHead(status, _) => Refused(x, text, status)
    case Head(q, _) =>
      && x.request == q
      && (Acceptable(q) ==> x.response == handler(q))
      && (q.lengths >= 2 || (q.lengths == 1 && q.chunked) ==> Refused(x, text, 400))
      && (q.lengths == 0 || (q.lengths == 1 && !q.chunked) ==>
            && (!q.transfer ==> Refused(x, text, 404))
            && (q.transfer && q.verb.OtherMethod? ==>
                  Refused(x, text, 405) && Get(x.response.headers, "Allow") == Some("GET, HEAD")))
  }

  /** What has happened on a connection: the responses written in full; the part of one more, `cut`,
      that a failure cut short; what had been written each time the loop awaited a request. */
  datatype Session = Session(log: seq<Exchange>, tail: string, cut: Exchange, marks: seq<string>)

  /** Nothing is owed. */
  predicate Silent(a: Incoming, first: bool) { a.Closed? || (a.Timeout? && !a.partial && !first) }

  /** The connection stays open after the exchange number n (from 0) that answers a. */
  predicate Stays(a: Incoming, n: nat, x: Exchange, o: Options) {
    && a.Head? && Acceptable(a.request) && !a.residue
    && x.sent.status < 400 && !x.request.close && n + 1 < MaxResponses(o)
  }

  /** The response says that the connection closes. */
  predicate Farewell(x: Exchange) { Get(x.sent.headers, "Connection") == Some("close") }

  /** It has to. */
  predicate Final(n: nat, x: Exchange, o: Options) {
    x.sent.status >= 400 || x.request.close || n + 1 >= MaxResponses(o)
  }

  /** Nobody has asked the plane to stop before the arrival number n. */
  predicate Running(stop: nat -> bool, n: nat) { forall i: nat | i < n :: !stop(i) }

  lemma RunsOn(stop: nat -> bool, n: nat)
    requires Running(stop, n) && !stop(n)
    ensures Running(stop, n + 1)
  {}

  class Connection {
    const options: Options
    /** Results of the I/O calls: bytes transferred, or negative for an error. */
    const io: nat -> int
    var calls: nat
    /** Everything written to the socket. */
    var wire: string

    constructor (options: Options, io: nat -> int)
      ensures wire == "" && this.options == options && this.io == io
    {
      this.options, this.io, calls, wire := options, io, 0, "";
    }

    /** Every call transfers something. */
    ghost predicate Working() { forall k: nat :: io(k) > 0 }

    method Next() returns (n: int)
      modifies this`calls
      ensures Working() ==> n > 0
    {
      n := io(calls);
      calls := calls + 1;
    }

    /** Send the whole buffer, in pieces. */
    method SendAll(data: string) returns (ok: bool)
      modifies this`calls, this`wire
      ensures old(wire) <= wire <= old(wire) + data
      ensures ok ==> wire == old(wire) + data
      ensures Working() ==> ok
    {
      var sent := 0;
      while sent < |data|
        invariant 0 <= sent <= |data| && wire == old(wire) + data[..sent]
      {
        var n := Next();
        if n <= 0 { return false; }
        var to := Min(sent + n, |data|);
        assert data[..sent] + data[sent..to] == data[..to];
        wire := wire + data[sent..to];
        sent := to;
      }
      assert data[..sent] == data;
      ok := true;
    }

    /** The kernel copies from the file at its own offset. */
    method PumpSendfile(content: string, offset: nat, length: nat) returns (complete: bool)
      modifies this`calls, this`wire
      ensures old(wire) <= wire <= old(wire) + Slice(content, offset, length)
      ensures complete ==> |Slice(content, offset, length)| == length
      ensures complete ==> wire == old(wire) + Slice(content, offset, length)
      ensures Working() && offset + length <= |content| ==> complete
    {
      var sent, remaining := 0, length;
      var chunk := if options.chunk > 0 then options.chunk else length;
      ghost var body := Slice(content, offset, length);
      while remaining > 0
        invariant 0 <= sent && sent + remaining == length && sent <= |body|
        invariant wire == old(wire) + body[..sent]
      {
        var want := Min(remaining, Max(1, chunk));
        var n := Next();
        if n < 0 { return false; }
        var got := Min(Min(n, want), Max(0, |content| - offset - sent));
        if got == 0 { return false; }
        NextPiece(content, offset, length, sent, got);
        assert wire + body[sent..sent + got] == old(wire) + body[..sent + got];
        wire := wire + content[offset + sent..offset + sent + got];
        remaining, sent := remaining - got, sent + got;
      }
      complete := true;
    }

    /** Read into a buffer, send the buffer. */
    method PumpUserspace(content: string, offset: nat, length: nat) returns (complete: bool)
      modifies this`calls, this`wire
      ensures old(wire) <= wire <= old(wire) + Slice(content, offset, length)
      ensures complete ==> |Slice(content, offset, length)| == length
      ensures complete ==> wire == old(wire) + Slice(content, offset, length)
      ensures Working() && offset + length <= |content| ==> complete
    {
      var capacity := if options.buffer > 0 then options.buffer else 64 * 1024;
      var sent, remaining := 0, length;
      ghost var body := Slice(content, offset, length);
      while remaining > 0
        invariant 0 <= sent && sent + remaining == length && sent <= |body|
        invariant wire == old(wire) + body[..sent]
      {
        var want := Min(remaining, capacity);
        var n := Next();
        if n < 0 { return false; }
        var got := Min(Min(n, want), Max(0, |content| - offset - sent));
        if got == 0 { return false; }
        NextPiece(content, offset, length, sent, got);
        assert wire + body[sent..sent + got] == old(wire) + body[..sent + got];
        var ok := SendAll(content[offset + sent..offset + sent + got]);
        if !ok { return false; }
        remaining, sent := remaining - got, sent + got;
      }
      complete := true;
    }

    method PumpStream(out: Outgoing) returns (complete: bool)
      requires out.stream.Stream?
      modifies this`calls, this`wire
      ensures old(wire) <= wire <= old(wire) + BodyOf(out)
      ensures complete ==> |BodyOf(out)| == out.length && wire == old(wire) + BodyOf(out)
      ensures Working() && (out.headOnly || Sendable(out)) ==> complete || out.headOnly
    {
      if out.length == 0 { return true; }
      if !out.stream.seekable { return false; }
      if out.stream.native && options.useSendfile {
        complete := PumpSendfile(out.stream.content, out.offset, out.length);
      } else {
        complete := PumpUserspace(out.stream.content, out.offset, out.length);
      }
    }

    /** Head, then body.  Whatever fails, what is on the wire is a prefix of the frame. */
    method WriteResponse(out: Outgoing, closing: bool) returns (delivered: bool)
      modifies this`calls, this`wire
      ensures old(wire) <= wire <= old(wire) + Frame(Sending(out, closing))
      ensures delivered ==> wire == old(wire) + Frame(Sending(out, closing))
      ensures delivered ==> out.headOnly || |BodyOf(out)| == Declared(out)
      ensures Working() && Sendable(out) ==> delivered
    {
      var head := RenderHead(out.status, FinalHeaders(out, closing));
      ghost var body := if out.headOnly then "" else BodyOf(out);
      Assoc(wire, head, body);
      delivered := SendAll(head);
      if !delivered || out.headOnly { return; }
      if out.stream.Stream? {
        delivered := PumpStream(out);
      } else if out.body != "" {
        delivered := SendAll(out.body);
      }
    }

    /** Prepare and write one response; `again` says whether the connection stays open. */
    method Answer(request: Request, r: Response, text: nat -> string, force: bool, residue: bool, served: nat)
      returns (again: bool, ghost delivered: bool, ghost m: Sent)
      requires Decent(r) && forall n: nat :: |text(n)| <= INT64_MAX
      modifies this`calls, this`wire
      ensures old(wire) <= wire <= old(wire) + Frame(m)
      ensures delivered ==> wire == old(wire) + Frame(m) && Sane(Exchange(request, r, m))
      ensures Working() && Readable(r) ==> delivered
      ensures r.stream.NoStream? ==> m.status == r.status
      ensures again <==>
        delivered && !force && !residue && m.status < 400 && !request.close && served + 1 < MaxResponses(options)
      ensures Final(served, Exchange(request, r, m), options) ==> Farewell(Exchange(request, r, m))
    {
      var out := Prepare(request, r, text);
      var refuse := force || out.status >= 400;
      var closing := refuse || served + 1 >= MaxResponses(options) || request.close;
      if Readable(r) { PreparedSendable(request, r, text); }
      var ok := WriteResponse(out, closing);
      SendingFaithful(request, r, text, closing);
      if closing { ClosingAnnounced(out); }
      delivered, m := ok, Sending(out, closing);
      again := ok && !closing && !residue;
    }

    /** The answer to one arrival, if there is one, and whether the connection is refused. */
    static function Reply(a: Incoming, first: bool, handler: Request -> Response, text: nat -> string)
      : (r: Option<(Request, Response, bool)>)
    {
      match a
      case Timeout(partial) =>
        if partial || first then Some((BLANK, ErrorResponse(408, text), true)) else None
      case Closed => None
      case TooLarge => Some((BLANK, ErrorResponse(431, text), true))
      case BadHead(status, _) => Some((BLANK, ErrorResponse(status, text), true))
      case Head(q, _) =>
        if q.lengths > 1 || (q.chunked && q.lengths == 1) then Some((q, ErrorResponse(400, text), true))
        else if !q.transfer then Some((q, ErrorResponse(404, text), true))
        else if q.verb.OtherMethod? then
          Some((q, ErrorResponse(405, text).(headers := Set(ErrorResponse(405, text).headers, "Allow", "GET, HEAD")), true))
        else Some((q, handler(q), false))
    }

    static lemma ErrorDecent(status: nat, text: nat -> string)
      requires |text(status)| <= INT64_MAX
      ensures Decent(ErrorResponse(status, text))
      ensures Decent(ErrorResponse(status, text).(headers := Set(ErrorResponse(status, text).headers, "Allow", "GET, HEAD")))
    {
      SetClean(ErrorResponse(status, text).headers, "Allow", "GET, HEAD");
    }

    static lemma ReplyDecent(a: Incoming, first: bool, handler: Request -> Response, text: nat -> string)
      requires (forall q :: Decent(handler(q))) && forall n: nat :: |text(n)| <= INT64_MAX
      ensures var r := Reply(a, first, handler, text); r.Some? ==> Decent(r.value.1)
    {
      forall status: nat { ErrorDecent(status, text); }
    }

    /** What Reply gives is what is owed. */
    static lemma ReplyOwed(a: Incoming, first: bool, handler: Request -> Response, text: nat -> string, x: Exchange)
      requires var r := Reply(a, first, handler, text);
        r.Some? && x.request == r.value.0 && x.response == r.value.1
      requires x.response.stream.NoStream? ==> x.sent.status == x.response.status
      ensures Owed(a, first, handler, text, x)
      ensures !Reply(a, first, handler, text).value.2 <==> a.Head? && Acceptable(a.request)
    {
      if a.Head? { GetAfterSet(ErrorResponse(405, text).headers, "Allow", "GET, HEAD", "Allow"); }
    }

    static lemma ReplySilent(a: Incoming, first: bool, handler: Request -> Response, text: nat -> string)
      ensures Reply(a, first, handler, text).None? <==> Silent(a, first)
    {}

    static lemma ReplyReadable(a: Incoming, first: bool, handler: Request -> Response, text: nat -> string)
      requires forall q :: Readable(handler(q))
      ensures var r := Reply(a, first, handler, text); r.Some? ==> Readable(r.value.1)
    {}

    /** Read one arrival and answer it. */
    method Step(a: Incoming, served: nat, handler: Request -> Response, text: nat -> string)
      returns (again: bool, ghost delivered: bool, ghost x: Exchange)
      requires (forall q :: Decent(handler(q))) && forall n: nat :: |text(n)| <= INT64_MAX
      modifies this`calls, this`wire
      ensures old(wire) <= wire <= old(wire) + Frame(x.sent)
      ensures delivered ==> wire == old(wire) + Frame(x.sent) && Sane(x)
      ensures if Silent(a, served == 0) then wire == old(wire) && !delivered else Owed(a, served == 0, handler, text, x)
      ensures again <==> delivered && Stays(a, served, x, options)
      ensures delivered && Final(served, x, options) ==> Farewell(x)
      ensures Working() && (forall q :: Readable(handler(q))) && !Silent(a, served == 0) ==> delivered
    {
      var reply := Reply(a, served == 0, handler, text);
      ReplyDecent(a, served == 0, handler, text);
      ReplySilent(a, served == 0, handler, text);
      x := Exchange(BLANK, ErrorResponse(0, text), Sent(0, [], "", false));
      if reply.None? { return false, false, x; }
      var (request, response, force) := reply.value;
      if forall q :: Readable(handler(q)) { ReplyReadable(a, served == 0, handler, text); }
      ghost var m;
      again, delivered, m := Answer(request, response, text, force, (a.Head? || a.BadHead?) && a.residue, served);
      x := Exchange(request, response, m);
      ReplyOwed(a, served == 0, handler, text, x);
    }

    /** The exchanges so far are those owed, and the loop went on after the first n. */
    ghost predicate Proper(arrivals: seq<Incoming>, handler: Request -> Response, text: nat -> string, log: seq<Exchange>, n: nat) {
      && n <= |log| <= |arrivals|
      && (forall i | 0 <= i < |log| :: Owed(arrivals[i], i == 0, handler, text, log[i]))
      && (forall i | 0 <= i < |log| && Final(i, log[i], options) :: Farewell(log[i]))
      && (forall i | 0 <= i < n :: Stays(arrivals[i], i, log[i], options))
    }

    lemma ProperSnoc(arrivals: seq<Incoming>, handler: Request -> Response, text: nat -> string, log: seq<Exchange>, x: Exchange)
      requires Proper(arrivals, handler, text, log, |log|) && |log| < |arrivals|
      requires Owed(arrivals[|log|], |log| == 0, handler, text, x) && (Final(|log|, x, options) ==> Farewell(x))
      ensures Proper(arrivals, handler, text, log + [x], |log|)
      ensures Stays(arrivals[|log|], |log|, x, options) ==> Proper(arrivals, handler, text, log + [x], |log| + 1)
    {}

    /** Another request is about to be awaited; `at` is what has been written. */
    ghost predicate OnTrack(arrivals: seq<Incoming>, stop: nat -> bool, handler: Request -> Response, text: nat -> string,
                            at: string, s: Session)
    {
      && InStep(at, s.marks, s.log) && s.tail == "" && |s.marks| == |s.log| < MaxResponses(options)
      && Proper(arrivals, handler, text, s.log, |s.log|) && Running(stop, |s.log|)
    }

    /** The connection is over; `at` is what has been written, `works` says that all calls transfer
        and the sources hold what they declare.  What was written is whole frames and a prefix of one
        more.  Each response is the one its arrival is owed, and announces the close if it has to.
        The loop went on exactly after the delivered responses after which the connection stays open,
        until stop or the end of the arrivals.  If everything works nothing was cut short. */
    ghost predicate Over(arrivals: seq<Incoming>, stop: nat -> bool, handler: Request -> Response, text: nat -> string,
                         works: bool, at: string, s: Session)
    {
      && at == Frames(Messages(s.log)) + s.tail && s.tail <= Frame(s.cut.sent)
      && AllSane(s.log) && |s.log| <= MaxResponses(options)
      && Marked(s.marks, s.log) && |s.log| <= |s.marks| <= |arrivals|
      && (forall i | 0 <= i < |s.log| :: Owed(arrivals[i], i == 0, handler, text, s.log[i]))
      && (forall i | 0 <= i < |s.log| && Final(i, s.log[i], options) :: Farewell(s.log[i]))
      && (s.tail != "" ==> |s.log| < |s.marks|)
      && (|s.log| < |s.marks| ==>
            if Silent(arrivals[|s.log|], |s.log| == 0) then s.tail == ""
            else Owed(arrivals[|s.log|], |s.log| == 0, handler, text, s.cut))
      && Running(stop, |s.marks|)
      && (forall i | 0 <= i < |s.marks| - 1 :: Stays(arrivals[i], i, s.log[i], options))
      && (|s.marks| < |arrivals| && !stop(|s.marks|) ==>
            |s.log| < |s.marks| || (s.log != [] && !Stays(arrivals[|s.log| - 1], |s.log| - 1, s.log[|s.log| - 1], options)))
      && (works ==> s.tail == "" && (|s.log| < |s.marks| ==> Silent(arrivals[|s.log|], |s.log| == 0)))
    }

    /** Another response has been delivered. */
    lemma Advanced(arrivals: seq<Incoming>, handler: Request -> Response, text: nat -> string,
                   at: string, marks: seq<string>, log: seq<Exchange>, x: Exchange)
      requires InStep(at, marks, log) && |marks| == |log| < |arrivals| && Sane(x)
      requires Proper(arrivals, handler, text, log, |log|)
      requires Owed(arrivals[|log|], |log| == 0, handler, text, x) && (Final(|log|, x, options) ==> Farewell(x))
      ensures InStep(at + Frame(x.sent), marks + [at], log + [x])
      ensures Proper(arrivals, handler, text, log + [x], |log|)
      ensures Stays(arrivals[|log|], |log|, x, options) ==> Proper(arrivals, handler, text, log + [x], |log| + 1)
    {
      MarkNow(marks, log);
      OneMore(marks + [at], log, x);
      ProperSnoc(arrivals, handler, text, log, x);
    }

    /** The connection is over after a response that was delivered. */
    lemma LastDelivered(arrivals: seq<Incoming>, stop: nat -> bool, handler: Request -> Response, text: nat -> string,
                        works: bool, at: string, s: Session)
      requires s.log != [] && s.tail == "" && |s.marks| == |s.log| <= MaxResponses(options) && InStep(at, s.marks, s.log)
      requires Proper(arrivals, handler, text, s.log, |s.log| - 1) && Running(stop, |s.log|)
      requires !Stays(arrivals[|s.log| - 1], |s.log| - 1, s.log[|s.log| - 1], options)
      ensures Over(arrivals, stop, handler, text, works, at, s)
    {
      assert at + s.tail == at;
    }

    /** A response was delivered. */
    lemma Delivered(arrivals: seq<Incoming>, stop: nat -> bool, handler: Request -> Response, text: nat -> string,
                    works: bool, at: string, s: Session, x: Exchange)
      requires OnTrack(arrivals, stop, handler, text, at, s) && |s.log| < |arrivals| && !stop(|s.log|) && Sane(x)
      requires Owed(arrivals[|s.log|], |s.log| == 0, handler, text, x) && (Final(|s.log|, x, options) ==> Farewell(x))
      ensures var t := s.(log := s.log + [x], marks := s.marks + [at]);
        if Stays(arrivals[|s.log|], |s.log|, x, options)
        then OnTrack(arrivals, stop, handler, text, at + Frame(x.sent), t)
        else Over(arrivals, stop, handler, text, works, at + Frame(x.sent), t)
    {
      var t := s.(log := s.log + [x], marks := s.marks + [at]);
      Advanced(arrivals, handler, text, at, s.marks, s.log, x);
      RunsOn(stop, |s.log|);
      if !Stays(arrivals[|s.log|], |s.log|, x, options) {
        LastDelivered(arrivals, stop, handler, text, works, at + Frame(x.sent), t);
      }
    }

    /** A response was cut short, or there was nothing to answer. */
    lemma Undelivered(arrivals: seq<Incoming>, stop: nat -> bool, handler: Request -> Response, text: nat -> string,
                      works: bool, at: string, s: Session, x: Exchange, tail: string)
      requires OnTrack(arrivals, stop, handler, text, at, s) && |s.log| < |arrivals| && !stop(|s.log|)
      requires tail <= Frame(x.sent)
      requires if Silent(arrivals[|s.log|], |s.log| == 0) then tail == ""
        else !works && Owed(arrivals[|s.log|], |s.log| == 0, handler, text, x)
      ensures Over(arrivals, stop, handler, text, works, at + tail, Session(s.log, tail, x, s.marks + [at]))
    {
      MarkNow(s.marks, s.log);
      RunsOn(stop, |s.log|);
    }

    /** The session after one more iteration. */
    ghost function Extended(s: Session, at: string, now: string, delivered: bool, x: Exchange): Session
      requires at <= now
    {
      if delivered then s.(log := s.log + [x], marks := s.marks + [at])
      else Session(s.log, now[|at|..], x, s.marks + [at])
    }

    lemma Settled(arrivals: seq<Incoming>, stop: nat -> bool, handler: Request -> Response, text: nat -> string,
                  works: bool, at: string, now: string, s: Session, delivered: bool, x: Exchange)
      requires OnTrack(arrivals, stop, handler, text, at, s) && |s.log| < |arrivals| && !stop(|s.log|)
      requires at <= now <= at + Frame(x.sent)
      requires delivered ==> now == at + Frame(x.sent) && Sane(x) && (Final(|s.log|, x, options) ==> Farewell(x))
      requires if Silent(arrivals[|s.log|], |s.log| == 0) then now == at && !delivered
        else Owed(arrivals[|s.log|], |s.log| == 0, handler, text, x) && (works ==> delivered)
      ensures if delivered && Stays(arrivals[|s.log|], |s.log|, x, options)
        then OnTrack(arrivals, stop, handler, text, now, Extended(s, at, now, delivered, x))
        else Over(arrivals, stop, handler, text, works, now, Extended(s, at, now, delivered, x))
    {
      if delivered {
        Delivered(arrivals, stop, handler, text, works, at, s, x);
      } else {
        Undelivered(arrivals, stop, handler, text, works, at, s, x, now[|at|..]);
        assert at + now[|at|..] == now;
      }
    }

    /** The loop has ended. */
    lemma Ended(arrivals: seq<Incoming>, stop: nat -> bool, handler: Request -> Response, text: nat -> string,
                works: bool, at: string, s: Session)
      requires OnTrack(arrivals, stop, handler, text, at, s)
      requires |s.log| < |arrivals| ==> stop(|s.log|)
      ensures Over(arrivals, stop, handler, text, works, at, s)
    {
      assert at + s.tail == at;
    }

    /** Everything that can be delivered is. */
    ghost predicate Works(handler: Request -> Response) { Working() && forall q :: Readable(handler(q)) }

    /** One iteration. */
    method Turn(arrivals: seq<Incoming>, served: nat, ghost stop: nat -> bool, handler: Request -> Response,
                text: nat -> string, ghost s: Session)
      returns (again: bool, ghost t: Session)
      requires OnTrack(arrivals, stop, handler, text, wire, s) && served == |s.log| < |arrivals| && !stop(served)
      requires (forall q :: Decent(handler(q))) && forall n: nat :: |text(n)| <= INT64_MAX
      modifies this`calls, this`wire
      ensures if again then OnTrack(arrivals, stop, handler, text, wire, t) && |t.log| == served + 1
        else Over(arrivals, stop, handler, text, Works(handler), wire, t)
    {
      ghost var at := wire;
      ghost var delivered, x;
      again, delivered, x := Step(arrivals[served], served, handler, text);
      Settled(arrivals, stop, handler, text, Works(handler), at, wire, s, delivered, x);
      t := Extended(s, at, wire, delivered, x);
    }

    /** The whole connection; see Over. */
    method Serve(arrivals: seq<Incoming>, stop: nat -> bool, handler: Request -> Response, text: nat -> string)
      returns (ghost s: Session)
      requires wire == ""
      requires (forall q :: Decent(handler(q))) && forall n: nat :: |text(n)| <= INT64_MAX
      modifies this`calls, this`wire
      ensures Over(arrivals, stop, handler, text, Works(handler), wire, s)
    {
      var served: nat := 0;
      s := Session([], "", Exchange(BLANK, ErrorResponse(0, text), Sent(0, [], "", false)), []);
      while served < |arrivals| && !stop(served)
        invariant OnTrack(arrivals, stop, handler, text, wire, s) && served == |s.log| <= |arrivals|
      {
        var again;
        again, s := Turn(arrivals, served, stop, handler, text, s);
        if !again { return; }
        served := served + 1;
      }
      Ended(arrivals, stop, handler, text, Works(handler), wire, s);
    }
  }
}
