/**
  The gRPC upload stream reader and the download sink.  The reader turns messages into bytes
  and may report end of file only after the explicit end marker.
*/
module UploadStream {
  import opened Base

  datatype Message = Info | Chunk(data: Bytes) | EndOfStream | Unset

  /** Data of the first k messages. */
  function Payload(ms: seq<Message>, k: nat): Bytes
    requires k <= |ms|
  {
    if k == 0 then [] else Payload(ms, k - 1) + if ms[k - 1].Chunk? then ms[k - 1].data else []
  }

  predicate ChunksFirst(ms: seq<Message>, k: nat) {
    k <= |ms| && forall i | 0 <= i < k :: ms[i].Chunk?
  }

  /** The first k messages are all the leading chunks. */
  predicate Leading(ms: seq<Message>, k: nat) { ChunksFirst(ms, k) && (k < |ms| ==> !ms[k].Chunk?) }

  /** The stream up to its k-th message is k chunks; what follows is one or more end markers. */
  predicate Complete(ms: seq<Message>, k: nat) {
    k < |ms| && forall i | 0 <= i < |ms| :: if i < k then ms[i].Chunk? else ms[i].EndOfStream?
  }

  ghost predicate Legal(ms: seq<Message>) { exists k: nat :: Complete(ms, k) }

  datatype ReadResult = Data(bytes: Bytes) | Eof | Error

  lemma NotLegalOther(ms: seq<Message>, i: nat)
    requires i < |ms| && (ms[i].Info? || ms[i].Unset?)
    ensures !Legal(ms)
  {}

  /** An end marker before a chunk. */
  lemma NotLegalLate(ms: seq<Message>, i: nat, j: nat)
    requires i < j < |ms| && ms[i].EndOfStream? && ms[j].Chunk?
    ensures !Legal(ms)
  {}

  lemma NotLegalUnmarked(ms: seq<Message>)
    requires ChunksFirst(ms, |ms|)
    ensures !Legal(ms)
  {
    forall k: nat ensures !Complete(ms, k) {
      if k < |ms| { assert ms[k].Chunk?; }
    }
  }

  lemma {:induction false} PayloadGrows(ms: seq<Message>, i: nat, j: nat)
    requires i <= j <= |ms|
    ensures |Payload(ms, i)| <= |Payload(ms, j)|
  {
    if i < j { PayloadGrows(ms, i, j - 1); }
  }

  lemma Cut(done: Bytes, buffer: Bytes, cursor: nat, count: nat)
    requires cursor + count <= |buffer|
    ensures done + buffer[cursor..] == (done + buffer[cursor..cursor + count]) + buffer[cursor + count..]
    ensures cursor + count == |buffer| ==> buffer[cursor + count..] == []
  {
    assert buffer[cursor..] == buffer[cursor..cursor + count] + buffer[cursor + count..];
  }

  class UploadSource {
    const messages: seq<Message>
    /** Messages taken from the stream, data chunks among them. */
    var next: nat
    var chunks: nat
    var buffer: Bytes
    var cursor: nat
    var sawEnd: bool
    ghost var delivered: Bytes

    /** Messages taken: data chunks, then end markers. */
    ghost predicate Orderly()
      reads this
    {
      && chunks <= next <= |messages| && ChunksFirst(messages, chunks)
      && (forall i | chunks <= i < next :: messages[i].EndOfStream?)
      && (sawEnd <==> chunks < next)
    }

    ghost predicate Valid()
      reads this
    {
      && Orderly()
      && delivered + Pending() == Payload(messages, chunks)
      && (sawEnd ==> Pending() == [])
    }

    /** Everything up to the last chunk taken has been delivered. */
    ghost predicate Emptied()
      reads this
    {
      ChunksFirst(messages, chunks) && delivered == Payload(messages, chunks)
    }

    ghost function Pending(): Bytes
      reads this
    {
      if cursor <= |buffer| then buffer[cursor..] else []
    }

    constructor (messages: seq<Message>)
      ensures Valid() && this.messages == messages && delivered == [] && next == 0
    {
      this.messages, next, buffer, cursor, sawEnd, chunks := messages, 0, [], 0, false, 0;
      delivered := [];
    }

    /** Handle the next message when the buffer is used up: None to go on, else how it ends. */
    method Advance() returns (r: Option<ReadResult>)
      requires Orderly() && Emptied()
      modifies this`next, this`buffer, this`cursor, this`sawEnd, this`chunks
      ensures r.None? ==> Valid() && next == old(next) + 1
      ensures r.Some? ==> Emptied() && Leading(messages, chunks) && (r.value.Eof? || r.value.Error?)
      ensures r == Some(Eof) ==> Complete(messages, chunks)
      ensures r == Some(Error) ==> !Legal(messages)
    {
      if next == |messages| {
        if sawEnd { return Some(Eof); }
        NotLegalUnmarked(messages);
        return Some(Error);
      }
      var m := messages[next];
      next := next + 1;
      r := None;
      match m
      case Info | Unset =>
        NotLegalOther(messages, next - 1);
        return Some(Error);
      case EndOfStream =>
        sawEnd, buffer, cursor := true, [], 0;
      case Chunk(data) =>
        if sawEnd {
          NotLegalLate(messages, chunks, next - 1);
          return Some(Error);
        }
        buffer, cursor, chunks := data, 0, chunks + 1;
    }

    /** Get data into the buffer: None if there is some now, else how the stream ends. */
    method Fill() returns (r: Option<ReadResult>)
      requires Valid()
      modifies this`next, this`buffer, this`cursor, this`sawEnd, this`chunks
      ensures r.None? ==> Valid() && cursor < |buffer|
      ensures r.Some? ==> Emptied() && Leading(messages, chunks) && (r.value.Eof? || r.value.Error?)
      ensures r == Some(Eof) ==> Complete(messages, chunks)
      ensures r == Some(Error) ==> !Legal(messages)
    {
      while cursor >= |buffer|
        invariant Valid()
        decreases |messages| - next
      {
        assert delivered + [] == delivered;
        r := Advance();
        if r.Some? { return; }
      }
      r := None;
    }

    /** Hand out the next bytes of the buffer. */
    method Deliver(capacity: nat) returns (bytes: Bytes)
      requires Valid() && capacity > 0 && cursor < |buffer|
      modifies this`cursor, this`buffer, this`delivered
      ensures Valid() && 0 < |bytes| <= capacity && delivered == old(delivered) + bytes
      ensures |bytes| < capacity ==> Pending() == []
    {
      var count := Min(capacity, |buffer| - cursor);
      bytes := buffer[cursor..cursor + count];
      Cut(delivered, buffer, cursor, count);
      delivered := delivered + bytes;
      cursor := cursor + count;
      if cursor >= |buffer| { buffer := []; }
    }

    /** One read with room for `capacity` bytes; it is filled unless the message at hand ends. */
    method Read(capacity: nat) returns (r: ReadResult)
      requires Valid()
      modifies this
      ensures capacity == 0 ==> r == Data([]) && unchanged(this)
      ensures r.Data? ==> Valid() && |r.bytes| <= capacity && delivered == old(delivered) + r.bytes
      ensures r.Data? && capacity > 0 ==> r.bytes != []
      ensures r.Data? && |r.bytes| < capacity ==> Pending() == []
      ensures !r.Data? ==> delivered == old(delivered) && Emptied() && Leading(messages, chunks)
      ensures r.Eof? ==> Complete(messages, chunks)
      ensures r.Error? ==> !Legal(messages)
    {
      if capacity == 0 {
        assert delivered + [] == delivered;
        return Data([]);
      }
      var end := Fill();
      if end.Some? { return end.value; }
      var bytes := Deliver(capacity);
      r := Data(bytes);
    }
  }

  /** Read a whole stream with any positive capacities.  It ends with EOF exactly if the stream is
      legal, and then every chunk byte was delivered, in order; otherwise it ends with an error
      after all bytes of the leading chunks. */
  method Drain(messages: seq<Message>, capacities: nat -> nat) returns (bytes: Bytes, eof: bool)
    ensures eof <==> Legal(messages)
    ensures exists k: nat :: Leading(messages, k) && bytes == Payload(messages, k) && (eof ==> Complete(messages, k))
  {
    var source := new UploadSource(messages);
    bytes := [];
    var n := 0;
    while true
      invariant source.Valid() && source.messages == messages && bytes == source.delivered && fresh(source)
      decreases |Payload(messages, |messages|)| - |bytes|
    {
      PayloadGrows(messages, source.chunks, |messages|);
      var r := source.Read(Max(1, capacities(n)));
      n := n + 1;
      if r.Eof? { return bytes, true; }
      if r.Error? { return bytes, false; }
      bytes := bytes + r.bytes;
      PayloadGrows(messages, source.chunks, |messages|);
    }
  }

  const CHUNK: nat := 64 * 1024

  function Concat(ms: seq<Bytes>): Bytes {
    if ms == [] then [] else Concat(ms[..|ms| - 1]) + ms[|ms| - 1]
  }

  /** Every message was taken and has a legal size. */
  predicate Taken(sent: seq<Bytes>, accepts: nat -> bool) {
    forall i | 0 <= i < |sent| :: 0 < |sent[i]| <= CHUNK && accepts(i)
  }

  /** The first n messages are as long as they may be. */
  predicate Filled(sent: seq<Bytes>, n: int) { n <= |sent| && forall i | 0 <= i < n :: |sent[i]| == CHUNK }

  lemma {:induction false} ConcatSnoc(sent: seq<Bytes>, message: Bytes)
    ensures Concat(sent + [message]) == Concat(sent) + message
  {
    assert (sent + [message])[..|sent|] == sent;
  }

  lemma TakenOn(sent: seq<Bytes>, accepts: nat -> bool, message: Bytes)
    requires Taken(sent, accepts) && 0 < |message| <= CHUNK && accepts(|sent|)
    ensures Taken(sent + [message], accepts)
  {
    var more := sent + [message];
    forall i | 0 <= i < |more| ensures 0 < |more[i]| <= CHUNK && accepts(i) {
      if i < |sent| { assert more[i] == sent[i]; }
    }
  }

  lemma FilledOn(sent: seq<Bytes>, message: Bytes)
    requires Filled(sent, |sent|)
    ensures Filled(sent + [message], if |message| == CHUNK then |sent| + 1 else |sent|)
  {
    var more := sent + [message];
    assert forall i | 0 <= i < |sent| :: more[i] == sent[i];
  }

  /** The download sink cuts data into messages of 64 KiB, the last one perhaps shorter; `accepts`
      says which writes the client takes.  It stops only at a write that is not taken. */
  method Write(data: Bytes, accepts: nat -> bool) returns (ok: bool, sent: seq<Bytes>)
    ensures Concat(sent) <= data && (ok ==> Concat(sent) == data)
    ensures Taken(sent, accepts) && Filled(sent, |sent| - 1)
    ensures !ok ==> !accepts(|sent|) && |Concat(sent)| < |data|
  {
    sent := [];
    var offset := 0;
    while offset < |data|
      invariant 0 <= offset <= |data| && Concat(sent) == data[..offset]
      invariant Taken(sent, accepts) && Filled(sent, if offset < |data| then |sent| else |sent| - 1)
    {
      var count := Min(CHUNK, |data| - offset);
      var message := data[offset..offset + count];
      if !accepts(|sent|) { return false, sent; }
      ConcatSnoc(sent, message);
      TakenOn(sent, accepts, message);
      FilledOn(sent, message);
      assert data[..offset] + message == data[..offset + count];
      sent := sent + [message];
      offset := offset + count;
    }
    ok := true;
  }
}
