/** The upload of a code file: cut into chunks by the gateway, put together again by the
    submission service. */
module Upload {
  type byte = x: int | 0 <= x < 256

  const CHUNK := 1024

  datatype Request = Info(user: string, problem: string, language: string) | Chunk(data: seq<byte>)

  // bytes.Reader
  class Reader {
    const data: seq<byte>
    var pos: nat

    constructor (data: seq<byte>)
      ensures this.data == data && pos == 0
    {
      this.data := data;
      pos := 0;
    }

    // Fills the front of the buffer; end of file when nothing is left.
    method Read(buffer: array<byte>) returns (n: nat, eof: bool)
      requires pos <= |data|
      modifies this`pos, buffer
      ensures eof <==> old(pos) == |data|
      ensures n == if |data| - old(pos) < buffer.Length then |data| - old(pos) else buffer.Length
      ensures pos == old(pos) + n && buffer[..n] == data[old(pos)..pos]
    {
      if pos == |data| { return 0, true; }
      n := if |data| - pos < buffer.Length then |data| - pos else buffer.Length;
      for i := 0 to n
        invariant pos == old(pos) && buffer[..i] == data[pos..pos + i]
      {
        buffer[i] := data[pos + i];
      }
      pos := pos + n;
      eof := false;
    }
  }

  // The client side of the stream.  It breaks after `capacity` requests.
  class Stream {
    const capacity: nat
    var sent: seq<Request>

    constructor (capacity: nat)
      ensures this.capacity == capacity && sent == []
    {
      this.capacity := capacity;
      sent := [];
    }

    // Send serialises its argument, so it keeps a copy of the bytes.
    method Send(r: Request) returns (ok: bool)
      modifies this`sent
      ensures ok <==> old(|sent|) < capacity
      ensures sent == if ok then old(sent) + [r] else old(sent)
    {
      ok := |sent| < capacity;
      if ok { sent := sent + [r]; }
    }
  }

  function Chunks(data: seq<byte>): seq<seq<byte>> {
    if data == [] then []
    else if |data| <= CHUNK then [data]
    else [data[..CHUNK]] + Chunks(data[CHUNK..])
  }

  lemma ChunksStep(rest: seq<byte>, n: nat)
    requires rest != [] && n == if |rest| < CHUNK then |rest| else CHUNK
    ensures Chunks(rest) == [rest[..n]] + Chunks(rest[n..])
  {
    if n == |rest| { assert rest[..n] == rest; }
  }

  function Requests(chunks: seq<seq<byte>>): (rs: seq<Request>)
    ensures |rs| == |chunks| && forall i :: 0 <= i < |rs| ==> rs[i] == Chunk(chunks[i])
  {
    seq(|chunks|, i requires 0 <= i < |chunks| => Chunk(chunks[i]))
  }

  // The gateway's loop: one buffer, overwritten for every chunk.
  method SendChunks(data: seq<byte>, stream: Stream) returns (ok: bool)
    requires |stream.sent| <= stream.capacity
    modifies stream`sent
    ensures var all := old(stream.sent) + Requests(Chunks(data));
      && (ok <==> |all| <= stream.capacity)
      && stream.sent == (if ok then all else all[..stream.capacity])
  {
    ghost var all := stream.sent + Requests(Chunks(data));
    var reader := new Reader(data);
    var buffer := new byte[CHUNK];
    while true
      invariant reader.pos <= |data| && reader.data == data && fresh(reader) && fresh(buffer)
      invariant |stream.sent| <= stream.capacity
      invariant stream.sent + Requests(Chunks(data[reader.pos..])) == all
      decreases |data| - reader.pos
    {
      ghost var rest, before := data[reader.pos..], stream.sent;
      var n, eof := reader.Read(buffer);
      if eof { break; }
      assert buffer[..n] == rest[..n] && data[reader.pos..] == rest[n..];
      ok := stream.Send(Chunk(buffer[..n]));
      SplitAll(before, rest, n, all);
      if !ok { return; }
    }
    assert stream.sent == all;
    ok := true;
  }

  lemma SplitAll(before: seq<Request>, rest: seq<byte>, n: nat, all: seq<Request>)
    requires rest != [] && n == (if |rest| < CHUNK then |rest| else CHUNK) && before + Requests(Chunks(rest)) == all
    ensures before + [Chunk(rest[..n])] + Requests(Chunks(rest[n..])) == all
    ensures |before| < |all| && all[..|before|] == before
  {
    ChunksStep(rest, n);
    RequestsCons(rest[..n], Chunks(rest[n..]));
    Regroup(before, [Chunk(rest[..n])], Requests(Chunks(rest[n..])));
  }

  lemma Regroup<T>(a: seq<T>, b: seq<T>, c: seq<T>)
    ensures a + b + c == a + (b + c) && (a + (b + c))[..|a|] == a
  {}

  lemma RequestsCons(first: seq<byte>, chunks: seq<seq<byte>>)
    ensures Requests([first] + chunks) == [Chunk(first)] + Requests(chunks)
  {}

  // The gateway's side of a submission: the info first, then the file.
  method SendFile(data: seq<byte>, info: Request, stream: Stream) returns (ok: bool)
    requires info.Info? && stream.sent == []
    modifies stream`sent
    ensures ok <==> 1 + |Chunks(data)| <= stream.capacity
    ensures ok ==> stream.sent == [info] + Requests(Chunks(data))
    ensures !ok ==> stream.sent == ([info] + Requests(Chunks(data)))[..stream.capacity]
  {
    ok := stream.Send(info);
    if ok { ok := SendChunks(data, stream); }
  }

  // What the server receives: a request or a transport error; then the end of the stream.
  datatype Received = Got(request: Request) | Broken

  datatype Reply = Submitted(info: Request, code: seq<byte>) | InvalidArgument | Internal

  // The chunk data of a request: none for an Info.
  function Payload(r: Request): seq<byte> { if r.Chunk? then r.data else [] }

  function Gather(rs: seq<Received>): seq<byte> {
    if rs == [] then [] else
    Gather(rs[..|rs| - 1]) + (if rs[|rs| - 1].Got? then Payload(rs[|rs| - 1].request) else [])
  }

  // The server's handler, up to the call of the service.
  method ReceiveFile(rs: seq<Received>) returns (reply: Reply)
    ensures reply.InvalidArgument? <==> rs == [] || rs[0].Broken? || !rs[0].request.Info?
    ensures reply.Submitted? <==> !reply.InvalidArgument? && forall i :: 0 <= i < |rs| ==> rs[i].Got?
    ensures reply.Submitted? ==> reply == Submitted(rs[0].request, Gather(rs[1..]))
  {
    if rs == [] || rs[0].Broken? { return InvalidArgument; }
    var info := rs[0].request;
    if !info.Info? { return InvalidArgument; }
    var code: seq<byte> := [];
    for i := 1 to |rs|
      invariant code == Gather(rs[1..i])
      invariant forall k :: 0 <= k < i ==> rs[k].Got?
    {
      if rs[i].Broken? { return Internal; }
      assert rs[1..i + 1][..i - 1] == rs[1..i];
      code := code + Payload(rs[i].request);
    }
    assert rs[1..|rs|] == rs[1..];
    reply := Submitted(info, code);
  }

  // ---- round trip ----

  function Flatten(chunks: seq<seq<byte>>): seq<byte> {
    if chunks == [] then [] else chunks[0] + Flatten(chunks[1..])
  }

  // The chunks among the requests, in order.
  function ChunksOf(rs: seq<Received>): seq<seq<byte>> {
    if rs == [] then [] else
    ChunksOf(rs[..|rs| - 1]) +
    (if rs[|rs| - 1].Got? && rs[|rs| - 1].request.Chunk? then [rs[|rs| - 1].request.data] else [])
  }

  lemma {:induction false} FlattenSnoc(chunks: seq<seq<byte>>, last: seq<byte>)
    ensures Flatten(chunks + [last]) == Flatten(chunks) + last
  {
    if chunks == [] {
      assert Flatten([last]) == last + Flatten([]);
    } else {
      assert (chunks + [last])[1..] == chunks[1..] + [last];
      FlattenSnoc(chunks[1..], last);
    }
  }

  lemma {:induction false} GatherIsFlatten(rs: seq<Received>)
    ensures Gather(rs) == Flatten(ChunksOf(rs))
  {
    if rs != [] {
      var last := rs[|rs| - 1];
      GatherIsFlatten(rs[..|rs| - 1]);
      if last.Got? && last.request.Chunk? { FlattenSnoc(ChunksOf(rs[..|rs| - 1]), last.request.data); }
      else { assert ChunksOf(rs) == ChunksOf(rs[..|rs| - 1]); }
    }
  }

  lemma {:induction false} ChunksFlatten(data: seq<byte>)
    ensures Flatten(Chunks(data)) == data
  {
    if |data| > CHUNK { ChunksFlatten(data[CHUNK..]); }
  }

  // Ceiling of n/1024 chunks, none empty, all of 1024 bytes but perhaps the last.
  lemma {:induction false} ChunkSizes(data: seq<byte>)
    ensures |Chunks(data)| == (|data| + 1023) / 1024
    ensures forall i :: 0 <= i < |Chunks(data)| ==> 0 < |Chunks(data)[i]| <= 1024
    ensures forall i :: 0 <= i < |Chunks(data)| - 1 ==> |Chunks(data)[i]| == 1024
  {
    if |data| > CHUNK { ChunkSizes(data[CHUNK..]); }
  }

  // However the chunks of a file arrive, with any other requests in between, the code the
  // server passes on is the file, byte for byte.
  lemma RoundTrip(data: seq<byte>, rs: seq<Received>)
    requires ChunksOf(rs) == Chunks(data)
    ensures Gather(rs) == data
  {
    GatherIsFlatten(rs);
    ChunksFlatten(data);
  }

  lemma {:induction false} RequestsRoundTrip(chunks: seq<seq<byte>>)
    ensures ChunksOf(Deliver(Requests(chunks))) == chunks
  {
    if chunks != [] {
      var front := chunks[..|chunks| - 1];
      RequestsRoundTrip(front);
      assert Deliver(Requests(chunks))[..|chunks| - 1] == Deliver(Requests(front));
    }
  }

  function Deliver(rs: seq<Request>): (out: seq<Received>)
    ensures |out| == |rs| && forall i :: 0 <= i < |out| ==> out[i] == Got(rs[i])
  {
    seq(|rs|, i requires 0 <= i < |rs| => Got(rs[i]))
  }

  // Both loops together.  A gateway that fails to send never closes the stream, and the server
  // then receives an error; so it submits the whole file or nothing.
  method Transfer(data: seq<byte>, info: Request, capacity: nat) returns (sent: bool, reply: Reply)
    requires info.Info?
    ensures sent <==> 1 + |Chunks(data)| <= capacity
    ensures if sent then reply == Submitted(info, data) else !reply.Submitted?
  {
    var stream := new Stream(capacity);
    sent := SendFile(data, info, stream);
    var received := Deliver(stream.sent);
    if sent {
      assert received[1..] == Deliver(Requests(Chunks(data)));
      RequestsRoundTrip(Chunks(data));
      RoundTrip(data, received[1..]);
    } else {
      received := received + [Broken];
      assert received[|received| - 1].Broken?;
    }
    reply := ReceiveFile(received);
  }
}
