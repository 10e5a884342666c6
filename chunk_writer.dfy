/**
 * A chunk writer as an RTMP sender would use it, as the partner of the
 * demultiplexer: one message goes out as a format-0 chunk followed by
 * format-3 chunks, each with at most one chunk size of payload. Chunk by
 * chunk, the demultiplexer reads such a message back: the first chunk
 * starts it afresh whatever its chunk stream remembered, each later chunk
 * adds the next bytes, and the chunk that completes it yields it with its
 * timestamp, type and message stream id.
 */
module ChunkWriter {
  import opened Wrappers
  import opened Bytes
  import opened Messages
  import opened Chunks
  import opened ChunkProperties
  import Interpreter

  /** A message the writer can send on chunk stream `csid` without an extended timestamp. */
  predicate Chunkable(csid: nat, m: Message, chunkSize: nat) {
    2 <= csid < 65600 && chunkSize > 0 && 0 <= m.timestamp < ExtendedMarker
    && |m.data| < 0x100_0000 && m.streamId < 0x1_0000_0000
  }

  function FirstHeader(m: Message): MessageHeader
    requires 0 <= m.timestamp
  {
    Full(m.timestamp, |m.data|, m.msgType, m.streamId)
  }

  /** The format-3 chunks that carry `rest`, the payload after the first chunk. */
  function WriteContinuations(csid: nat, rest: seq<byte>, chunkSize: nat): seq<byte>
    requires 2 <= csid < 65600 && chunkSize > 0
    decreases |rest|
  {
    if rest == [] then []
    else
      var n := Min(chunkSize, |rest|);
      WriteBasicHeader(3, csid) + rest[..n] + WriteContinuations(csid, rest[n..], chunkSize)
  }

  /** The chunks of message `m` on chunk stream `csid`. */
  function WriteChunks(csid: nat, m: Message, chunkSize: nat): seq<byte>
    requires Chunkable(csid, m, chunkSize)
  {
    var n := Min(chunkSize, |m.data|);
    WriteBasicHeader(0, csid) + WriteMessageHeader(FirstHeader(m)) + m.data[..n]
    + WriteContinuations(csid, m.data[n..], chunkSize)
  }

  /** The chunk stream's state once `received` bytes of `m` have arrived and more are due. */
  function Partial(m: Message, received: nat): StreamState
    requires 0 <= m.timestamp && received <= |m.data|
  {
    StreamState(Some(m.timestamp), Some(m.msgType), Some(m.streamId), Some(m.timestamp), Some(|m.data|),
                |m.data| - received, m.data[..received])
  }

  /** The chunk stream's state after `m` was received whole. */
  function Done(m: Message): StreamState
    requires 0 <= m.timestamp
  {
    StreamState(Some(m.timestamp), Some(m.msgType), Some(m.streamId), Some(m.timestamp), Some(|m.data|), 0, [])
  }

  /** What a message the interpreter passes on unchanged must be: audio or video with a payload. */
  predicate PassedOn(m: Message) {
    IsMedia(m.msgType) && m.data != [] && m.timestamp >= 0
  }

  /** The step after a chunk that received `got` bytes of `m` in all. */
  function AfterChunk(st: Demux, csid: nat, m: Message, got: nat, next: nat): Step
    requires PassedOn(m) && got <= |m.data|
  {
    if got == |m.data| then Next(Demux(next, st.chunkSize, st.streams[csid := Done(m)]), [m], [])
    else Next(Demux(next, st.chunkSize, st.streams[csid := Partial(m, got)]), [], [])
  }

  lemma InterpretPassesOn(m: Message, chunkSize: nat)
    requires PassedOn(m)
    ensures Interpreter.Interpret(m.msgType, m.timestamp as nat, m.streamId, m.data, chunkSize)
            == Interpreter.Dispatched(chunkSize, [m], [], false)
  {
  }

  /** A format-0 header starts `m` afresh, whatever the stream held. */
  lemma BeginsAfresh(s: StreamState, m: Message)
    requires Receiving(s) && PassedOn(m)
    ensures Begin(ApplyHeader(s, FirstHeader(m))) == Some(Partial(m, 0))
  {
  }

  /** A stream in the middle of `m` is left as it is by a format-3 header. */
  lemma GoesOn(m: Message, got: nat)
    requires PassedOn(m) && 0 < got < |m.data|
    ensures Begin(ApplyHeader(Partial(m, got), NoHeader)) == Some(Partial(m, got))
  {
  }

  /** The payload of a chunk that carries the next `n` bytes of `m`. */
  lemma TakesPayload(data: seq<byte>, at: nat, m: Message, got: nat, chunkSize: nat)
    requires PassedOn(m) && got < |m.data| && 0 <= m.timestamp < ExtendedMarker
    requires var n := Min(chunkSize, |m.data| - got);
             at + n <= |data| && data[at..at + n] == m.data[got..got + n]
    ensures var n := Min(chunkSize, |m.data| - got);
            ReadExtended(data, at, Partial(m, got)) == Some(Read(Partial(m, got), at))
            && ReceiveChunk(data, at, Partial(m, got), chunkSize) == Read(Partial(m, got + n), at + n)
  {
    var n := Min(chunkSize, |m.data| - got);
    assert m.data[..got] + m.data[got..got + n] == m.data[..got + n];
  }

  /** What follows a chunk that brought the bytes received of `m` to `got`. */
  lemma Completes(st: Demux, csid: nat, m: Message, got: nat, next: nat)
    requires PassedOn(m) && 0 < got <= |m.data| && WellFormed(st)
    ensures Complete(st, csid, Partial(m, got), next) == AfterChunk(st, csid, m, got, next)
  {
    if got == |m.data| {
      assert m.data[..got] == m.data;
      InterpretPassesOn(m, st.chunkSize);
    }
  }

  /** A chunk whose header leaves the stream in the middle of `m`, after `got` bytes, and that carries the next bytes of `m`. */
  lemma Received(data: seq<byte>, st: Demux, csid: nat, m: Message, h: Read<MessageHeader>, got: nat)
    requires st.pos < h.next <= |data| && WellFormed(st) && st.chunkSize > 0
    requires PassedOn(m) && got < |m.data| && m.timestamp < ExtendedMarker
    requires Begin(ApplyHeader(StreamOf(st, csid), h.value)) == Some(Partial(m, got))
    requires var n := Min(st.chunkSize, |m.data| - got);
             h.next + n <= |data| && data[h.next..h.next + n] == m.data[got..got + n]
    ensures var n := Min(st.chunkSize, |m.data| - got);
            Receive(data, st, csid, h) == AfterChunk(st, csid, m, got + n, h.next + n)
  {
    var n := Min(st.chunkSize, |m.data| - got);
    assert ReadExtended(data, h.next, Partial(m, got)) == Some(Read(Partial(m, got), h.next))
           && ReceiveChunk(data, h.next, Partial(m, got), st.chunkSize) == Read(Partial(m, got + n), h.next + n) by {
      TakesPayload(data, h.next, m, got, st.chunkSize);
    }
    assert Receive(data, st, csid, h) == Complete(st, csid, Partial(m, got + n), h.next + n) by {
      ReceiveSteps(data, st, csid, h, Partial(m, got), Partial(m, got), h.next, Partial(m, got + n), h.next + n);
    }
    Completes(st, csid, m, got + n, h.next + n);
  }

  /** The first chunk starts the message on its stream, whatever the stream held before. */
  lemma FirstChunk(csid: nat, m: Message, data: seq<byte>, st: Demux, p: nat, at: nat)
    requires Chunkable(csid, m, st.chunkSize) && PassedOn(m) && WellFormed(st) && st.pos < p && st.pos < |data|
    requires ReadBasicHeader(data, st.pos) == Some(Read(BasicHeader(0, csid), p))
    requires ReadMessageHeader(data, p, 0) == Some(Read(FirstHeader(m), at))
    requires var n := Min(st.chunkSize, |m.data|);
             at + n <= |data| && data[at..at + n] == m.data[..n]
    ensures StepAt(data, st) == AfterChunk(st, csid, m, Min(st.chunkSize, |m.data|), at + Min(st.chunkSize, |m.data|))
  {
    var hr := Read(FirstHeader(m), at);
    assert m.data[..Min(st.chunkSize, |m.data|)] == m.data[0..Min(st.chunkSize, |m.data|)];
    assert StepAt(data, st) == Receive(data, st, csid, hr) by {
      StepReceives(data, st, Read(BasicHeader(0, csid), p), hr);
    }
    BeginsAfresh(StreamOf(st, csid), m);
    Received(data, st, csid, m, hr, 0);
  }

  /** A format-3 chunk goes on with the message its stream is receiving. */
  lemma NextChunk(csid: nat, m: Message, got: nat, data: seq<byte>, st: Demux, at: nat)
    requires Chunkable(csid, m, st.chunkSize) && PassedOn(m) && WellFormed(st) && 0 < got < |m.data|
    requires csid in st.streams && st.streams[csid] == Partial(m, got)
    requires st.pos < |data| && ReadBasicHeader(data, st.pos) == Some(Read(BasicHeader(3, csid), at)) && st.pos < at
    requires var n := Min(st.chunkSize, |m.data| - got);
             at + n <= |data| && data[at..at + n] == m.data[got..got + n]
    ensures var n := Min(st.chunkSize, |m.data| - got);
            StepAt(data, st) == AfterChunk(st, csid, m, got + n, at + n)
  {
    var hr := Read(NoHeader, at);
    StepReceives(data, st, Read(BasicHeader(3, csid), at), hr);
    GoesOn(m, got);
    Received(data, st, csid, m, hr, got);
  }

  /** How the chunks `WriteContinuations` writes for `m` from byte `got` split into the first and the rest. */
  lemma ContinuationsSplit(csid: nat, m: Message, got: nat, chunkSize: nat, data: seq<byte>, pos: nat)
    requires Chunkable(csid, m, chunkSize) && got < |m.data|
    requires At(data, pos, WriteContinuations(csid, m.data[got..], chunkSize))
    ensures var n, at := Min(chunkSize, |m.data| - got), After(pos, WriteBasicHeader(3, csid));
            At(data, pos, WriteBasicHeader(3, csid) + m.data[got..got + n])
            && At(data, at + n, WriteContinuations(csid, m.data[got + n..], chunkSize))
            && After(at + n, WriteContinuations(csid, m.data[got + n..], chunkSize))
               == After(pos, WriteContinuations(csid, m.data[got..], chunkSize))
  {
    var rest := m.data[got..];
    var n := Min(chunkSize, |rest|);
    var first := WriteBasicHeader(3, csid) + rest[..n];
    var tail := WriteContinuations(csid, rest[n..], chunkSize);
    assert rest[..n] == m.data[got..got + n] && rest[n..] == m.data[got + n..];
    assert WriteContinuations(csid, rest, chunkSize) == first + tail;
    AtSplit(data, pos, first, tail);
  }

  /** A format-3 chunk written at `pos` reads as its header and its payload. */
  lemma ContinuationLayout(csid: nat, payload: seq<byte>, data: seq<byte>, pos: nat)
    requires 2 <= csid < 65600 && At(data, pos, WriteBasicHeader(3, csid) + payload)
    ensures var at := After(pos, WriteBasicHeader(3, csid));
            pos < |data| && ReadBasicHeader(data, pos) == Some(Read(BasicHeader(3, csid), at)) && pos < at
            && at + |payload| <= |data| && data[at..at + |payload|] == payload
  {
    AtSplit(data, pos, WriteBasicHeader(3, csid), payload);
    ReadWrittenBasicHeader(3, csid, data, pos);
  }

  /** How the chunks `WriteChunks` writes for `m` split into the first and the rest. */
  lemma ChunksSplit(csid: nat, m: Message, chunkSize: nat, data: seq<byte>, pos: nat)
    requires Chunkable(csid, m, chunkSize)
    requires At(data, pos, WriteChunks(csid, m, chunkSize))
    ensures var n, p := Min(chunkSize, |m.data|), After(pos, WriteBasicHeader(0, csid));
            At(data, pos, WriteBasicHeader(0, csid) + WriteMessageHeader(FirstHeader(m)) + m.data[..n])
            && At(data, p + 11 + n, WriteContinuations(csid, m.data[n..], chunkSize))
            && After(p + 11 + n, WriteContinuations(csid, m.data[n..], chunkSize))
               == After(pos, WriteChunks(csid, m, chunkSize))
  {
    var n := Min(chunkSize, |m.data|);
    var first := WriteBasicHeader(0, csid) + WriteMessageHeader(FirstHeader(m)) + m.data[..n];
    AtSplit(data, pos, first, WriteContinuations(csid, m.data[n..], chunkSize));
  }

  /** A format-0 chunk of `m` written at `pos` reads as its headers and its payload. */
  lemma FirstChunkLayout(csid: nat, m: Message, payload: seq<byte>, data: seq<byte>, pos: nat)
    requires 2 <= csid < 65600 && 0 <= m.timestamp < ExtendedMarker && |m.data| < 0x100_0000
    requires m.streamId < 0x1_0000_0000
    requires At(data, pos, WriteBasicHeader(0, csid) + WriteMessageHeader(FirstHeader(m)) + payload)
    ensures var p := After(pos, WriteBasicHeader(0, csid));
            pos < |data| && ReadBasicHeader(data, pos) == Some(Read(BasicHeader(0, csid), p)) && pos < p
            && ReadMessageHeader(data, p, 0) == Some(Read(FirstHeader(m), p + 11))
            && p + 11 + |payload| <= |data| && data[p + 11..p + 11 + |payload|] == payload
  {
    var b, h := WriteBasicHeader(0, csid), WriteMessageHeader(FirstHeader(m));
    AtSplit(data, pos, b + h, payload);
    AtSplit(data, pos, b, h);
    ReadWrittenBasicHeader(0, csid, data, pos);
    ReadWrittenMessageHeader(FirstHeader(m), data, pos + |b|);
  }

  /** The first of the format-3 chunks written at `pos` for `m` from byte `got`, as the demultiplexer parses it. */
  lemma NextChunkParsed(csid: nat, m: Message, got: nat, chunkSize: nat, data: seq<byte>, pos: nat)
    requires Chunkable(csid, m, chunkSize) && got < |m.data|
    requires At(data, pos, WriteContinuations(csid, m.data[got..], chunkSize))
    ensures var n, at := Min(chunkSize, |m.data| - got), After(pos, WriteBasicHeader(3, csid));
            pos < |data| && ReadBasicHeader(data, pos) == Some(Read(BasicHeader(3, csid), at)) && pos < at
            && at + n <= |data| && data[at..at + n] == m.data[got..got + n]
  {
    var n := Min(chunkSize, |m.data| - got);
    ContinuationsSplit(csid, m, got, chunkSize, data, pos);
    ContinuationLayout(csid, m.data[got..got + n], data, pos);
  }

  lemma FirstChunkParsed(csid: nat, m: Message, chunkSize: nat, data: seq<byte>, pos: nat)
    requires Chunkable(csid, m, chunkSize)
    requires At(data, pos, WriteChunks(csid, m, chunkSize))
    ensures var n, p := Min(chunkSize, |m.data|), After(pos, WriteBasicHeader(0, csid));
            pos < |data| && ReadBasicHeader(data, pos) == Some(Read(BasicHeader(0, csid), p)) && pos < p
            && ReadMessageHeader(data, p, 0) == Some(Read(FirstHeader(m), p + 11))
            && p + 11 + n <= |data| && data[p + 11..p + 11 + n] == m.data[..n]
  {
    var n := Min(chunkSize, |m.data|);
    assert At(data, pos, WriteBasicHeader(0, csid) + WriteMessageHeader(FirstHeader(m)) + m.data[..n]) by {
      ChunksSplit(csid, m, chunkSize, data, pos);
    }
    FirstChunkLayout(csid, m, m.data[..n], data, pos);
  }

  /**
   * The first chunk of `m` written at `st.pos` starts `m` on chunk stream
   * `csid` whatever the stream held, and yields `m` when it carries all of
   * it; `ChunksSplit` says where the rest of the chunks lie.
   */
  lemma ReadFirstChunk(csid: nat, m: Message, data: seq<byte>, st: Demux)
    requires Chunkable(csid, m, st.chunkSize) && PassedOn(m) && WellFormed(st)
    requires At(data, st.pos, WriteChunks(csid, m, st.chunkSize))
    ensures var n, p := Min(st.chunkSize, |m.data|), After(st.pos, WriteBasicHeader(0, csid));
            st.pos <= |data| && StepAt(data, st) == AfterChunk(st, csid, m, n, p + 11 + n)
  {
    var p := After(st.pos, WriteBasicHeader(0, csid));
    FirstChunkParsed(csid, m, st.chunkSize, data, st.pos);
    FirstChunk(csid, m, data, st, p, p + 11);
  }

  /**
   * With the first `got` bytes of `m` on its stream, the next format-3
   * chunk written at `st.pos` adds the next bytes of `m`, and yields `m`
   * when they are its last; `ContinuationsSplit` says where the rest lie.
   */
  lemma ReadNextChunk(csid: nat, m: Message, got: nat, data: seq<byte>, st: Demux)
    requires Chunkable(csid, m, st.chunkSize) && PassedOn(m) && WellFormed(st) && 0 < got < |m.data|
    requires csid in st.streams && st.streams[csid] == Partial(m, got)
    requires At(data, st.pos, WriteContinuations(csid, m.data[got..], st.chunkSize))
    ensures var n, at := Min(st.chunkSize, |m.data| - got), After(st.pos, WriteBasicHeader(3, csid));
            st.pos <= |data| && StepAt(data, st) == AfterChunk(st, csid, m, got + n, at + n)
  {
    var at := After(st.pos, WriteBasicHeader(3, csid));
    NextChunkParsed(csid, m, got, st.chunkSize, data, st.pos);
    NextChunk(csid, m, got, data, st, at);
  }
}
