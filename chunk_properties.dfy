/**
 * What the demultiplexer promises about chunk headers and reassembly: the
 * header readers take back what a chunk writer puts down, chunk stream ids
 * fall into the ranges of their header forms, headers inherit the fields
 * they leave out, timestamps advance only when a message starts, an extended
 * timestamp replaces the timestamp after every header format, and a new
 * header abandons a partly received message.
 */
module ChunkProperties {
  import opened Wrappers
  import opened Bytes
  import opened Messages
  import opened Chunks
  import Interpreter

  /**
   * The shortest basic header for chunk stream `csid`: ids 2-63 fit in the
   * first byte, 64-319 take one more byte, larger ones two more.
   */
  function WriteBasicHeader(fmt: nat, csid: nat): (r: seq<byte>)
    requires fmt < 4 && 2 <= csid < 65600
    ensures 1 <= |r| <= 3
  {
    if csid < 64 then [(fmt * 64 + csid) as byte]
    else if csid < 320 then [(fmt * 64) as byte, (csid - 64) as byte]
    else [(fmt * 64 + 1) as byte] + LeBytes(csid - 64, 2)
  }

  /** A written basic header reads back as its format and chunk stream id. */
  lemma ReadWrittenBasicHeader(fmt: nat, csid: nat, data: seq<byte>, pos: nat)
    requires fmt < 4 && 2 <= csid < 65600 && At(data, pos, WriteBasicHeader(fmt, csid))
    ensures ReadBasicHeader(data, pos) == Some(Read(BasicHeader(fmt, csid), After(pos, WriteBasicHeader(fmt, csid))))
  {
    var w := WriteBasicHeader(fmt, csid);
    assert data[pos] == w[0];
    if csid >= 320 {
      assert data[pos + 1..pos + 3] == w[1..];
    } else if csid >= 64 {
      assert data[pos + 1] == w[1];
    }
  }

  /**
   * The chunk stream id of a basic header that reads is never 0 or 1 (those
   * select the longer forms): one byte gives 2-63, two bytes 64-319 and
   * three bytes 64-65599. The format is the top two bits of the first byte.
   */
  lemma ChunkStreamIdRanges(data: seq<byte>, pos: nat)
    requires pos < |data| && ReadBasicHeader(data, pos).Some?
    ensures var r := ReadBasicHeader(data, pos).value;
            var csid, length := r.value.csid, r.next - pos;
            r.value.fmt == data[pos] as nat / 64 && 2 <= csid < 65600
            && (length == 1 ==> csid < 64 && csid == data[pos] as nat % 64)
            && (length == 2 ==> 64 <= csid < 320)
            && (length == 3 ==> 64 <= csid)
            && 1 <= length <= 3
  {
  }

  /** A message header whose fields fit their widths. */
  predicate HeaderWritable(h: MessageHeader) {
    match h
    case Full(td, size, _, id) => td < 0x100_0000 && size < 0x100_0000 && id < 0x1_0000_0000
    case SameStream(td, size, _) => td < 0x100_0000 && size < 0x100_0000
    case TimeOnly(td) => td < 0x100_0000
    case NoHeader => true
  }

  /** The bytes of a message header: 11, 7, 3 or no bytes for formats 0 to 3. */
  function WriteMessageHeader(h: MessageHeader): (r: seq<byte>)
    requires HeaderWritable(h)
    ensures |r| == [11, 7, 3, 0][Format(h)]
  {
    match h
    case Full(td, size, t, id) => BeBytes(td, 3) + BeBytes(size, 3) + [t] + LeBytes(id, 4)
    case SameStream(td, size, t) => BeBytes(td, 3) + BeBytes(size, 3) + [t]
    case TimeOnly(td) => BeBytes(td, 3)
    case NoHeader => []
  }

  /** A written message header reads back as itself under its own format. */
  lemma ReadWrittenMessageHeader(h: MessageHeader, data: seq<byte>, pos: nat)
    requires HeaderWritable(h) && At(data, pos, WriteMessageHeader(h))
    ensures ReadMessageHeader(data, pos, Format(h)) == Some(Read(h, After(pos, WriteMessageHeader(h))))
  {
    match h
    case NoHeader =>
    case TimeOnly(td) =>
      FieldAt(data, pos, td, 3);
    case SameStream(td, size, t) =>
      ReadWrittenSameStream(td, size, t, data, pos);
    case Full(td, size, t, id) =>
      ReadWrittenFull(td, size, t, id, data, pos);
  }

  /** A written format-1 header reads back as its timestamp field, size and type. */
  lemma ReadWrittenSameStream(td: nat, size: nat, t: byte, data: seq<byte>, pos: nat)
    requires td < 0x100_0000 && size < 0x100_0000
    requires At(data, pos, BeBytes(td, 3) + BeBytes(size, 3) + [t])
    ensures ReadMessageHeader(data, pos, 1) == Some(Read(SameStream(td, size, t), pos + 7))
  {
    AtThree(data, pos, BeBytes(td, 3), BeBytes(size, 3), [t]);
    FieldAt(data, pos, td, 3);
    FieldAt(data, pos + 3, size, 3);
    ReadSameStreamFields(td, size, t, data, pos);
  }

  /** A format-1 header whose fields are in place reads back as them. */
  lemma ReadSameStreamFields(td: nat, size: nat, t: byte, data: seq<byte>, pos: nat)
    requires pos + 7 <= |data| && data[pos + 6] == t
    requires BeUint(data[pos..pos + 3]) == td && BeUint(data[pos + 3..pos + 6]) == size
    ensures ReadMessageHeader(data, pos, 1) == Some(Read(SameStream(td, size, t), pos + 7))
  {
  }

  /** A format-0 header whose fields are in place reads back as them. */
  lemma ReadFullFields(td: nat, size: nat, t: byte, id: nat, data: seq<byte>, pos: nat)
    requires pos + 11 <= |data| && data[pos + 6] == t
    requires BeUint(data[pos..pos + 3]) == td && BeUint(data[pos + 3..pos + 6]) == size
    requires LeUint(data[pos + 7..pos + 11]) == id
    ensures ReadMessageHeader(data, pos, 0) == Some(Read(Full(td, size, t, id), pos + 11))
  {
  }

  /** A written format-0 header reads back as its timestamp field, size, type and little-endian stream id. */
  lemma ReadWrittenFull(td: nat, size: nat, t: byte, id: nat, data: seq<byte>, pos: nat)
    requires td < 0x100_0000 && size < 0x100_0000 && id < 0x1_0000_0000
    requires At(data, pos, BeBytes(td, 3) + BeBytes(size, 3) + [t] + LeBytes(id, 4))
    ensures ReadMessageHeader(data, pos, 0) == Some(Read(Full(td, size, t, id), pos + 11))
  {
    var header := BeBytes(td, 3) + BeBytes(size, 3) + [t];
    assert At(data, pos, header) && At(data, pos + 7, LeBytes(id, 4)) by {
      AtSplit(data, pos, header, LeBytes(id, 4));
    }
    AtThree(data, pos, BeBytes(td, 3), BeBytes(size, 3), [t]);
    FieldAt(data, pos, td, 3);
    FieldAt(data, pos + 3, size, 3);
    LeFieldAt(data, pos + 7, id, 4);
    ReadFullFields(td, size, t, id, data, pos);
  }

  /**
   * Headers inherit what they leave out: a format-3 chunk changes nothing
   * before its payload; format 2 replaces only the timestamp field; format 1
   * also the size and type, keeping the message stream id and timestamp;
   * format 0 replaces everything and restarts the timestamp from 0. Every
   * format but 3 abandons a message still being received.
   */
  lemma HeaderInheritance(s: StreamState, h: MessageHeader)
    ensures var r := ApplyHeader(s, h);
            r.received == s.received
            && (h.NoHeader? ==> r == s)
            && (!h.NoHeader? ==> r.bytesLeft == 0 && r.timedelta == Some(h.timedelta))
            && (h.TimeOnly? || h.NoHeader? ==> r.size == s.size && r.msgType == s.msgType)
            && (h.SameStream? || h.Full? ==> r.size == Some(h.size) && r.msgType == Some(h.msgType))
            && (r.streamId == if h.Full? then Some(h.streamId) else s.streamId)
            && (r.timestamp == if h.Full? then Some(0) else s.timestamp)
  {
  }

  /** The chunk at `st.pos` is read by `Receive` once its headers are read. */
  lemma StepReceives(data: seq<byte>, st: Demux, b: Read<BasicHeader>, h: Read<MessageHeader>)
    requires st.pos < |data| && WellFormed(st)
    requires ReadBasicHeader(data, st.pos) == Some(b) && b.value.fmt < 4
    requires ReadMessageHeader(data, b.next, b.value.fmt) == Some(h) && h.next <= |data|
    ensures StepAt(data, st) == Receive(data, st, b.value.csid, h)
  {
  }

  /**
   * A format-3 chunk that continues a message on its stream keeps the
   * message's timestamp, type, message stream id and size, appends its
   * payload to the bytes received, and takes at most one chunk size of
   * payload.
   */
  lemma ContinuationKeepsMessage(data: seq<byte>, st: Demux, csid: nat, h: Read<MessageHeader>)
    requires st.pos < h.next <= |data| && WellFormed(st)
    requires h.value.NoHeader? && StreamOf(st, csid).bytesLeft > 0 && StreamOf(st, csid).timedelta != Some(ExtendedMarker)
    requires Receive(data, st, csid, h).Next?
    ensures var before, r := StreamOf(st, csid), Receive(data, st, csid, h);
            var after := StreamOf(r.state, csid);
            after.timestamp == before.timestamp && after.msgType == before.msgType
            && after.streamId == before.streamId && after.size == before.size
            && r.state.pos - h.next <= st.chunkSize
            && (after.bytesLeft > 0 ==> after.received == before.received + data[h.next..r.state.pos])
  {
  }

  /**
   * A chunk that starts a message (any header but format 3, or format 3
   * after the previous message completed) adds its timestamp field to the
   * timestamp: to 0 after format 0, to the stream's last timestamp (0 if
   * none) otherwise. Without an extended timestamp that is the message's
   * timestamp, and what it has received is this chunk's payload alone.
   */
  lemma NewMessageTimestamp(data: seq<byte>, st: Demux, csid: nat, h: Read<MessageHeader>)
    requires st.pos < h.next <= |data| && WellFormed(st)
    requires var before := StreamOf(st, csid); !h.value.NoHeader? || before.bytesLeft == 0
    requires ApplyHeader(StreamOf(st, csid), h.value).timedelta.Some?
    requires ApplyHeader(StreamOf(st, csid), h.value).timedelta != Some(ExtendedMarker)
    requires Receive(data, st, csid, h).Next?
    ensures var before, r := StreamOf(st, csid), Receive(data, st, csid, h);
            var after := StreamOf(r.state, csid);
            var base := if h.value.Full? then 0 else before.timestamp.GetOr(0);
            after.timestamp == Some(base + ApplyHeader(before, h.value).timedelta.value)
            && (after.bytesLeft > 0 ==> after.received == data[h.next..r.state.pos])
  {
    var before := StreamOf(st, csid);
    var a := ApplyHeader(before, h.value);
    var s := Begin(a).value;
    var c := ReceiveChunk(data, h.next, s, st.chunkSize);
    assert ReadExtended(data, h.next, s) == Some(Read(s, h.next));
    ReceiveSteps(data, st, csid, h, s, s, h.next, c.value, c.next);
    HeaderBase(before, h.value);
    BegunChunk(a, s, data, h.next, st.chunkSize);
    CompleteStream(st, csid, c.value, c.next);
  }

  /** Format 0 sets the timestamp to 0 before its field is added; the other formats keep the stream's. */
  lemma HeaderBase(before: StreamState, hv: MessageHeader)
    ensures ApplyHeader(before, hv).timestamp.GetOr(0) == if hv.Full? then 0 else before.timestamp.GetOr(0)
    ensures !hv.NoHeader? ==> ApplyHeader(before, hv).bytesLeft == 0
  {
  }

  /** A message begun from nothing received takes its new timestamp, and the chunk's payload is then all it holds. */
  lemma BegunChunk(a: StreamState, s: StreamState, data: seq<byte>, pos: nat, chunkSize: nat)
    requires Receiving(a) && a.bytesLeft == 0 && Begin(a) == Some(s) && pos <= |data|
    ensures s.timestamp == Some(a.timestamp.GetOr(0) + a.timedelta.value)
    ensures ReceiveChunk(data, pos, s, chunkSize).value.timestamp == s.timestamp
    ensures ReceiveChunk(data, pos, s, chunkSize).value.received == data[pos..ReceiveChunk(data, pos, s, chunkSize).next]
  {
  }

  /** After a chunk, its stream holds what the chunk left, without the bytes of a message it completed. */
  lemma CompleteStream(st: Demux, csid: nat, s: StreamState, next: nat)
    requires WellFormed(st) && Receiving(s) && s.timestamp.Some? && s.streamId.Some? && s.size.Some?
    requires s.bytesLeft == 0 ==> |s.received| == s.size.value
    requires Complete(st, csid, s, next).Next?
    ensures StreamOf(Complete(st, csid, s, next).state, csid) == if s.bytesLeft > 0 then s else s.(received := [])
  {
  }

  /**
   * A chunk that brings in the last byte its message lacks hands the
   * interpreter a payload exactly as long as the size its latest header
   * declared, with that header's type and its message stream id (1 when no
   * header gave one); whatever the interpreter yields and reports is what
   * the chunk yields and reports.
   */
  lemma DispatchedHasDeclaredSize(data: seq<byte>, st: Demux, csid: nat, h: Read<MessageHeader>,
                                  begun: StreamState, e: Read<StreamState>)
    requires st.pos < h.next <= |data| && WellFormed(st)
    requires Begin(ApplyHeader(StreamOf(st, csid), h.value)) == Some(begun)
    requires ReadExtended(data, h.next, begun) == Some(e)
    requires ReceiveChunk(data, e.next, e.value, st.chunkSize).value.bytesLeft == 0
    ensures var a, c := ApplyHeader(StreamOf(st, csid), h.value), ReceiveChunk(data, e.next, e.value, st.chunkSize);
            var d := Interpreter.Interpret(a.msgType.value, c.value.timestamp.value, a.streamId.GetOr(1),
                                           c.value.received, st.chunkSize);
            var r := Receive(data, st, csid, h);
            |c.value.received| == a.size.value
            && r.messages == d.messages && r.notes == d.notes && (r.Next? <==> !d.failed)
            && (r.Next? ==> r.state.chunkSize == d.chunkSize)
            && (a.msgType == Some(1) && a.size == Some(4) ==> r.Next? && r.state.chunkSize == BeUint(c.value.received))
  {
    var c := ReceiveChunk(data, e.next, e.value, st.chunkSize);
    ReceiveSteps(data, st, csid, h, begun, e.value, e.next, c.value, c.next);
    Interpreter.InterpretChunkSize(c.value.msgType.value, c.value.timestamp.value, c.value.streamId.value,
                                   c.value.received, st.chunkSize);
  }

  /**
   * After a chunk, its stream's message stream id is the one its latest
   * format-0 header gave, or 1 when none did.
   */
  lemma StreamIdDefault(data: seq<byte>, st: Demux, csid: nat, h: Read<MessageHeader>)
    requires st.pos < h.next <= |data| && WellFormed(st)
    requires Receive(data, st, csid, h).Next?
    ensures var a, r := ApplyHeader(StreamOf(st, csid), h.value), Receive(data, st, csid, h);
            StreamOf(r.state, csid).streamId == Some(a.streamId.GetOr(1))
  {
    var a := ApplyHeader(StreamOf(st, csid), h.value);
    var begun := Begin(a).value;
    var e := ReadExtended(data, h.next, begun).value;
    var c := ReceiveChunk(data, e.next, e.value, st.chunkSize);
    ReceiveSteps(data, st, csid, h, begun, e.value, e.next, c.value, c.next);
    CompleteStream(st, csid, c.value, c.next);
  }

  /**
   * While the stream's timestamp field is 0xFFFFFF, every chunk, format 3
   * included, carries a 4-byte extended timestamp after its message header,
   * and that value becomes the message's timestamp whatever was added
   * before.
   */
  lemma ExtendedTimestampReplaces(data: seq<byte>, st: Demux, csid: nat, h: Read<MessageHeader>)
    requires st.pos < h.next <= |data| && WellFormed(st)
    requires ApplyHeader(StreamOf(st, csid), h.value).timedelta == Some(ExtendedMarker)
    requires Receive(data, st, csid, h).Next?
    ensures var r := Receive(data, st, csid, h);
            h.next + 4 <= r.state.pos
            && StreamOf(r.state, csid).timestamp == Some(BeUint(data[h.next..h.next + 4]))
  {
  }

  /** An extended timestamp cut short by the end of the input stops reading. */
  lemma ExtendedTimestampTruncated(data: seq<byte>, st: Demux, csid: nat, h: Read<MessageHeader>)
    requires st.pos < h.next <= |data| && WellFormed(st) && h.next + 4 > |data|
    requires ApplyHeader(StreamOf(st, csid), h.value).timedelta == Some(ExtendedMarker)
    requires ApplyHeader(StreamOf(st, csid), h.value).size.Some?
    ensures Receive(data, st, csid, h) == Stop([], [], Failed(Truncated))
  {
  }

  /**
   * A chunk of format 2 or 3 on a chunk stream that has never seen a header
   * with a size stops reading: the payload length is unknown.
   */
  lemma UnknownSizeStops(data: seq<byte>, st: Demux, csid: nat, h: Read<MessageHeader>)
    requires st.pos < h.next <= |data| && WellFormed(st)
    requires StreamOf(st, csid).size.None? && (h.value.TimeOnly? || h.value.NoHeader?)
    ensures Receive(data, st, csid, h) == Stop([], [], Failed(UnknownSize))
  {
  }

  /**
   * The chunk size changes only when a set-chunk-size message completes,
   * and the demultiplexer yields audio and video messages only.
   */
  lemma ChunkSizeAndMedia(data: seq<byte>, st: Demux, csid: nat, h: Read<MessageHeader>)
    requires st.pos < h.next <= |data| && WellFormed(st)
    ensures var r := Receive(data, st, csid, h);
            (r.Next? && r.state.chunkSize != st.chunkSize ==>
               ApplyHeader(StreamOf(st, csid), h.value).msgType == Some(1) && StreamOf(r.state, csid).bytesLeft == 0)
            && (forall m | m in r.messages :: IsMedia(m.msgType))
  {
    var a := ApplyHeader(StreamOf(st, csid), h.value);
    match Begin(a)
    case None =>
    case Some(begun) =>
      match ReadExtended(data, h.next, begun)
      case None =>
      case Some(e) =>
        var c := ReceiveChunk(data, e.next, e.value, st.chunkSize);
        var s := c.value;
        ReceiveSteps(data, st, csid, h, begun, e.value, e.next, s, c.next);
        if s.bytesLeft == 0 {
          Interpreter.InterpretEmitsMedia(s.msgType.value, s.timestamp.value, s.streamId.value, s.received, st.chunkSize);
          Interpreter.InterpretChunkSize(s.msgType.value, s.timestamp.value, s.streamId.value, s.received, st.chunkSize);
        }
  }

  /** Everything the demultiplexer yields is audio or video. */
  lemma {:induction false} RunYieldsMedia(data: seq<byte>, st: Demux)
    requires st.pos <= |data| && WellFormed(st)
    ensures forall m | m in Run(data, st).messages :: IsMedia(m.msgType)
    decreases |data| - st.pos
  {
    if st.pos < |data| {
      match ReadBasicHeader(data, st.pos)
      case None =>
      case Some(b) =>
        match ReadMessageHeader(data, b.next, b.value.fmt)
        case None =>
        case Some(h) =>
          if h.next <= |data| {
            ChunkSizeAndMedia(data, st, b.value.csid, h);
          }
    }
    var r := StepAt(data, st);
    if r.Next? {
      RunYieldsMedia(data, r.state);
    }
  }
}
