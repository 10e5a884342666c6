/**
 * The RTMP chunk stream demultiplexer (`read_rtmp_messages`): it reads
 * chunks one after the other, keeps per chunk stream what the last headers
 * said, reassembles each message from its chunks, and hands every complete
 * message to the interpreter.
 *
 * Each chunk starts with a basic header (format 0-3 in the top two bits, the
 * chunk stream id in the low six, or in one or two bytes after it), then a
 * message header whose length depends on the format (11, 7, 3 or 0 bytes),
 * an extended timestamp when the 24-bit timestamp field is 0xFFFFFF, and at
 * most one chunk size worth of payload.
 */
module Chunks {
  import opened Wrappers
  import opened Bytes
  import opened Messages
  import Interpreter

  /**
   * What is remembered about one chunk stream (`Stream`): the fields of the
   * last headers, each absent until a header has set it, the bytes still
   * expected of the current message and the bytes received of it so far.
   */
  datatype StreamState = StreamState(
    timestamp: Option<nat>, msgType: Option<byte>, streamId: Option<nat>,
    timedelta: Option<nat>, size: Option<nat>, bytesLeft: nat, received: seq<byte>)

  const NewStream := StreamState(None, None, None, None, None, 0, [])

  /** The 24-bit timestamp value that announces an extended timestamp. */
  const ExtendedMarker: nat := 0xFF_FFFF

  datatype BasicHeader = BasicHeader(fmt: nat, csid: nat)

  /**
   * Reads the basic header at `pos`: a low six bits of 0 means the chunk
   * stream id is 64 plus the next byte, 1 means 64 plus the next two bytes
   * little-endian. Fails if those bytes are missing.
   */
  function ReadBasicHeader(data: seq<byte>, pos: nat): (r: Option<Read<BasicHeader>>)
    requires pos < |data|
    ensures r.Some? ==> pos < r.value.next <= |data| && r.value.value.fmt < 4
  {
    var fmt, low := data[pos] as nat / 64, data[pos] as nat % 64;
    if low == 0 then
      if pos + 2 > |data| then None else Some(Read(BasicHeader(fmt, data[pos + 1] as nat + 64), pos + 2))
    else if low == 1 then
      if pos + 3 > |data| then None else Some(Read(BasicHeader(fmt, LeUint(data[pos + 1..pos + 3]) + 64), pos + 3))
    else Some(Read(BasicHeader(fmt, low), pos + 1))
  }

  /**
   * The message header of each format: format 0 carries a timestamp, the
   * message size, type and (little-endian) message stream id; format 1 the
   * timestamp delta, size and type; format 2 the timestamp delta only;
   * format 3 nothing.
   */
  datatype MessageHeader =
    | Full(timedelta: nat, size: nat, msgType: byte, streamId: nat)
    | SameStream(timedelta: nat, size: nat, msgType: byte)
    | TimeOnly(timedelta: nat)
    | NoHeader

  function Format(h: MessageHeader): nat {
    match h
    case Full(_, _, _, _) => 0
    case SameStream(_, _, _) => 1
    case TimeOnly(_) => 2
    case NoHeader => 3
  }

  /** Reads the message header of format `fmt` at `pos`; fails if it is cut short. */
  function ReadMessageHeader(data: seq<byte>, pos: nat, fmt: nat): (r: Option<Read<MessageHeader>>)
    requires fmt < 4
    ensures r.Some? ==> r.value.next >= pos && Format(r.value.value) == fmt
    ensures r.Some? && fmt != 3 ==> r.value.next <= |data|
  {
    if fmt == 3 then Some(Read(NoHeader, pos))
    else if pos + 3 > |data| then None
    else
      var timedelta := BeUint(data[pos..pos + 3]);
      if fmt == 2 then Some(Read(TimeOnly(timedelta), pos + 3))
      else if pos + 7 > |data| then None
      else
        var size, msgType := BeUint(data[pos + 3..pos + 6]), data[pos + 6];
        if fmt == 1 then Some(Read(SameStream(timedelta, size, msgType), pos + 7))
        else if pos + 11 > |data| then None
        else Some(Read(Full(timedelta, size, msgType, LeUint(data[pos + 7..pos + 11])), pos + 11))
  }

  /**
   * A chunk stream's state after a message header: the fields the header
   * carries replace the remembered ones (format 0 also resets the timestamp
   * to 0, to which its timestamp field is then added), the others are
   * inherited, and any header but format 3 abandons a message still being
   * received.
   */
  function ApplyHeader(s: StreamState, h: MessageHeader): StreamState {
    match h
    case NoHeader => s
    case TimeOnly(td) => s.(timedelta := Some(td), bytesLeft := 0)
    case SameStream(td, size, t) => s.(timedelta := Some(td), bytesLeft := 0, size := Some(size), msgType := Some(t))
    case Full(td, size, t, id) =>
      s.(timedelta := Some(td), bytesLeft := 0, size := Some(size), msgType := Some(t), streamId := Some(id),
         timestamp := Some(0))
  }

  /** A header that set the size also set the type and the timestamp field. */
  predicate Consistent(s: StreamState) {
    s.size.Some? ==> s.timedelta.Some? && s.msgType.Some?
  }

  /** A stream in the middle of a message has received all of its size but `bytesLeft`. */
  predicate Receiving(s: StreamState) {
    Consistent(s)
    && (s.bytesLeft > 0 ==> s.size.Some? && s.timestamp.Some? && s.streamId.Some?
                            && |s.received| + s.bytesLeft == s.size.value)
  }

  /** What holds of every remembered chunk stream between two chunks. */
  predicate Assembling(s: StreamState) {
    Receiving(s) && (s.bytesLeft == 0 ==> s.received == [])
  }

  /**
   * Prepares the chunk's stream for its payload: fails without a known size,
   * assumes timestamp 0 and message stream 1 when none was given, and on the
   * first chunk of a message clears the received bytes, expects the whole
   * size and adds the timestamp field to the timestamp.
   */
  function Begin(s: StreamState): (r: Option<StreamState>)
    requires Receiving(s)
    ensures r.None? <==> s.size.None?
    ensures r.Some? ==> Receiving(r.value) && r.value.timestamp.Some? && r.value.size.Some?
    ensures r.Some? ==> r.value.size == s.size && r.value.msgType == s.msgType && r.value.timedelta == s.timedelta
    ensures r.Some? ==> r.value.streamId == Some(s.streamId.GetOr(1))
    ensures r.Some? ==> |r.value.received| + r.value.bytesLeft == r.value.size.value
    ensures r.Some? && s.bytesLeft > 0 ==> r.value.received == s.received && r.value.bytesLeft == s.bytesLeft
  {
    if s.size.None? then None
    else
      var s1 := s.(timestamp := Some(s.timestamp.GetOr(0)), streamId := Some(s.streamId.GetOr(1)));
      if s1.bytesLeft == 0 then
        Some(s1.(received := [], bytesLeft := s.size.value, timestamp := Some(s1.timestamp.value + s.timedelta.value)))
      else Some(s1)
  }

  /**
   * When the timestamp field holds 0xFFFFFF, after every chunk's message
   * header, format 3 included, comes a 4-byte big-endian timestamp that
   * replaces the message's timestamp. Fails if it is cut short.
   */
  function ReadExtended(data: seq<byte>, pos: nat, s: StreamState): (r: Option<Read<StreamState>>)
    ensures r.Some? ==> r.value.next >= pos && (pos <= |data| ==> r.value.next <= |data|)
  {
    if s.timedelta != Some(ExtendedMarker) then Some(Read(s, pos))
    else if pos + 4 > |data| then None
    else Some(Read(s.(timestamp := Some(BeUint(data[pos..pos + 4]))), pos + 4))
  }

  /**
   * Takes the chunk's payload: as many bytes as the chunk size and the rest
   * of the message allow, fewer if the input ends first.
   */
  function ReceiveChunk(data: seq<byte>, pos: nat, s: StreamState, chunkSize: nat): (r: Read<StreamState>)
    requires pos <= |data|
    ensures pos <= r.next <= |data|
    ensures r.next - pos == Min(Min(chunkSize, s.bytesLeft), |data| - pos)
    ensures r.value.bytesLeft == s.bytesLeft - (r.next - pos)
    ensures r.value.received == s.received + data[pos..r.next]
    ensures r.value == s.(received := r.value.received, bytesLeft := r.value.bytesLeft)
  {
    var n := Min(Min(chunkSize, s.bytesLeft), |data| - pos);
    Read(s.(received := s.received + data[pos..pos + n], bytesLeft := s.bytesLeft - n), pos + n)
  }

  /** The demultiplexer between two chunks: the input position, the chunk size and the chunk streams. */
  datatype Demux = Demux(pos: nat, chunkSize: nat, streams: map<nat, StreamState>)

  predicate WellFormed(st: Demux) {
    forall c | c in st.streams :: Assembling(st.streams[c])
  }

  function StreamOf(st: Demux, csid: nat): StreamState {
    if csid in st.streams then st.streams[csid] else NewStream
  }

  /** Why reading stops early: input cut short, a chunk of unknown size, or a payload that cannot be unpacked. */
  datatype Fault = Truncated | UnknownSize | BadPayload

  datatype Outcome = Finished | Failed(fault: Fault)

  /**
   * One chunk read: either reading goes on from a new state, with the
   * messages and reports the chunk completed, or it stops, with those of a
   * message that failed part way.
   */
  datatype Step =
    | Next(state: Demux, messages: seq<Message>, notes: seq<Interpreter.Note>)
    | Stop(messages: seq<Message>, notes: seq<Interpreter.Note>, outcome: Outcome)

  const Truncation := Stop([], [], Failed(Truncated))

  /**
   * The chunk at `st.pos` once its basic and message headers are read: the
   * stream is prepared, its extended timestamp and payload are read, and a
   * message it completes is interpreted.
   */
  function Receive(data: seq<byte>, st: Demux, csid: nat, h: Read<MessageHeader>): (r: Step)
    requires st.pos < h.next <= |data| && WellFormed(st)
    ensures r.Next? ==> st.pos < r.state.pos <= |data| && WellFormed(r.state)
  {
    match Begin(ApplyHeader(StreamOf(st, csid), h.value))
    case None => Stop([], [], Failed(UnknownSize))
    case Some(s) =>
      match ReadExtended(data, h.next, s)
      case None => Truncation
      case Some(e) =>
        var c := ReceiveChunk(data, e.next, e.value, st.chunkSize);
        Complete(st, csid, c.value, c.next)
  }

  /** The stages of `Receive` when each of them succeeds. */
  lemma ReceiveSteps(data: seq<byte>, st: Demux, csid: nat, h: Read<MessageHeader>, begun: StreamState,
                     extended: StreamState, at: nat, s: StreamState, next: nat)
    requires st.pos < h.next <= |data| && WellFormed(st) && at <= |data|
    requires Begin(ApplyHeader(StreamOf(st, csid), h.value)) == Some(begun)
    requires ReadExtended(data, h.next, begun) == Some(Read(extended, at))
    requires ReceiveChunk(data, at, extended, st.chunkSize) == Read(s, next)
    ensures Receiving(s) && s.timestamp.Some? && s.streamId.Some? && s.size.Some?
    ensures |s.received| + s.bytesLeft == s.size.value
    ensures Receive(data, st, csid, h) == Complete(st, csid, s, next)
  {
  }

  /**
   * After the chunk's payload: a message still incomplete is kept for the
   * next chunk of its stream, a complete one is interpreted and its bytes
   * released.
   */
  function Complete(st: Demux, csid: nat, s: StreamState, next: nat): (r: Step)
    requires WellFormed(st) && Receiving(s) && s.timestamp.Some? && s.streamId.Some? && s.size.Some?
    requires s.bytesLeft == 0 ==> |s.received| == s.size.value
    ensures r.Next? ==> r.state.pos == next && WellFormed(r.state)
  {
    if s.bytesLeft > 0 then Next(Demux(next, st.chunkSize, st.streams[csid := s]), [], [])
    else
      var d := Interpreter.Interpret(s.msgType.value, s.timestamp.value, s.streamId.value, s.received, st.chunkSize);
      if d.failed then Stop(d.messages, d.notes, Failed(BadPayload))
      else Next(Demux(next, d.chunkSize, st.streams[csid := s.(received := [])]), d.messages, d.notes)
  }

  /** Reads the chunk at `st.pos`; at the end of the input reading finishes. */
  function StepAt(data: seq<byte>, st: Demux): (r: Step)
    requires st.pos <= |data| && WellFormed(st)
    ensures r.Next? ==> st.pos < r.state.pos <= |data| && WellFormed(r.state)
  {
    if st.pos == |data| then Stop([], [], Finished)
    else
      match ReadBasicHeader(data, st.pos)
      case None => Truncation
      case Some(b) =>
        match ReadMessageHeader(data, b.next, b.value.fmt)
        case None => Truncation
        case Some(h) =>
          if h.next > |data| then Truncation
          else Receive(data, st, b.value.csid, h)
  }

  /** All that the demultiplexer yields and reports from `st` on, and how it stops. */
  datatype Demuxed = Demuxed(messages: seq<Message>, notes: seq<Interpreter.Note>, outcome: Outcome)

  function Run(data: seq<byte>, st: Demux): Demuxed
    requires st.pos <= |data| && WellFormed(st)
    decreases |data| - st.pos
  {
    match StepAt(data, st)
    case Stop(ms, ns, o) => Demuxed(ms, ns, o)
    case Next(next, ms, ns) =>
      var rest := Run(data, next);
      Demuxed(ms + rest.messages, ns + rest.notes, rest.outcome)
  }

  /** The demultiplexer over `data` from `start`, with no chunk streams yet and the given chunk size. */
  function Demultiplex(data: seq<byte>, start: nat, chunkSize: nat): Demuxed
    requires start <= |data|
  {
    Run(data, Demux(start, chunkSize, map[]))
  }

  /** What was yielded before and what is still to come. */
  function Then(messages: seq<Message>, notes: seq<Interpreter.Note>, rest: Demuxed): Demuxed {
    Demuxed(messages + rest.messages, notes + rest.notes, rest.outcome)
  }

  /** The preparation of a chunk's stream, field by field. */
  method Prepare(s: StreamState) returns (r: Option<StreamState>)
    requires Receiving(s)
    ensures r == Begin(s)
  {
    if s.size.None? {
      return None;
    }
    var t := s.(timestamp := Some(s.timestamp.GetOr(0)), streamId := Some(s.streamId.GetOr(1)));
    if t.bytesLeft == 0 {
      t := t.(received := [], bytesLeft := t.size.value, timestamp := Some(t.timestamp.value + t.timedelta.value));
    }
    return Some(t);
  }

  /** The generator's state: the input, the cursor into it, the chunk size and the chunk streams. */
  class Demuxer {
    const data: seq<byte>
    var pos: nat
    var chunkSize: nat
    var streams: map<nat, StreamState>

    function State(): Demux
      reads this
    {
      Demux(pos, chunkSize, streams)
    }

    predicate Valid()
      reads this
    {
      pos <= |data| && WellFormed(State())
    }

    constructor(data: seq<byte>, start: nat, chunkSize: nat)
      requires start <= |data|
      ensures this.data == data && State() == Demux(start, chunkSize, map[]) && Valid()
    {
      this.data := data;
      pos := start;
      this.chunkSize := chunkSize;
      streams := map[];
    }

    /** One pass of the reading loop: one chunk. */
    method Step() returns (r: Step)
      requires Valid()
      modifies this
      ensures r == StepAt(data, old(State()))
      ensures r.Next? ==> State() == r.state && Valid()
    {
      if pos == |data| {
        return Stop([], [], Finished);
      }
      var b := ReadBasicHeader(data, pos);
      if b.None? {
        return Truncation;
      }
      var h := ReadMessageHeader(data, b.value.next, b.value.value.fmt);
      if h.None? || h.value.next > |data| {
        return Truncation;
      }
      r := TakeChunk(b.value.value.csid, h.value);
    }

    /** The chunk on stream `csid` after its message header `h`: the stream's state is updated in place. */
    method TakeChunk(csid: nat, h: Read<MessageHeader>) returns (r: Step)
      requires Valid() && pos < h.next <= |data|
      modifies this
      ensures r == Receive(data, old(State()), csid, h)
      ensures r.Next? ==> State() == r.state && Valid()
    {
      ghost var st := State();
      var s := if csid in streams then streams[csid] else NewStream;
      assert s == StreamOf(st, csid);
      s := ApplyHeader(s, h.value);
      var prepared := Prepare(s);
      if prepared.None? {
        return Stop([], [], Failed(UnknownSize));
      }
      s := prepared.value;
      var extended := ExtendedTimestamp(s, h.next);
      if extended.None? {
        return Truncation;
      }
      var chunk := TakePayload(extended.value.value, extended.value.next);
      ReceiveSteps(data, st, csid, h, s, extended.value.value, extended.value.next, chunk.value, chunk.next);
      r := Finish(csid, chunk.value, chunk.next);
    }

    /** Reads the extended timestamp of the chunk at `at`, if its stream's timestamp field announces one. */
    method ExtendedTimestamp(s: StreamState, at: nat) returns (r: Option<Read<StreamState>>)
      ensures r == ReadExtended(data, at, s)
    {
      if s.timedelta != Some(ExtendedMarker) {
        return Some(Read(s, at));
      }
      if at + 4 > |data| {
        return None;
      }
      var timestamp := BeUint(data[at..at + 4]);
      return Some(Read(s.(timestamp := Some(timestamp)), at + 4));
    }

    /** Appends the chunk's payload at `at` to the message being received. */
    method TakePayload(s: StreamState, at: nat) returns (r: Read<StreamState>)
      requires at <= |data|
      ensures r == ReceiveChunk(data, at, s, chunkSize)
    {
      var n := Min(Min(chunkSize, s.bytesLeft), |data| - at);
      var payload := data[at..at + n];
      return Read(s.(received := s.received + payload, bytesLeft := s.bytesLeft - n), at + n);
    }

    /** Keeps an incomplete message for the next chunk, or interprets a complete one. */
    method Finish(csid: nat, s: StreamState, next: nat) returns (r: Step)
      requires Valid() && Receiving(s) && s.timestamp.Some? && s.streamId.Some? && s.size.Some?
      requires s.bytesLeft == 0 ==> |s.received| == s.size.value
      requires pos < next <= |data|
      modifies this
      ensures r == Complete(old(State()), csid, s, next)
      ensures r.Next? ==> State() == r.state && Valid()
    {
      if s.bytesLeft > 0 {
        streams := streams[csid := s];
        pos := next;
        return Next(State(), [], []);
      }
      var d := Interpreter.Dispatch(s.msgType.value, s.timestamp.value, s.streamId.value, s.received, chunkSize);
      streams := streams[csid := s.(received := [])];
      if d.failed {
        return Stop(d.messages, d.notes, Failed(BadPayload));
      }
      chunkSize := d.chunkSize;
      pos := next;
      return Next(State(), d.messages, d.notes);
    }
  }

  /** Reads every message of `data` from `start` on: the reading loop driven to its end. */
  method ReadMessages(data: seq<byte>, start: nat, chunkSize: nat) returns (out: Demuxed)
    requires start <= |data|
    ensures out == Demultiplex(data, start, chunkSize)
  {
    var demuxer := new Demuxer(data, start, chunkSize);
    var messages: seq<Message> := [];
    var notes: seq<Interpreter.Note> := [];
    while demuxer.pos < |data|
      invariant demuxer.Valid() && demuxer.data == data
      invariant Demultiplex(data, start, chunkSize) == Then(messages, notes, Run(data, demuxer.State()))
      decreases |data| - demuxer.pos
    {
      ghost var before := demuxer.State();
      var r := demuxer.Step();
      RunSteps(data, before);
      if r.Stop? {
        return Then(messages, notes, Demuxed(r.messages, r.notes, r.outcome));
      }
      ThenThen(messages, notes, r.messages, r.notes, Run(data, r.state));
      messages, notes := messages + r.messages, notes + r.notes;
    }
    RunSteps(data, demuxer.State());
    return Then(messages, notes, Demuxed([], [], Finished));
  }

  /** The run from `st` is the step there followed, when it goes on, by the run from where it leads. */
  lemma RunSteps(data: seq<byte>, st: Demux)
    requires st.pos <= |data| && WellFormed(st)
    ensures var r := StepAt(data, st);
            Run(data, st) == if r.Stop? then Demuxed(r.messages, r.notes, r.outcome)
                             else Then(r.messages, r.notes, Run(data, r.state))
  {
  }

  lemma ThenThen(a: seq<Message>, b: seq<Interpreter.Note>, c: seq<Message>, d: seq<Interpreter.Note>, rest: Demuxed)
    ensures Then(a, b, Then(c, d, rest)) == Then(a + c, b + d, rest)
  {
  }
}
