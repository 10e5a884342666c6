/**
 * What happens to a message once the demultiplexer has reassembled it: a
 * set-chunk-size message (type 1) changes the chunk size for later reads, a
 * user-control message (type 4) must hold exactly a 2-byte event type and a
 * 4-byte value, audio and video (8, 9) with a payload are passed on, AMF0
 * data and commands (18, 20) are decoded for reporting only, and an aggregate
 * message (22) is split into its sub-frames.
 */
module Interpreter {
  import opened Wrappers
  import opened Bytes
  import opened Messages
  import Amf0

  /** Conditions the converter reports while interpreting a message, in place of log lines. */
  datatype Note =
    | AmfData(streamId: nat, values: seq<Amf0.Value>)
    | AmfCommand(streamId: nat, values: seq<Amf0.Value>)
    | BadFooter(expected: nat, found: nat)
    | NonMediaSubFrame(msgType: byte)

  /**
   * One sub-frame of an aggregate message: type, declared size, 32-bit
   * timestamp (24 low bits then the high byte), 24-bit stream id, payload and
   * the trailing size.
   */
  datatype SubFrame = SubFrame(msgType: byte, size: nat, timestamp: nat, streamId: nat, data: seq<byte>, footer: nat)

  /**
   * Reads the sub-frame at `pos`. The 11 header bytes, the payload and the 4
   * trailing bytes must all be present: a payload cut short by the end of the
   * message leaves no room for the trailing size, and reading fails.
   */
  function ReadSubFrame(data: seq<byte>, pos: nat): (r: Option<Read<SubFrame>>)
    ensures r.Some? ==> pos + 15 <= r.value.next <= |data|
  {
    if pos + 11 > |data| then None
    else
      var size := BeUint(data[pos + 1..pos + 4]);
      var end := Min(pos + 11 + size, |data|);
      if end + 4 > |data| then None
      else
        var timestamp := BeUint(data[pos + 4..pos + 7]) + data[pos + 7] as int * 0x100_0000;
        Some(Read(SubFrame(data[pos], size, timestamp, BeUint(data[pos + 8..pos + 11]), data[pos + 11..end],
                           BeUint(data[end..end + 4])), end + 4))
  }

  /** The messages, reports and outcome of splitting an aggregate payload. */
  datatype Expansion = Expansion(messages: seq<Message>, notes: seq<Note>, failed: bool)

  /**
   * What one sub-frame contributes: a footer that differs from the declared
   * size is reported, and an audio or video sub-frame becomes a message whose
   * timestamp is rebased from the first sub-frame's timestamp `origin` onto
   * the aggregate's own timestamp `outer`.
   */
  function SubFrameOutput(f: SubFrame, origin: nat, outer: nat): Expansion {
    var footer := if f.footer != f.size then [BadFooter(f.size, f.footer)] else [];
    if IsMedia(f.msgType) then
      Expansion([Message(f.timestamp - origin + outer, f.msgType, f.streamId, f.data)], footer, false)
    else Expansion([], footer + [NonMediaSubFrame(f.msgType)], false)
  }

  /**
   * The sub-frames from `pos` to the end of the payload. `first` is the
   * timestamp of the first sub-frame once one has been read. A sub-frame
   * whose header or footer is cut short ends the expansion with a failure,
   * after the messages of the sub-frames before it.
   */
  function ExpandFrom(data: seq<byte>, pos: nat, first: Option<nat>, outer: nat): Expansion
    decreases |data| - pos
  {
    if pos >= |data| then Expansion([], [], false)
    else
      match ReadSubFrame(data, pos)
      case None => Expansion([], [], true)
      case Some(r) =>
        var origin := if first.Some? then first.value else r.value.timestamp;
        var here := SubFrameOutput(r.value, origin, outer);
        var rest := ExpandFrom(data, r.next, Some(origin), outer);
        Expansion(here.messages + rest.messages, here.notes + rest.notes, rest.failed)
  }

  function Expand(data: seq<byte>, outer: nat): Expansion {
    ExpandFrom(data, 0, None, outer)
  }

  /** The output so far followed by the expansion of what is left. */
  function Joined(messages: seq<Message>, notes: seq<Note>, rest: Expansion): Expansion {
    Expansion(messages + rest.messages, notes + rest.notes, rest.failed)
  }

  /** One sub-frame of the expansion: its own output is followed by the expansion after it. */
  lemma ExpandFromStep(data: seq<byte>, pos: nat, first: Option<nat>, outer: nat, f: SubFrame, next: nat)
    requires pos < |data| && ReadSubFrame(data, pos) == Some(Read(f, next))
    ensures var origin := if first.Some? then first.value else f.timestamp;
            var here := SubFrameOutput(f, origin, outer);
            ExpandFrom(data, pos, first, outer) == Joined(here.messages, here.notes, ExpandFrom(data, next, Some(origin), outer))
  {
  }

  /** The loop's view of one sub-frame: its output moves from the expansion still to come to the output so far. */
  lemma LoopStep(data: seq<byte>, pos: nat, first: Option<nat>, outer: nat, messages: seq<Message>, notes: seq<Note>,
                 f: SubFrame, next: nat)
    requires pos < |data| && ReadSubFrame(data, pos) == Some(Read(f, next))
    ensures var origin := if first.Some? then first.value else f.timestamp;
            var here := SubFrameOutput(f, origin, outer);
            Joined(messages, notes, ExpandFrom(data, pos, first, outer))
            == Joined(messages + here.messages, notes + here.notes, ExpandFrom(data, next, Some(origin), outer))
  {
    var origin := if first.Some? then first.value else f.timestamp;
    var here := SubFrameOutput(f, origin, outer);
    ExpandFromStep(data, pos, first, outer, f, next);
    JoinedJoined(messages, notes, here.messages, here.notes, ExpandFrom(data, next, Some(origin), outer));
  }

  lemma JoinedJoined(messages: seq<Message>, notes: seq<Note>, more: seq<Message>, moreNotes: seq<Note>, rest: Expansion)
    ensures Joined(messages, notes, Joined(more, moreNotes, rest)) == Joined(messages + more, notes + moreNotes, rest)
  {
  }

  /**
   * The body of the aggregate loop for one sub-frame `f`: report a footer
   * that differs from the size, fix the first timestamp, then pass on an
   * audio or video sub-frame or report any other type.
   */
  method EmitSubFrame(f: SubFrame, first: Option<nat>, outer: nat, messages: seq<Message>, notes: seq<Note>)
    returns (first': Option<nat>, messages': seq<Message>, notes': seq<Note>)
    ensures var origin := if first.Some? then first.value else f.timestamp;
            var here := SubFrameOutput(f, origin, outer);
            first' == Some(origin) && messages' == messages + here.messages && notes' == notes + here.notes
  {
    first', messages', notes' := first, messages, notes;
    if f.footer != f.size {
      notes' := notes' + [BadFooter(f.size, f.footer)];
    }
    if first'.None? {
      first' := Some(f.timestamp);
    }
    if IsMedia(f.msgType) {
      messages' := messages' + [Message(f.timestamp - first'.value + outer, f.msgType, f.streamId, f.data)];
    } else {
      notes' := notes' + [NonMediaSubFrame(f.msgType)];
    }
  }

  /** The aggregate loop over its own cursor into the payload. */
  method ExpandAggregate(data: seq<byte>, outer: nat) returns (e: Expansion)
    ensures e == Expand(data, outer)
  {
    var pos := 0;
    var first: Option<nat> := None;
    var messages: seq<Message> := [];
    var notes: seq<Note> := [];
    while pos < |data|
      invariant Expand(data, outer) == Joined(messages, notes, ExpandFrom(data, pos, first, outer))
      decreases |data| - pos
    {
      var r := ReadSubFrame(data, pos);
      if r.None? {
        return Expansion(messages, notes, true);
      }
      ghost var first0, messages0, notes0 := first, messages, notes;
      first, messages, notes := EmitSubFrame(r.value.value, first, outer, messages, notes);
      LoopStep(data, pos, first0, outer, messages0, notes0, r.value.value, r.value.next);
      pos := r.value.next;
    }
    e := Expansion(messages, notes, false);
  }

  /** The effect of one complete message on the demultiplexer and its output. */
  datatype Dispatched = Dispatched(chunkSize: nat, messages: seq<Message>, notes: seq<Note>, failed: bool)

  /**
   * Interprets a complete message of type `msgType` received with
   * `timestamp` on message stream `streamId`, while the chunk size is
   * `chunkSize`. Unpacking a set-chunk-size payload other than 4 bytes or a
   * user-control payload other than 6 bytes fails, as does a malformed
   * aggregate; window acknowledgement size (5), set peer bandwidth (6) and
   * unknown types have no effect.
   */
  function Interpret(msgType: byte, timestamp: nat, streamId: nat, payload: seq<byte>, chunkSize: nat): Dispatched {
    if msgType == 1 then
      if |payload| == 4 then Dispatched(BeUint(payload), [], [], false) else Dispatched(chunkSize, [], [], true)
    else if msgType == 4 then Dispatched(chunkSize, [], [], |payload| != 6)
    else if IsMedia(msgType) then
      Dispatched(chunkSize, if |payload| > 0 then [Message(timestamp, msgType, streamId, payload)] else [], [], false)
    else if msgType == 18 then Dispatched(chunkSize, [], [AmfData(streamId, Amf0.DecodeAll(payload))], false)
    else if msgType == 20 then Dispatched(chunkSize, [], [AmfCommand(streamId, Amf0.DecodeAll(payload))], false)
    else if msgType == 22 then
      var e := Expand(payload, timestamp);
      Dispatched(chunkSize, e.messages, e.notes, e.failed)
    else Dispatched(chunkSize, [], [], false)
  }

  /** The dispatch on the type of a completed message. */
  method Dispatch(msgType: byte, timestamp: nat, streamId: nat, payload: seq<byte>, chunkSize: nat) returns (d: Dispatched)
    ensures d == Interpret(msgType, timestamp, streamId, payload, chunkSize)
  {
    d := Dispatched(chunkSize, [], [], false);
    if msgType == 1 {
      if |payload| != 4 {
        d := d.(failed := true);
      } else {
        d := d.(chunkSize := BeUint(payload));
      }
    } else if msgType == 4 {
      if |payload| != 6 {
        d := d.(failed := true);
      }
    } else if msgType == 5 || msgType == 6 {
    } else if msgType == 8 || msgType == 9 {
      if |payload| > 0 {
        d := d.(messages := [Message(timestamp, msgType, streamId, payload)]);
      }
    } else if msgType == 18 {
      var values := Amf0.Parse(payload);
      d := d.(notes := [AmfData(streamId, values)]);
    } else if msgType == 20 {
      var values := Amf0.Parse(payload);
      d := d.(notes := [AmfCommand(streamId, values)]);
    } else if msgType == 22 {
      var e := ExpandAggregate(payload, timestamp);
      d := Dispatched(chunkSize, e.messages, e.notes, e.failed);
    }
  }

  /** Every message an aggregate expands to is audio or video. */
  lemma {:induction false} ExpandFromMedia(data: seq<byte>, pos: nat, first: Option<nat>, outer: nat)
    ensures forall m | m in ExpandFrom(data, pos, first, outer).messages :: IsMedia(m.msgType)
    decreases |data| - pos
  {
    if pos < |data| && ReadSubFrame(data, pos).Some? {
      var r := ReadSubFrame(data, pos).value;
      var origin := if first.Some? then first.value else r.value.timestamp;
      ExpandFromMedia(data, r.next, Some(origin), outer);
    }
  }

  /**
   * Only audio and video leave the interpreter: a plain audio or video
   * message with a payload passes through unchanged, an empty one is
   * dropped, and only an aggregate can produce anything else from a
   * different type.
   */
  lemma InterpretEmitsMedia(msgType: byte, timestamp: nat, streamId: nat, payload: seq<byte>, chunkSize: nat)
    ensures var d := Interpret(msgType, timestamp, streamId, payload, chunkSize);
            (forall m | m in d.messages :: IsMedia(m.msgType))
            && (d.messages != [] ==> IsMedia(msgType) || msgType == 22)
            && (IsMedia(msgType) ==> d.messages == if payload == [] then [] else [Message(timestamp, msgType, streamId, payload)])
  {
    ExpandFromMedia(payload, 0, None, timestamp);
  }

  /**
   * The chunk size changes only through a set-chunk-size message with a
   * 4-byte payload, and then becomes the big-endian value of that payload.
   */
  lemma InterpretChunkSize(msgType: byte, timestamp: nat, streamId: nat, payload: seq<byte>, chunkSize: nat)
    ensures var d := Interpret(msgType, timestamp, streamId, payload, chunkSize);
            (msgType == 1 && |payload| == 4 ==> d.chunkSize == BeUint(payload) && !d.failed)
            && (msgType != 1 ==> d.chunkSize == chunkSize)
  {
  }

  /**
   * Interpreting fails exactly when a set-chunk-size payload is not 4 bytes,
   * a user-control payload is not 6 bytes, or an aggregate is malformed.
   */
  lemma InterpretFails(msgType: byte, timestamp: nat, streamId: nat, payload: seq<byte>, chunkSize: nat)
    ensures Interpret(msgType, timestamp, streamId, payload, chunkSize).failed <==>
              (msgType == 1 && |payload| != 4) || (msgType == 4 && |payload| != 6)
              || (msgType == 22 && Expand(payload, timestamp).failed)
  {
  }

  /** A sub-frame whose fields fit their widths. */
  predicate Writable(f: SubFrame) {
    f.size == |f.data| && f.size < 0x100_0000 && f.timestamp < 0x1_0000_0000
    && f.streamId < 0x100_0000 && f.footer < 0x1_0000_0000
  }

  /** The 11 header bytes of a sub-frame. */
  function SubFrameHeader(f: SubFrame): seq<byte>
    requires Writable(f)
  {
    [f.msgType] + BeBytes(f.size, 3) + BeBytes(f.timestamp % 0x100_0000, 3)
    + [(f.timestamp / 0x100_0000) as byte] + BeBytes(f.streamId, 3)
  }

  /** The bytes of a sub-frame as an aggregate message carries it. */
  function WriteSubFrame(f: SubFrame): seq<byte>
    requires Writable(f)
  {
    SubFrameHeader(f) + (f.data + BeBytes(f.footer, 4))
  }

  predicate AllWritable(fs: seq<SubFrame>) {
    forall i :: 0 <= i < |fs| ==> Writable(fs[i])
  }

  function WriteSubFrames(fs: seq<SubFrame>): seq<byte>
    requires AllWritable(fs)
  {
    if fs == [] then [] else WriteSubFrame(fs[0]) + WriteSubFrames(fs[1..])
  }

  /** The header of a written sub-frame reads back as its fields. */
  lemma ReadHeaderFields(f: SubFrame, data: seq<byte>, pos: nat)
    requires Writable(f) && At(data, pos, SubFrameHeader(f))
    ensures data[pos] == f.msgType
    ensures BeUint(data[pos + 1..pos + 4]) == f.size
    ensures BeUint(data[pos + 4..pos + 7]) + data[pos + 7] as int * 0x100_0000 == f.timestamp
    ensures BeUint(data[pos + 8..pos + 11]) == f.streamId
  {
    var t := f.timestamp;
    var size, low, id := BeBytes(f.size, 3), BeBytes(t % 0x100_0000, 3), BeBytes(f.streamId, 3);
    var high: seq<byte> := [(t / 0x100_0000) as byte];
    var a := [f.msgType] + size;
    var b := a + low;
    var c := b + high;
    assert SubFrameHeader(f) == c + id;
    assert At(data, pos, c) && At(data, pos + 8, id) by { AtSplit(data, pos, c, id); }
    assert At(data, pos, b) && data[pos + 7] == high[0] by { AtSplit(data, pos, b, high); }
    assert At(data, pos, a) && At(data, pos + 4, low) by { AtSplit(data, pos, a, low); }
    assert data[pos] == f.msgType && At(data, pos + 1, size) by { AtSplit(data, pos, [f.msgType], size); }
    FieldAt(data, pos + 1, f.size, 3);
    FieldAt(data, pos + 4, t % 0x100_0000, 3);
    FieldAt(data, pos + 8, f.streamId, 3);
    assert data[pos + 7] as int * 0x100_0000 == t / 0x100_0000 * 0x100_0000;
  }

  /** A written sub-frame reads back as itself. */
  lemma ReadWrittenSubFrame(f: SubFrame, data: seq<byte>, pos: nat)
    requires Writable(f) && At(data, pos, WriteSubFrame(f))
    ensures ReadSubFrame(data, pos) == Some(Read(f, After(pos, WriteSubFrame(f))))
  {
    var header, body := SubFrameHeader(f), f.data + BeBytes(f.footer, 4);
    var end := pos + 11 + f.size;
    assert At(data, pos, header) && At(data, pos + 11, body) && After(pos, WriteSubFrame(f)) == end + 4 by {
      AtSplit(data, pos, header, body);
    }
    assert end + 4 <= |data| && data[pos + 11..end] == f.data && BeUint(data[end..end + 4]) == f.footer by {
      AtSplit(data, pos + 11, f.data, BeBytes(f.footer, 4));
      FieldAt(data, end, f.footer, 4);
    }
    ReadHeaderFields(f, data, pos);
  }

  /** The messages the media sub-frames of `fs` become, their timestamps rebased from `origin` onto `outer`. */
  function Rebased(fs: seq<SubFrame>, origin: nat, outer: nat): seq<Message> {
    if fs == [] then []
    else
      var f := fs[0];
      (if IsMedia(f.msgType) then [Message(f.timestamp - origin + outer, f.msgType, f.streamId, f.data)] else [])
      + Rebased(fs[1..], origin, outer)
  }

  lemma RebasedStep(fs: seq<SubFrame>, origin: nat, outer: nat)
    requires fs != []
    ensures Rebased(fs, origin, outer) == SubFrameOutput(fs[0], origin, outer).messages + Rebased(fs[1..], origin, outer)
  {
  }

  lemma TailWritable(fs: seq<SubFrame>)
    requires AllWritable(fs) && fs != []
    ensures AllWritable(fs[1..])
  {
    forall i | 0 <= i < |fs[1..]| ensures Writable(fs[1..][i]) {
      assert fs[1..][i] == fs[i + 1];
    }
  }

  /** The first of several written sub-frames is read back, and the others follow it. */
  lemma WrittenStep(fs: seq<SubFrame>, data: seq<byte>, pos: nat)
    requires AllWritable(fs) && fs != [] && At(data, pos, WriteSubFrames(fs))
    ensures var next := After(pos, WriteSubFrame(fs[0]));
            ReadSubFrame(data, pos) == Some(Read(fs[0], next)) && AllWritable(fs[1..])
            && At(data, next, WriteSubFrames(fs[1..])) && After(next, WriteSubFrames(fs[1..])) == After(pos, WriteSubFrames(fs))
  {
    var w, ws := WriteSubFrame(fs[0]), WriteSubFrames(fs[1..]);
    assert At(data, pos, w) && At(data, After(pos, w), ws) && After(After(pos, w), ws) == After(pos, WriteSubFrames(fs)) by {
      assert WriteSubFrames(fs) == w + ws;
      AtSplit(data, pos, w, ws);
      AfterConcat(pos, w, ws);
    }
    TailWritable(fs);
    assert ReadSubFrame(data, pos) == Some(Read(fs[0], After(pos, w))) by {
      ReadWrittenSubFrame(fs[0], data, pos);
    }
  }

  /** Written sub-frames that run to the end of the payload expand to their media messages, without failure. */
  lemma {:induction false} ExpandWritten(fs: seq<SubFrame>, data: seq<byte>, pos: nat, origin: nat, outer: nat)
    requires AllWritable(fs) && At(data, pos, WriteSubFrames(fs)) && After(pos, WriteSubFrames(fs)) == |data|
    ensures ExpandFrom(data, pos, Some(origin), outer).messages == Rebased(fs, origin, outer)
    ensures !ExpandFrom(data, pos, Some(origin), outer).failed
    decreases |fs|
  {
    if fs != [] {
      var f, rest := fs[0], fs[1..];
      var next := After(pos, WriteSubFrame(f));
      WrittenStep(fs, data, pos);
      ExpandWritten(rest, data, next, origin, outer);
      ExpandFromStep(data, pos, Some(origin), outer, f, next);
      RebasedStep(fs, origin, outer);
    }
  }

  /**
   * An aggregate payload made of written sub-frames expands, without
   * failure, to the audio and video sub-frames in order, each with its
   * timestamp minus the first sub-frame's timestamp plus the aggregate's.
   */
  lemma ExpandAggregatePayload(fs: seq<SubFrame>, outer: nat)
    requires AllWritable(fs) && fs != []
    ensures Expand(WriteSubFrames(fs), outer).messages == Rebased(fs, fs[0].timestamp, outer)
    ensures !Expand(WriteSubFrames(fs), outer).failed
  {
    var data := WriteSubFrames(fs);
    var f, rest := fs[0], fs[1..];
    assert At(data, 0, data);
    WrittenStep(fs, data, 0);
    var next := After(0, WriteSubFrame(f));
    ExpandFromStep(data, 0, None, outer, f, next);
    ExpandWritten(rest, data, next, f.timestamp, outer);
    RebasedStep(fs, f.timestamp, outer);
  }

  /** The messages of three audio or video sub-frames written into one aggregate. */
  lemma RebaseThree(x: SubFrame, y: SubFrame, z: SubFrame, outer: nat)
    requires AllWritable([x, y, z]) && IsMedia(x.msgType) && IsMedia(y.msgType) && IsMedia(z.msgType)
    ensures Expand(WriteSubFrames([x, y, z]), outer).messages
            == [Message(outer, x.msgType, x.streamId, x.data),
                Message(y.timestamp - x.timestamp + outer, y.msgType, y.streamId, y.data),
                Message(z.timestamp - x.timestamp + outer, z.msgType, z.streamId, z.data)]
  {
    ExpandAggregatePayload([x, y, z], outer);
    RebasedThree(x, y, z, outer);
  }

  lemma RebasedThree(x: SubFrame, y: SubFrame, z: SubFrame, outer: nat)
    requires IsMedia(x.msgType) && IsMedia(y.msgType) && IsMedia(z.msgType)
    ensures Rebased([x, y, z], x.timestamp, outer)
            == [Message(outer, x.msgType, x.streamId, x.data),
                Message(y.timestamp - x.timestamp + outer, y.msgType, y.streamId, y.data),
                Message(z.timestamp - x.timestamp + outer, z.msgType, z.streamId, z.data)]
  {
    var fs := [x, y, z];
    assert fs[1..] == [y, z] && fs[1..][1..] == [z] && fs[1..][1..][1..] == [];
    RebasedStep(fs, x.timestamp, outer);
    RebasedStep(fs[1..], x.timestamp, outer);
    RebasedStep(fs[1..][1..], x.timestamp, outer);
  }

  /**
   * Video sub-frames stamped 100, 130 and 145 in an aggregate stamped 500
   * come out stamped 500, 530 and 545.
   */
  lemma RebaseExample(a: seq<byte>, b: seq<byte>, c: seq<byte>)
    requires |a| < 0x100_0000 && |b| < 0x100_0000 && |c| < 0x100_0000
    ensures var fs := [SubFrame(9, |a|, 100, 1, a, |a| + 11), SubFrame(9, |b|, 130, 1, b, |b| + 11),
                       SubFrame(9, |c|, 145, 1, c, |c| + 11)];
            Expand(WriteSubFrames(fs), 500).messages == [Message(500, 9, 1, a), Message(530, 9, 1, b), Message(545, 9, 1, c)]
  {
    RebaseThree(SubFrame(9, |a|, 100, 1, a, |a| + 11), SubFrame(9, |b|, 130, 1, b, |b| + 11),
                SubFrame(9, |c|, 145, 1, c, |c| + 11), 500);
  }

}
