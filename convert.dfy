/**
 * Converting one capture (`convert_file`): skip the requested prefix, skip
 * the server's side of the RTMP handshake when it is there, demultiplex the
 * chunk stream that follows, and mux every audio and video message into the
 * FLV file of its message stream.
 *
 * The messages are muxed as the demultiplexer yields them, so a capture
 * that breaks off or turns malformed still leaves in the FLV files every
 * message completed before the fault.
 */
module Convert {
  import opened Wrappers
  import opened Bytes
  import opened Messages
  import opened Flv
  import opened Chunks
  import opened Mux
  import ChunkProperties
  import Interpreter

  /** Bytes skipped after the version byte 3: the 8-byte uptime and version fields, then 3064 more. */
  const HandshakeRest: nat := 8 + 3064

  /**
   * Where the chunk stream starts. The byte at `skip` is the handshake
   * version: 3 means the 8 bytes after it (fatal if missing) and up to 3064
   * more are the handshake; any other version means there is no handshake
   * and the chunk stream starts at `skip` itself. An input without the
   * version byte fails.
   */
  function ChunkStart(data: seq<byte>, skip: nat): (r: Option<nat>)
    ensures r.Some? ==> r.value <= |data|
  {
    if skip >= |data| then None
    else if data[skip] != 3 then Some(skip)
    else if skip + 9 > |data| then None
    else Some(Min(skip + 1 + HandshakeRest, |data|))
  }

  datatype Outcome = Complete | BadHandshake | DemuxFault(fault: Fault) | Unframable

  /**
   * The result of a conversion: the FLV file of each message stream, the
   * timestamp checks, what the interpreter reported, and how it ended.
   */
  datatype Converted = Converted(files: map<nat, seq<byte>>, checks: seq<TimestampCheck>,
                                 notes: seq<Interpreter.Note>, outcome: Outcome)

  function Conversion(data: seq<byte>, skip: nat, chunkSize: nat): (r: Converted) {
    match ChunkStart(data, skip)
    case None => Converted(map[], [], [], BadHandshake)
    case Some(start) =>
      var d := Demultiplex(data, start, chunkSize);
      var m := Mux.Mux(d.messages);
      var outcome := if m.failed then Unframable else if d.outcome.Failed? then DemuxFault(d.outcome.fault) else Complete;
      Converted(m.files, m.checks, d.notes, outcome)
  }

  /** `convert_file` over the capture's bytes. */
  method ConvertFile(data: seq<byte>, skip: nat, chunkSize: nat) returns (c: Converted)
    ensures c == Conversion(data, skip, chunkSize)
  {
    if skip >= |data| {
      return Converted(map[], [], [], BadHandshake);
    }
    var start := skip;
    if data[skip] == 3 {
      if skip + 9 > |data| {
        return Converted(map[], [], [], BadHandshake);
      }
      start := Min(skip + 1 + HandshakeRest, |data|);
    }
    var demuxed := ReadMessages(data, start, chunkSize);
    var muxed := MuxMessages(demuxed.messages);
    var outcome := Complete;
    if muxed.failed {
      outcome := Unframable;
    } else if demuxed.outcome.Failed? {
      outcome := DemuxFault(demuxed.outcome.fault);
    }
    return Converted(muxed.files, muxed.checks, demuxed.notes, outcome);
  }

  /**
   * The server's handshake is 3073 bytes from the version byte on: with
   * version 3 and enough input the chunk stream starts 3073 bytes after
   * `skip`; a handshake cut short in its last 3064 bytes leaves nothing to
   * demultiplex; a version byte other than 3 is read again as the first
   * byte of a chunk.
   */
  lemma HandshakeSkipped(data: seq<byte>, skip: nat)
    ensures skip < |data| && data[skip] == 3 && skip + 3073 <= |data| ==> ChunkStart(data, skip) == Some(skip + 3073)
    ensures skip < |data| && data[skip] == 3 && skip + 9 <= |data| < skip + 3073 ==> ChunkStart(data, skip) == Some(|data|)
    ensures skip < |data| && data[skip] != 3 ==> ChunkStart(data, skip) == Some(skip)
    ensures ChunkStart(data, skip).None? <==> skip >= |data| || (data[skip] == 3 && skip + 9 > |data|)
  {
  }

  /**
   * When every message the capture yields can be framed, each message
   * stream it mentions gets one FLV file, which reads back as the FLV header
   * followed by the tags of that stream's messages in order, and no other
   * file is written.
   */
  lemma ConvertedFilesReadBack(data: seq<byte>, skip: nat, chunkSize: nat, k: nat)
    requires ChunkStart(data, skip).Some?
    requires AllFramable(Demultiplex(data, ChunkStart(data, skip).value, chunkSize).messages)
    ensures var msgs := Demultiplex(data, ChunkStart(data, skip).value, chunkSize).messages;
            var c := Conversion(data, skip, chunkSize);
            c.outcome != Unframable
            && (k in c.files <==> Mentions(msgs, k))
            && (k in c.files ==> ReadFlv(c.files[k]) == Some(StreamTags(msgs, k)))
  {
    var msgs := Demultiplex(data, ChunkStart(data, skip).value, chunkSize).messages;
    MuxFiles(msgs, k);
    if k in Mux.Mux(msgs).files {
      MuxedFileReadsBack(msgs, k);
    }
  }

  /** Every message that reaches the FLV muxer is audio or video. */
  lemma ConvertedTagsAreMedia(data: seq<byte>, skip: nat, chunkSize: nat)
    requires ChunkStart(data, skip).Some?
    ensures forall m | m in Demultiplex(data, ChunkStart(data, skip).value, chunkSize).messages :: IsMedia(m.msgType)
  {
    ChunkProperties.RunYieldsMedia(data, Chunks.Demux(ChunkStart(data, skip).value, chunkSize, map[]));
  }
}
