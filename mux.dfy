/**
 * The muxing loop of the converter: each message goes to the FLV file of its
 * message stream id, which is started with the FLV header when the stream id
 * is first seen. Before that, the message's timestamp is checked against the
 * previous one of the same stream id and message type.
 *
 * `Mux` states the loop as a function of the message sequence, and the
 * `Muxer` class carries it out by updating its two dictionaries in place.
 */
module Mux {
  import opened Wrappers
  import opened Bytes
  import opened Messages
  import opened Flv

  /** The timestamp history is kept per message stream id and message type. */
  type StreamKey = (nat, byte)

  function KeyOf(m: Message): StreamKey {
    (m.streamId, m.msgType)
  }

  /** The warning, if any, issued for a message whose timestamp moved by `d` since the previous one. */
  datatype TimestampCheck = InOrder | Backwards(d: int) | JumpsForward(d: int)

  function Classify(d: int): TimestampCheck {
    if d < 0 then Backwards(d) else if d > 2000 then JumpsForward(d) else InOrder
  }

  /** The previous timestamp of a key, 0 when there is none. */
  function Lookup(prev: map<StreamKey, int>, key: StreamKey): int {
    if key in prev then prev[key] else 0
  }

  function Check(prev: map<StreamKey, int>, m: Message): TimestampCheck {
    Classify(m.timestamp - Lookup(prev, KeyOf(m)))
  }

  /**
   * The converter's state: the bytes written to each output file, the last
   * timestamp per key, the checks made so far, and whether a tag could not be
   * framed (which ends the conversion).
   */
  datatype MuxState = MuxState(files: map<nat, seq<byte>>, prev: map<StreamKey, int>,
                               checks: seq<TimestampCheck>, failed: bool)

  const Initial := MuxState(map[], map[], [], false)

  /**
   * One message: check and record its timestamp, open its file with the FLV
   * header if needed, then append its tag. The header is written before the
   * tag is framed, so a message that cannot be framed still leaves its file
   * started.
   */
  function MuxOne(st: MuxState, m: Message): MuxState {
    var prev := st.prev[KeyOf(m) := m.timestamp];
    var checks := st.checks + [Check(st.prev, m)];
    var file := if m.streamId in st.files then st.files[m.streamId] else FlvHeader;
    match FlvTag(m)
    case None => MuxState(st.files[m.streamId := file], prev, checks, true)
    case Some(tag) => MuxState(st.files[m.streamId := file + tag], prev, checks, false)
  }

  /** The messages muxed in order, stopping after the first one that cannot be framed. */
  function MuxFrom(st: MuxState, msgs: seq<Message>): MuxState
    decreases |msgs|
  {
    if msgs == [] || st.failed then st else MuxFrom(MuxOne(st, msgs[0]), msgs[1..])
  }

  function Mux(msgs: seq<Message>): MuxState {
    MuxFrom(Initial, msgs)
  }

  /**
   * The open output files and the timestamp history, updated in place as
   * messages arrive, with the checks made so far in place of the log.
   */
  class Muxer {
    var files: map<nat, seq<byte>>
    var prev: map<StreamKey, int>
    var checks: seq<TimestampCheck>

    constructor ()
      ensures files == map[] && prev == map[] && checks == []
    {
      files := map[];
      prev := map[];
      checks := [];
    }

    /**
     * The body of the muxing loop for one message. `ok` is false when the
     * tag cannot be framed.
     */
    method Write(m: Message) returns (ok: bool)
      modifies this
      ensures MuxState(files, prev, checks, !ok) == MuxOne(MuxState(old(files), old(prev), old(checks), false), m)
    {
      var key := (m.streamId, m.msgType);
      var d := m.timestamp - (if key in prev then prev[key] else 0);
      if d < 0 {
        checks := checks + [Backwards(d)];
      } else if d > 2000 {
        checks := checks + [JumpsForward(d)];
      } else {
        checks := checks + [InOrder];
      }
      prev := prev[key := m.timestamp];
      if m.streamId !in files {
        files := files[m.streamId := FlvHeader];
      }
      var tag := FlvTag(m);
      if tag.None? {
        return false;
      }
      files := files[m.streamId := files[m.streamId] + tag.value];
      ok := true;
    }
  }

  /** The muxing loop of `convert_file` over a message sequence. */
  method MuxMessages(msgs: seq<Message>) returns (st: MuxState)
    ensures st == Mux(msgs)
  {
    var muxer := new Muxer();
    var i := 0;
    while i < |msgs|
      invariant 0 <= i <= |msgs|
      invariant MuxFrom(MuxState(muxer.files, muxer.prev, muxer.checks, false), msgs[i..]) == Mux(msgs)
      decreases |msgs| - i
    {
      MuxFromStep(MuxState(muxer.files, muxer.prev, muxer.checks, false), msgs[i..]);
      var ok := muxer.Write(msgs[i]);
      if !ok {
        return MuxState(muxer.files, muxer.prev, muxer.checks, true);
      }
      assert msgs[i..][1..] == msgs[i + 1..];
      i := i + 1;
    }
    st := MuxState(muxer.files, muxer.prev, muxer.checks, false);
  }

  lemma MuxFromStep(st: MuxState, msgs: seq<Message>)
    requires msgs != [] && !st.failed
    ensures MuxFrom(st, msgs) == MuxFrom(MuxOne(st, msgs[0]), msgs[1..])
    ensures MuxOne(st, msgs[0]).failed ==> MuxFrom(st, msgs) == MuxOne(st, msgs[0])
  {
  }

  predicate AllFramable(msgs: seq<Message>) {
    forall i :: 0 <= i < |msgs| ==> Framable(msgs[i])
  }

  /** The tags of the messages of stream `k`, in order. */
  function TagsOf(msgs: seq<Message>, k: nat): seq<byte>
    requires AllFramable(msgs)
  {
    if msgs == [] then []
    else (if msgs[0].streamId == k then FlvTag(msgs[0]).value else []) + TagsOf(msgs[1..], k)
  }

  /** The tags a reader should find in the file of stream `k`. */
  function StreamTags(msgs: seq<Message>, k: nat): seq<Tag>
    requires AllFramable(msgs)
  {
    if msgs == [] then []
    else (if msgs[0].streamId == k then [TagOf(msgs[0])] else []) + StreamTags(msgs[1..], k)
  }

  predicate Mentions(msgs: seq<Message>, k: nat) {
    exists i :: 0 <= i < |msgs| && msgs[i].streamId == k
  }

  lemma TailFramable(msgs: seq<Message>)
    requires AllFramable(msgs) && msgs != []
    ensures AllFramable(msgs[1..])
  {
    forall i | 0 <= i < |msgs[1..]| ensures Framable(msgs[1..][i]) {
      assert msgs[1..][i] == msgs[i + 1];
    }
  }

  lemma MentionsCons(msgs: seq<Message>, k: nat)
    requires msgs != []
    ensures Mentions(msgs, k) <==> msgs[0].streamId == k || Mentions(msgs[1..], k)
  {
    if Mentions(msgs[1..], k) {
      var i :| 0 <= i < |msgs[1..]| && msgs[1..][i].streamId == k;
      assert msgs[i + 1].streamId == k;
    }
    if Mentions(msgs, k) && msgs[0].streamId != k {
      var i :| 0 <= i < |msgs| && msgs[i].streamId == k;
      assert msgs[1..][i - 1].streamId == k;
    }
  }

  /**
   * Muxing framable messages onto files already open appends to each file
   * exactly the tags of its stream's messages, in order, and opens a file,
   * starting with the FLV header, for each stream id seen for the first time.
   */
  lemma {:induction false} MuxFromFiles(st: MuxState, msgs: seq<Message>, k: nat)
    requires !st.failed && AllFramable(msgs)
    ensures !MuxFrom(st, msgs).failed
    ensures k in st.files ==> k in MuxFrom(st, msgs).files && MuxFrom(st, msgs).files[k] == st.files[k] + TagsOf(msgs, k)
    ensures k !in st.files ==> (k in MuxFrom(st, msgs).files <==> Mentions(msgs, k))
    ensures k !in st.files && Mentions(msgs, k) ==> MuxFrom(st, msgs).files[k] == FlvHeader + TagsOf(msgs, k)
    decreases |msgs|
  {
    if msgs != [] {
      var m, rest := msgs[0], msgs[1..];
      var next := MuxOne(st, m);
      assert AllFramable(rest) by { TailFramable(msgs); }
      assert Mentions(msgs, k) <==> m.streamId == k || Mentions(rest, k) by { MentionsCons(msgs, k); }
      assert MuxFrom(st, msgs) == MuxFrom(next, rest);
      MuxOneFiles(st, m, k);
      MuxFromFiles(next, rest, k);
      if m.streamId == k {
        var tag := FlvTag(m).value;
        var file := if k in st.files then st.files[k] else FlvHeader;
        assert TagsOf(msgs, k) == tag + TagsOf(rest, k);
        calc {
          MuxFrom(st, msgs).files[k];
          next.files[k] + TagsOf(rest, k);
          file + tag + TagsOf(rest, k);
          { Regroup(file, tag, TagsOf(rest, k)); }
          file + TagsOf(msgs, k);
        }
      } else {
        assert TagsOf(msgs, k) == TagsOf(rest, k);
      }
    }
  }

  /** One framable message extends its own stream's file by its tag, opening it first if needed, and no other file. */
  lemma MuxOneFiles(st: MuxState, m: Message, k: nat)
    requires Framable(m)
    ensures !MuxOne(st, m).failed
    ensures k in MuxOne(st, m).files <==> k in st.files || k == m.streamId
    ensures k == m.streamId ==>
              MuxOne(st, m).files[k] == (if k in st.files then st.files[k] else FlvHeader) + FlvTag(m).value
    ensures k != m.streamId && k in st.files ==> MuxOne(st, m).files[k] == st.files[k]
  {
  }

  /**
   * Muxing framable messages writes one file per stream id that occurs: the
   * FLV header exactly once, then the tags of that stream's messages in the
   * order they arrived.
   */
  lemma MuxFiles(msgs: seq<Message>, k: nat)
    requires AllFramable(msgs)
    ensures !Mux(msgs).failed
    ensures k in Mux(msgs).files <==> Mentions(msgs, k)
    ensures k in Mux(msgs).files ==> Mux(msgs).files[k] == FlvHeader + TagsOf(msgs, k)
  {
    MuxFromFiles(Initial, msgs, k);
  }

  /** The tags of a stream, written one after another to the end of a file, are read back in order. */
  lemma {:induction false} ReadWrittenTags(msgs: seq<Message>, k: nat, f: seq<byte>, pos: nat)
    requires AllFramable(msgs) && pos <= |f| && f[pos..] == TagsOf(msgs, k)
    ensures ReadTags(f, pos) == Some(StreamTags(msgs, k))
    decreases |msgs|
  {
    if msgs != [] {
      var m, rest := msgs[0], msgs[1..];
      TailFramable(msgs);
      if m.streamId == k {
        var next := pos + |FlvTag(m).value|;
        assert next <= |f| && f[next..] == TagsOf(rest, k) && ReadTag(f, pos) == Some(Read(TagOf(m), next)) by {
          SplitSuffix(f, pos, FlvTag(m).value, TagsOf(rest, k));
          ReadWrittenTag(m, f, pos);
        }
        ReadWrittenTags(rest, k, f, next);
        ReadTagsStep(f, pos);
        assert StreamTags(msgs, k) == [TagOf(m)] + StreamTags(rest, k);
      } else {
        assert TagsOf(msgs, k) == TagsOf(rest, k);
        ReadWrittenTags(rest, k, f, pos);
        assert StreamTags(msgs, k) == StreamTags(rest, k);
      }
    } else {
      assert |f[pos..]| == 0;
    }
  }

  lemma SplitSuffix(f: seq<byte>, pos: nat, a: seq<byte>, b: seq<byte>)
    requires pos <= |f| && f[pos..] == a + b
    ensures pos + |a| <= |f| && f[pos..pos + |a|] == a && f[pos + |a|..] == b
  {
    assert f[pos..pos + |a|] == f[pos..][..|a|];
    assert f[pos + |a|..] == f[pos..][|a|..];
  }

  lemma ReadTagsStep(f: seq<byte>, pos: nat)
    requires pos < |f| && ReadTag(f, pos).Some?
    ensures var r := ReadTag(f, pos).value;
            ReadTags(f, pos) == if ReadTags(f, r.next).None? then None else Some([r.value] + ReadTags(f, r.next).value)
  {
  }

  /** Every file the muxer writes for framable messages reads back as the tags of its stream's messages. */
  lemma MuxedFileReadsBack(msgs: seq<Message>, k: nat)
    requires AllFramable(msgs) && k in Mux(msgs).files
    ensures ReadFlv(Mux(msgs).files[k]) == Some(StreamTags(msgs, k))
  {
    MuxFiles(msgs, k);
    var f := Mux(msgs).files[k];
    assert f[..|FlvHeader|] == FlvHeader;
    assert f[|FlvHeader|..] == TagsOf(msgs, k);
    ReadWrittenTags(msgs, k, f, |FlvHeader|);
  }

  /**
   * When the message at index `i` is the first that cannot be framed, the
   * conversion stops there: the files hold what the messages before it
   * wrote, plus the FLV header of its stream if that stream was new.
   */
  lemma {:induction false} MuxStopsAtUnframable(msgs: seq<Message>, i: nat)
    requires i < |msgs| && AllFramable(msgs[..i]) && !Framable(msgs[i])
    ensures var before := Mux(msgs[..i]);
            var k := msgs[i].streamId;
            Mux(msgs).failed && !before.failed &&
            Mux(msgs).files == before.files[k := if k in before.files then before.files[k] else FlvHeader]
  {
    MuxFromPrefix(Initial, msgs, i);
  }

  /** Muxing `msgs` from `st` first muxes its first `i` messages, when none of them fails. */
  lemma {:induction false} MuxFromPrefix(st: MuxState, msgs: seq<Message>, i: nat)
    requires i < |msgs| && AllFramable(msgs[..i]) && !st.failed
    ensures !MuxFrom(st, msgs[..i]).failed
    ensures MuxFrom(st, msgs) == MuxFrom(MuxFrom(st, msgs[..i]), msgs[i..])
    decreases i
  {
    if i > 0 {
      var next := MuxOne(st, msgs[0]);
      assert Framable(msgs[..i][0]);
      TailFramable(msgs[..i]);
      assert msgs[..i][1..] == msgs[1..][..i - 1];
      MuxFromPrefix(next, msgs[1..], i - 1);
      assert msgs[1..][i - 1..] == msgs[i..];
    }
  }

  /** The last timestamp of `key` among `h`, 0 when there is none. */
  function PrevOf(h: seq<Message>, key: StreamKey): int {
    if h == [] then 0
    else if KeyOf(h[|h| - 1]) == key then h[|h| - 1].timestamp
    else PrevOf(h[..|h| - 1], key)
  }

  /** The check of each message of `msgs` against the history `h` and the messages of `msgs` before it. */
  function ChecksAfter(h: seq<Message>, msgs: seq<Message>): seq<TimestampCheck>
    decreases |msgs|
  {
    if msgs == [] then []
    else [Classify(msgs[0].timestamp - PrevOf(h, KeyOf(msgs[0])))] + ChecksAfter(h + [msgs[0]], msgs[1..])
  }

  /** The map of last timestamps per stream id and type that a history of messages leaves behind. */
  function PrevMap(h: seq<Message>): map<StreamKey, int> {
    if h == [] then map[] else PrevMap(h[..|h| - 1])[KeyOf(h[|h| - 1]) := h[|h| - 1].timestamp]
  }

  /** The map a history leaves behind holds, under each key, the last timestamp of that key, 0 when absent. */
  lemma {:induction false} LookupPrevMap(h: seq<Message>, key: StreamKey)
    ensures Lookup(PrevMap(h), key) == PrevOf(h, key)
    decreases |h|
  {
    if h != [] {
      LookupPrevMap(h[..|h| - 1], key);
    }
  }

  /** Extending the history by a message records its timestamp under its key. */
  lemma PrevMapStep(h: seq<Message>, m: Message)
    ensures PrevMap(h + [m]) == PrevMap(h)[KeyOf(m) := m.timestamp]
  {
    assert (h + [m])[..|h|] == h;
  }

  /**
   * Each message is checked against the last timestamp of its stream id and
   * type, or 0 if it is the first, and after muxing the map holds the last
   * timestamp of every key.
   */
  lemma {:induction false} MuxFromChecks(st: MuxState, h: seq<Message>, msgs: seq<Message>)
    requires !st.failed && AllFramable(msgs) && st.prev == PrevMap(h)
    ensures MuxFrom(st, msgs).checks == st.checks + ChecksAfter(h, msgs)
    ensures MuxFrom(st, msgs).prev == PrevMap(h + msgs)
    decreases |msgs|
  {
    if msgs == [] {
      assert h + msgs == h;
    } else {
      var m, rest := msgs[0], msgs[1..];
      var next := MuxOne(st, m);
      TailFramable(msgs);
      assert MuxFrom(st, msgs) == MuxFrom(next, rest) by { MuxFromStep(st, msgs); }
      assert !next.failed && next.checks == st.checks + [Check(st.prev, m)] && next.prev == PrevMap(h + [m]) by {
        MuxOneRecords(st, m);
        PrevMapStep(h, m);
      }
      assert Check(st.prev, m) == Classify(m.timestamp - PrevOf(h, KeyOf(m))) by { LookupPrevMap(h, KeyOf(m)); }
      MuxFromChecks(next, h + [m], rest);
      Shift(h, msgs);
      var later := ChecksAfter(h + [m], rest);
      calc {
        MuxFrom(st, msgs).checks;
        next.checks + later;
        st.checks + [Check(st.prev, m)] + later;
        { Regroup(st.checks, [Check(st.prev, m)], later); }
        st.checks + ([Check(st.prev, m)] + later);
        st.checks + ChecksAfter(h, msgs);
      }
    }
  }

  /** Moving the first message of `msgs` onto the end of the history `h`. */
  lemma Shift(h: seq<Message>, msgs: seq<Message>)
    requires msgs != []
    ensures h + [msgs[0]] + msgs[1..] == h + msgs
  {
    assert msgs == [msgs[0]] + msgs[1..];
  }

  /** A framable message adds its check to the list and its timestamp to the map. */
  lemma MuxOneRecords(st: MuxState, m: Message)
    requires Framable(m)
    ensures !MuxOne(st, m).failed
    ensures MuxOne(st, m).checks == st.checks + [Check(st.prev, m)]
    ensures MuxOne(st, m).prev == st.prev[KeyOf(m) := m.timestamp]
  {
  }

  /** The checks the converter makes, stated against the message history alone. */
  lemma MuxChecks(msgs: seq<Message>)
    requires AllFramable(msgs)
    ensures Mux(msgs).checks == ChecksAfter([], msgs)
    ensures forall key :: Lookup(Mux(msgs).prev, key) == PrevOf(msgs, key)
  {
    MuxFromChecks(Initial, [], msgs);
    assert [] + msgs == msgs;
    forall key ensures Lookup(Mux(msgs).prev, key) == PrevOf(msgs, key) {
      LookupPrevMap(msgs, key);
    }
  }
}
