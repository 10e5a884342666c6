# rtmp2flv in Dafny

A model of `rtmp2flv.py`, the converter that turns a capture of an
unencrypted RTMP session into one FLV file per message stream. The capture
is a byte sequence; the model follows it through the same four stages as
the program:

1. **Handshake skip** (`convert.dfy`). After the bytes the caller asks to
   skip comes the server's version byte. Version 3 means an 8-byte uptime and
   version block and 3064 filler bytes follow, which are skipped. Any other
   version means the handshake is missing and the chunk stream starts at the
   skip offset itself.
2. **Chunk stream demultiplexer** (`chunk.dfy`, section 5.3 of Adobe's RTMP
   specification). It reads one chunk at a time: a basic header (format and
   chunk stream id), a message header of 11, 7, 3 or 0 bytes, an optional
   extended timestamp, and at most one chunk size of payload. Per chunk
   stream it remembers what the last headers said, and so it reassembles
   messages from interleaved chunks. `Chunks.StepAt` and `Chunks.Run` state
   this as functions. The class `Chunks.Demuxer` carries it out on a cursor,
   a chunk size and a map of chunk stream states updated in place.
   `ChunkProperties` proves what the reader promises. `ChunkWriter` is a
   chunk writer, the partner of the reader, and proves that the reader takes
   its chunks back.
3. **Message interpreter** (`interpreter.dfy`). It acts on each complete
   message:
   - set-chunk-size (type 1) changes the chunk size for later chunks;
   - user control (type 4) must be exactly 6 bytes;
   - audio and video (8, 9) with a payload are passed on;
   - AMF0 data and commands (18, 20) are decoded for reporting;
   - aggregates (22) are split into sub-frames whose timestamps are rebased
     onto the aggregate's own.
4. **AMF0 decoder** (`amf0.dfy`, section 2 of Adobe's AMF0 specification). It
   decodes values with a cursor and a reference table of finished
   composites. The decoder is stated as functions. The `Amf0.Reader` class
   carries it out, updating the cursor and the table in place. An encoder
   (`amf0_encoding.dfy`) is its partner: every encodable value decodes back
   to itself (`amf0_properties.dfy`).
5. **FLV muxer** (`flv.dfy`, `mux.dfy`, section E of Adobe's FLV file format
   specification). Every audio and video message goes to the file of its
   message stream id. That file is opened with the 13-byte FLV header the
   first time the id is seen. Each message's timestamp is checked against the
   previous one with the same stream id and type. A tag reader is the partner
   of the tag writer: every file the muxer writes reads back as the tags of
   its stream's messages.

Python integers are unbounded, and so are the model's. No timestamp is ever
wrapped. Where a packing step has a width, the model states its range as a
condition: `Flv.FlvTag` fails outside it, just as `struct.pack` raises.

Python exceptions become explicit outcomes:
- `Chunks.Fault` for the demultiplexer: input cut short, unknown message
  size, or a payload that cannot be unpacked;
- `Option` results for the decoders;
- `Convert.Outcome` for a whole conversion.

Log lines become data: `Interpreter.Note` for what the interpreter reports,
and `Mux.TimestampCheck` for the timestamp warnings.

Where Adobe's RTMP, AMF0 and FLV specifications and the code differ, the
model follows the code:
- The message stream id of a format-0 header is read little-endian
  (`rtmp2flv.py:122`).
- An aggregate sub-frame's stream id is 3 bytes, not 4 (`rtmp2flv.py:176`).
- The AMF0 Date timezone is read as an unsigned 16-bit value
  (`rtmp2flv.py:224`).
- AMF0 Null (5) and Undefined (6) decode to the same value
  (`rtmp2flv.py:217`).
- An end-of-object marker (9) outside an object is returned as a value, not
  rejected (`rtmp2flv.py:191`, `219`).
- Timestamps are not 32-bit and never wrap. A rebased aggregate sub-frame
  timestamp can even be negative (`rtmp2flv.py:181`).
- With handshake version 3, the chunk stream starts 3073 bytes after the
  skip offset: the version byte, 8 bytes of uptime and version, then 3064
  filler bytes (`rtmp2flv.py:39-47`).
- A sub-frame's trailing size is compared with the sub-frame's size itself
  (`rtmp2flv.py:179`).

## Model

| member | source | states |
|---|---|---|
| Convert.ChunkStart | rtmp2flv.py:39-53 | the chunk stream never starts past the end of the capture |
| Convert.HandshakeSkipped | rtmp2flv.py:39-53 | version 3 with the whole handshake present starts the chunk stream 3073 bytes after the skip offset; a handshake cut short in its filler leaves nothing to read; any other version restarts at the skip offset; the conversion fails exactly when the version byte, or the 8 bytes after a version 3, are missing |
| Convert.Conversion | rtmp2flv.py:34-76 | one capture's conversion: handshake, demultiplexer, muxer; stated by `Convert.ConvertedFilesReadBack` and `Convert.ConvertedTagsAreMedia` |
| Convert.ConvertFile | rtmp2flv.py:34-76 | the conversion of one capture equals the demultiplexer run from the chunk start followed by the muxer over its messages, with the outcome of whichever failed first |
| Convert.ConvertedFilesReadBack | rtmp2flv.py:55-86 | when every yielded message can be framed, a file exists exactly for each message stream id among them, and it reads back as the FLV header followed by that stream's tags in order |
| Convert.ConvertedTagsAreMedia | rtmp2flv.py:58-74 | every message that reaches the muxer is audio or video |
| Chunks.ReadBasicHeader | rtmp2flv.py:96-101 | a basic header that reads has a format below 4 and ends within the input, past its first byte |
| Chunks.ReadMessageHeader | rtmp2flv.py:109-123 | the header read has the format asked for; for formats 0 to 2 it ends within the input |
| Chunks.Begin | rtmp2flv.py:125-137 | preparation fails exactly when no header gave a size; otherwise the size, type and timestamp field are kept, the message stream id is the remembered one or 1 when none was given, the stream has a timestamp, the bytes received plus the bytes still due make up the size, and a message already under way keeps its bytes |
| Chunks.ReadExtended | rtmp2flv.py:139-141 | the extended timestamp, when read, lies within the input after the header |
| Chunks.ReceiveChunk | rtmp2flv.py:143-145 | the chunk takes exactly min(chunk size, bytes left, bytes remaining in the input) bytes, appends them to what was received, lowers the bytes left by exactly that count (never below 0), and changes nothing else |
| Chunks.Receive | rtmp2flv.py:103-148 | a chunk that does not stop reading moves the cursor forward within the input and keeps every chunk stream reassembling consistently |
| Chunks.Complete | rtmp2flv.py:147-149 | is only asked to dispatch a message whose received bytes are as many as its declared size; after the payload the cursor is where the payload ended and every chunk stream is still consistent |
| Chunks.StepAt | rtmp2flv.py:95-148 | one chunk read either stops or moves the cursor strictly forward within the input, keeping every chunk stream consistent (so the reading loop ends) |
| Chunks.ApplyHeader | rtmp2flv.py:109-123 | the effect of a message header on its chunk stream; its properties are stated by `ChunkProperties.HeaderInheritance` |
| Chunks.Prepare | rtmp2flv.py:125-137 | the field-by-field preparation of a stream equals `Begin` |
| Chunks.Demuxer.constructor | rtmp2flv.py:93-94 | the reader starts at the chunk start with the given chunk size and no chunk streams |
| Chunks.Demuxer.Step | rtmp2flv.py:95-148 | one pass of the loop returns `StepAt` of the state before it, and the object's cursor, chunk size and streams become the step's new state |
| Chunks.Demuxer.TakeChunk | rtmp2flv.py:103-148 | after the headers, the in-place update of the chunk's stream gives `Receive` of the state before it |
| Chunks.Demuxer.ExtendedTimestamp | rtmp2flv.py:139-141 | reads the extended timestamp as `ReadExtended` does |
| Chunks.Demuxer.TakePayload | rtmp2flv.py:143-145 | appends the chunk's payload as `ReceiveChunk` does |
| Chunks.Demuxer.Finish | rtmp2flv.py:147-149 | keeps an incomplete message or dispatches a complete one as `Complete` does, and the object holds the new state |
| Chunks.Run | rtmp2flv.py:95-148 | the reading loop from a state to its end; what it yields is stated by `ChunkProperties.RunYieldsMedia` and `Chunks.ReadMessages` |
| Chunks.Demultiplex | rtmp2flv.py:93-148 | the reading loop from the chunk start with no chunk streams; `Chunks.ReadMessages` is proved equal to it |
| Chunks.ReadMessages | rtmp2flv.py:93-97 | the reading loop driven to its end yields exactly `Demultiplex`: the messages, reports and outcome of the run |
| ChunkProperties.WriteBasicHeader | rtmp2flv.py:98-101 | the shortest basic header for an id takes 1 to 3 bytes |
| ChunkProperties.ReadWrittenBasicHeader | rtmp2flv.py:98-101 | a written basic header reads back as its format and chunk stream id, and reading goes on right after it |
| ChunkProperties.ChunkStreamIdRanges | rtmp2flv.py:98-101 | the format is the top two bits; the id is 2-63 in the 1-byte form (the low six bits), 64-319 in the 2-byte form and 64-65599 in the 3-byte form |
| ChunkProperties.WriteMessageHeader | rtmp2flv.py:109-123 | the message header of formats 0 to 3 is 11, 7, 3 and 0 bytes long |
| ChunkProperties.ReadWrittenMessageHeader | rtmp2flv.py:109-123 | a written message header reads back as itself under its own format, and reading goes on right after it |
| ChunkProperties.HeaderInheritance | rtmp2flv.py:109-123 | format 3 changes nothing; formats 2, 1, 0 replace the timestamp field and abandon a partial message; formats 1 and 0 also replace the size and type; only format 0 replaces the message stream id and resets the timestamp to 0; the bytes received are kept |
| ChunkProperties.ContinuationKeepsMessage | rtmp2flv.py:109-145 | a format-3 chunk without an extended timestamp in the middle of a message keeps its timestamp, type, stream id and size, takes at most one chunk size of payload, and appends that payload to what was received |
| ChunkProperties.NewMessageTimestamp | rtmp2flv.py:121-143 | a chunk without an extended timestamp that starts a message adds the timestamp field to 0 after format 0 and to the stream's last timestamp (0 if none) otherwise, and its payload is all the message has received |
| ChunkProperties.ExtendedTimestampReplaces | rtmp2flv.py:139-141 | with the timestamp field at 0xFFFFFF, after every header format, the 4 bytes after the header become the timestamp |
| ChunkProperties.ExtendedTimestampTruncated | rtmp2flv.py:139-141 | an extended timestamp cut short by the end of the input stops reading as truncated |
| ChunkProperties.UnknownSizeStops | rtmp2flv.py:125-126 | a format-2 or format-3 chunk on a stream that never had a size stops reading with the unknown-size fault |
| ChunkProperties.DispatchedHasDeclaredSize | rtmp2flv.py:134-151 | a chunk that brings in the last byte of its message hands the interpreter a payload exactly as long as the size its latest header declared, with that header's type and the message stream id (1 if none was given); it yields, reports and fails exactly as the interpreter does, and reading goes on with the interpreter's chunk size, so a completed 4-byte set-chunk-size message sets the chunk size for every later chunk to its big-endian value |
| ChunkProperties.StreamIdDefault | rtmp2flv.py:130-132 | after any chunk that goes on, its stream's message stream id is the one its latest format-0 header gave, or 1 when none did |
| ChunkProperties.ChunkSizeAndMedia | rtmp2flv.py:147-183 | a chunk changes the chunk size only when its header's type is set-chunk-size and it completes that message, and it yields only audio and video |
| ChunkProperties.RunYieldsMedia | rtmp2flv.py:93-183 | every message of a whole run is audio or video |
| ChunkWriter.BeginsAfresh | rtmp2flv.py:109-137 | a format-0 header starts a message afresh whatever its chunk stream remembered |
| ChunkWriter.GoesOn | rtmp2flv.py:109-137 | a format-3 header in the middle of a message leaves the stream as it was |
| ChunkWriter.TakesPayload | rtmp2flv.py:139-145 | without an extended timestamp, a chunk takes the next min(chunk size, bytes left) bytes of the message |
| ChunkWriter.Completes | rtmp2flv.py:147-164 | the chunk that brings in the last byte of an audio or video message yields it unchanged and clears the bytes received; an earlier chunk keeps the partial message |
| ChunkWriter.ReadFirstChunk | rtmp2flv.py:93-148 | the first chunk of a written message, format 0, starts it on its chunk stream with its first chunk size of payload, and yields it when it carries all of it |
| ChunkWriter.ReadNextChunk | rtmp2flv.py:93-148 | each format-3 chunk that follows adds the next chunk size of payload, and the last one yields the message with its timestamp, type and stream id |
| ChunkWriter.ChunksSplit | rtmp2flv.py:109-145 | the written message is its first chunk followed by its format-3 chunks, which end where the whole message ends |
| ChunkWriter.ContinuationsSplit | rtmp2flv.py:109-145 | each format-3 chunk is its basic header and the next payload bytes, followed by the rest |
| Interpreter.SubFrameOutput | rtmp2flv.py:179-182 | what one sub-frame yields and reports; stated by `Interpreter.EmitSubFrame` |
| Interpreter.ExpandFrom | rtmp2flv.py:172-182 | the aggregate loop from a position; stated by `Interpreter.ExpandWritten` and `Interpreter.ExpandFromMedia` |
| Interpreter.Expand | rtmp2flv.py:169-182 | the whole aggregate loop; stated by `Interpreter.ExpandAggregatePayload` and `Interpreter.ExpandAggregate` |
| Interpreter.ReadSubFrame | rtmp2flv.py:173-178 | a sub-frame read takes its 11 header bytes and 4 trailing bytes within the message |
| Interpreter.ReadWrittenSubFrame | rtmp2flv.py:173-178 | a written sub-frame reads back as itself: type, size, 32-bit timestamp from the low 24 bits and the high byte, 3-byte stream id, payload and trailing size |
| Interpreter.EmitSubFrame | rtmp2flv.py:179-182 | one turn of the aggregate loop reports a trailing size that differs from the size, fixes the first timestamp, and emits an audio or video sub-frame with its timestamp rebased, or reports another type |
| Interpreter.ExpandAggregate | rtmp2flv.py:169-182 | the aggregate loop yields exactly `Expand` of the payload |
| Interpreter.ExpandWritten | rtmp2flv.py:172-182 | sub-frames written one after another to the end of the payload expand, without failure, to their audio and video sub-frames rebased from the given origin |
| Interpreter.ExpandAggregatePayload | rtmp2flv.py:169-182 | an aggregate of written sub-frames expands, without failure, to its audio and video sub-frames in order, each at its timestamp minus the first sub-frame's plus the aggregate's |
| Interpreter.RebaseThree | rtmp2flv.py:180-181 | three media sub-frames come out at the aggregate's timestamp and at their offsets from the first sub-frame |
| Interpreter.RebaseExample | rtmp2flv.py:180-181 | sub-frames stamped 100, 130 and 145 in an aggregate stamped 500 come out stamped 500, 530 and 545 |
| Interpreter.ExpandFromMedia | rtmp2flv.py:181-182 | an aggregate expands only to audio and video messages |
| Interpreter.Interpret | rtmp2flv.py:147-183 | the dispatch on a complete message's type; stated by `Interpreter.InterpretEmitsMedia`, `Interpreter.InterpretChunkSize` and `Interpreter.InterpretFails` |
| Interpreter.Dispatch | rtmp2flv.py:147-183 | the dispatch on the message type gives `Interpret` |
| Interpreter.InterpretEmitsMedia | rtmp2flv.py:163-164 | only audio and video leave the interpreter; an audio or video message passes unchanged when it has a payload and is dropped when empty; other types yield messages only through an aggregate |
| Interpreter.InterpretChunkSize | rtmp2flv.py:150-151 | a 4-byte set-chunk-size payload sets the chunk size to its big-endian value; other types keep the chunk size |
| Interpreter.InterpretFails | rtmp2flv.py:150-182 | interpretation fails exactly for a set-chunk-size payload other than 4 bytes, a user-control payload other than 6 bytes, or a malformed aggregate |
| Flv.FlvHeaderLayout | rtmp2flv.py:78 | the file header is 13 bytes: "FLV", version 1, flags with the audio and video bits set, a 32-bit header size of 9 and a zero PreviousTagSize0 |
| Flv.FlvTag | rtmp2flv.py:80-86 | a tag exists exactly when the payload length fits 24 bits and the timestamp is from 0 to below 2^32, and it is 15 bytes longer than the payload |
| Flv.TagLayout | rtmp2flv.py:80-86 | the tag holds the type, the 24-bit big-endian size, the low 24 timestamp bits big-endian, timestamp bits 24-31, a zero 24-bit stream id, the payload, and the size plus 11 as a 32-bit trailer |
| Flv.ReadTag | rtmp2flv.py:80-86 | a tag read takes exactly its 15 framing bytes and its payload, within the file |
| Flv.ReadWrittenTag | rtmp2flv.py:80-86 | a written tag reads back as the message's type, timestamp and payload, and reading goes on after its trailer |
| Mux.Muxer.constructor | rtmp2flv.py:55-56 | the muxer starts with no files and no timestamp history |
| Mux.MuxOne | rtmp2flv.py:59-74 | one turn of the muxing loop; stated by `Mux.MuxOneFiles`, `Mux.MuxOneRecords` and `Mux.MuxStopsAtUnframable` |
| Mux.MuxFrom | rtmp2flv.py:57-74 | the muxing loop from a state; stated by `Mux.MuxFromFiles`, `Mux.MuxFromChecks` and `Mux.MuxFromPrefix` |
| Mux.Mux | rtmp2flv.py:55-76 | the muxing loop from no files and no history; stated by `Mux.MuxFiles`, `Mux.MuxChecks` and `Mux.MuxedFileReadsBack` |
| Mux.Muxer.Write | rtmp2flv.py:59-74 | one turn of the muxing loop updates the files, the timestamp history and the checks in place, exactly as `MuxOne` |
| Mux.MuxMessages | rtmp2flv.py:55-76 | the muxing loop over a message sequence gives `Mux` of it, stopping at the first message that cannot be framed |
| Mux.MuxOneFiles | rtmp2flv.py:67-74 | a framable message extends its own stream's file by its tag, opening it with the FLV header first if needed, and leaves every other file unchanged |
| Mux.MuxFromFiles | rtmp2flv.py:67-74 | muxing framable messages appends to each open file exactly its stream's tags in order, and opens a file, header first, exactly for each new stream id that occurs |
| Mux.MuxFiles | rtmp2flv.py:55-78 | for framable messages there is one file per stream id that occurs, holding the FLV header once followed by that stream's tags in order |
| Mux.ReadWrittenTags | rtmp2flv.py:74-86 | a stream's tags written one after another read back as that stream's tags in order |
| Mux.MuxedFileReadsBack | rtmp2flv.py:55-86 | every file the muxer writes for framable messages reads back as its stream's tags in order |
| Mux.MuxStopsAtUnframable | rtmp2flv.py:57-76 | the first message that cannot be framed ends the conversion, and the files hold what the earlier messages wrote plus the header of its stream if that stream was new |
| Mux.MuxFromPrefix | rtmp2flv.py:57-74 | muxing a sequence is muxing a prefix of framable messages, then the rest |
| Mux.MuxOneRecords | rtmp2flv.py:59-66 | each message adds its check against the previous timestamp of its stream id and type, and records its own timestamp |
| Mux.MuxFromChecks | rtmp2flv.py:59-66 | each message is checked against the last timestamp of its stream id and type in the history before it, and the map then holds the last timestamp of every key |
| Mux.MuxChecks | rtmp2flv.py:59-66 | the checks of a conversion: each message against the last earlier message of its stream id and type (0 if none): backwards below 0, jumping forward above 2000, otherwise in order |
| Amf0.Put | rtmp2flv.py:212 | assigning an existing key keeps every key in its position, gives that key the new value and leaves every other entry as it was; a new key is appended |
| Amf0.ReadString | rtmp2flv.py:196-197 | a length-prefixed string fails only without its length field; its bytes follow the prefix and are the declared length, or fewer when the data ends first |
| Amf0.DecodeValue | rtmp2flv.py:199-227 | a decoded value advances the cursor within the data; the table only grows; only markers 3, 8, 10 and 16 add to it, and the value then comes last |
| Amf0.DecodeScalar | rtmp2flv.py:200-227 | a value without nested values leaves the table as it is; the value of each marker is stated by `Amf0Encoding.NumberBody`, `BooleanBody`, `TextBody` (markers 2, 4, 12, 15), `NoBody` (5, 6, 9), `DateBody` and `Amf0Properties.Reference` |
| Amf0.DecodeObject | rtmp2flv.py:204-215 | a decoded object, ECMA array or typed object advances the cursor, and the table grows with the decoded value last |
| Amf0.DecodeArray | rtmp2flv.py:220-223 | a decoded strict array advances the cursor, and the table grows with the decoded array last |
| Amf0.DecodeEntries | rtmp2flv.py:207-212 | the key loop advances the cursor, only adds to the table, and never ends with fewer entries than it started with |
| Amf0.DecodeItems | rtmp2flv.py:221 | the element loop yields exactly the number of elements the count asks for |
| Amf0.DecodeFrom | rtmp2flv.py:186-194 | a parse yields no more values than there are bytes left |
| Amf0.Reader.constructor | rtmp2flv.py:187-189 | a reader starts at the beginning of the payload with an empty table |
| Amf0.Reader.Read | rtmp2flv.py:199-227 | reading one value with the in-place cursor and table gives `DecodeValue`, and fails exactly when it does |
| Amf0.Reader.ReadScalar | rtmp2flv.py:200-227 | the scalar markers are read as `DecodeScalar` |
| Amf0.Reader.ReadObject | rtmp2flv.py:204-215 | an object, ECMA array or typed object is read as `DecodeObject`, and joins the table |
| Amf0.Reader.ReadEntries | rtmp2flv.py:208-212 | the key loop is read as `DecodeEntries` |
| Amf0.Reader.ReadArray | rtmp2flv.py:220-223 | a strict array is read as `DecodeArray`, and joins the table |
| Amf0.Reader.ReadItems | rtmp2flv.py:221 | the element loop is read as `DecodeItems` |
| Amf0.DecodeAll | rtmp2flv.py:186-194 | the values of a payload up to its end or the first failure; stated by `Amf0Properties.ParseEncoded` and `Amf0Properties.PartialParse` |
| Amf0.Parse | rtmp2flv.py:186-194 | the parse loop returns `DecodeAll`: every value decoded before the end of the data or the first failure |
| Amf0Encoding.DecodeEncoded | rtmp2flv.py:199-227 | an encodable value decodes back to itself, right after its bytes, with its composites appended to the table in completion order |
| Amf0Encoding.NumberBody | rtmp2flv.py:201 | marker 0 reads 8 raw bytes |
| Amf0Encoding.BooleanBody | rtmp2flv.py:202 | marker 1 reads one byte, true when it is not zero |
| Amf0Encoding.TextBody | rtmp2flv.py:203-226 | markers 2, 4, 12 and 15 read a string with a 2-, 2-, 4- and 4-byte length prefix as a string, movie clip, string and XML document |
| Amf0Encoding.NoBody | rtmp2flv.py:217-219 | markers 5, 6 and 9 read no bytes; null and undefined both give null, 9 gives the end-of-object marker |
| Amf0Encoding.DateBody | rtmp2flv.py:224 | marker 11 reads 8 raw bytes and an unsigned 16-bit timezone |
| Amf0Encoding.EcmaArrayBody | rtmp2flv.py:204-205 | an ECMA array (marker 8) skips its 4 count bytes and then decodes exactly as an object |
| Amf0Encoding.ObjectBody | rtmp2flv.py:204-215 | an encoded object reads back and joins the table after its nested composites |
| Amf0Encoding.TypedObjectBody | rtmp2flv.py:206-215 | an encoded typed object reads back with its class name and joins the table after its nested composites |
| Amf0Encoding.ArrayBody | rtmp2flv.py:220-223 | an encoded strict array reads back and joins the table after its elements' composites |
| Amf0Encoding.DecodeEncodedEntries | rtmp2flv.py:207-212 | the key loop over encoded entries with distinct keys reads them back in order |
| Amf0Encoding.EntriesEnd | rtmp2flv.py:209-211 | any key followed by the end-of-object marker ends the key loop: the key is dropped, the entries so far are the result, the table is unchanged and reading goes on after the marker |
| Amf0Encoding.PutFresh | rtmp2flv.py:212 | with distinct keys, each assignment appends its entry |
| Amf0Encoding.DecodeEncodedItems | rtmp2flv.py:221 | encoded elements read back in order |
| Amf0Properties.DecodeFromEncoded | rtmp2flv.py:186-194 | values encoded one after another are parsed in turn, and parsing carries on after them |
| Amf0Properties.ParseEncoded | rtmp2flv.py:186-194 | parsing the encoding of a sequence of values gives the sequence back |
| Amf0Properties.PartialParse | rtmp2flv.py:190-194 | a parse that fails after some encoded values returns exactly those values |
| Amf0Properties.UnknownMarkerStops | rtmp2flv.py:227 | an unknown marker after encoded values ends the parse with those values |
| Amf0Properties.Reference | rtmp2flv.py:218 | a back-reference yields the table entry at its index and leaves the table as it is; an index past the end of the table fails |
| Amf0Properties.DanglingReferenceStops | rtmp2flv.py:218 | a back-reference to an entry that does not exist yet ends the parse with the values before it |
| Amf0Properties.TableGrows | rtmp2flv.py:214-222 | the table after a value only has entries appended, and after a composite the composite comes last |
| Amf0Properties.ChildBeforeContainer | rtmp2flv.py:204-223 | a composite nested directly in another is recorded in the table at a lower index than its container, which comes last |

## Left out

- Argument parsing, `main`, opening, seeking and closing files, standard
  input and output, and output file names (`rtmp2flv.py:8-37`, `53`, `70-72`,
  `76`, `229`): these are I/O. The capture is a byte sequence, the skip
  offset and initial chunk size are parameters, and the output is a map
  from message stream id to file contents.
- Log text and levels: the reports become `Interpreter.Note` values and
  `Mux.TimestampCheck` values. Warnings that change nothing are not recorded:
  a new chunk stream, an incomplete message, an unknown message type, a
  missing timestamp or stream id, a bad handshake version, the server
  uptime. The behaviour they accompany is modelled.
- Floating point: the server uptime arithmetic is not modelled. AMF0 numbers
  and dates are kept as their 8 raw bytes.
- UTF-8 decoding of AMF0 strings: strings are kept as raw bytes.
- Generator laziness: the demultiplexer is run to its end and its messages
  are then muxed in order. The files and the outcome are the same as
  interleaving, because a demultiplexer fault only ends the message
  sequence. One difference remains: after a message that cannot be framed,
  the program stops reading the capture. `Convert.Conversion` still lists
  the reports of the whole run.
- User-control event classification (`rtmp2flv.py:154-160`): it only logs.
  The model keeps the requirement that the payload is exactly 6 bytes.
- A negative initial chunk size is not modelled: the chunk size is a `nat`.
- A negative skip offset is not modelled: the skip is a `nat`. The program
  fails when it seeks to a negative offset (`rtmp2flv.py:37`).
- Python's recursion limit is not modelled. AMF0 values nested about a
  thousand deep (markers 3, 8, 10 and 16) make `AMF0.read` raise, and the
  parse then returns fewer values (`rtmp2flv.py:190-193`). `Amf0.DecodeValue`
  decodes any depth.
- Object keys are raw bytes, because UTF-8 decoding is not modelled. The
  program assigns keys after a lossy decode (`rtmp2flv.py:197`, `212`), so
  two different raw keys that decode to the same text become one entry.
  `Amf0.Put` keeps them apart.
- Chunks.Demuxer.Finish: the object's state after a failed interpretation is
  left unspecified, because the program abandons the conversion at that
  point.
- ChunkWriter.ReadFirstChunk: the chunk writer round trip is proved chunk
  by chunk, not as one statement that the demultiplexer run over a written
  message yields exactly that message. It also covers only one chunk stream
  at a time and timestamps below 0xFFFFFF, which need no extended timestamp.
- ChunkWriter.ReadNextChunk: as above, one format-3 chunk at a time.
