/**
 * The unit passed from the RTMP demultiplexer to the FLV muxer: one audio or
 * video frame with the timestamp, message type and message stream id it was
 * received with.
 */
module Messages {
  import opened Bytes

  /**
   * `timestamp` is in milliseconds and is an unbounded integer: it is never
   * wrapped, and a frame of an aggregate message can be given a negative one.
   */
  datatype Message = Message(timestamp: int, msgType: byte, streamId: nat, data: seq<byte>)

  /** Audio (8) and video (9) are the message types that become FLV tags. */
  predicate IsMedia(t: byte) {
    t == 8 || t == 9
  }
}
