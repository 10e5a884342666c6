/**
 * The AMF0 value decoder used to report the contents of RTMP data (type 18) and
 * command (type 20) messages. Type markers are those of section 2 of Adobe's
 * AMF0 specification. The decoder threads a cursor and a table of completed
 * composite values through every read; marker 7 refers back into that table.
 *
 * Decoding is stated once as functions (DecodeValue, DecodeEntries,
 * DecodeItems, DecodeAll) and carried out by the `Reader` class and `Parse`
 * method, which update the cursor and table in place and are proved to agree
 * with the functions.
 */
module Amf0 {
  import opened Wrappers
  import opened Bytes

  /**
   * A decoded value. IEEE-754 numbers are kept as their 8 raw bytes and strings
   * as their raw bytes. Markers 2 and 12 both give `Str`, markers 3 and 8 both
   * give `Object`, and markers 5 and 6 both give `Null`, because the decoder
   * returns the same kind of value for each pair.
   */
  datatype Value =
    | Number(raw: seq<byte>)
    | Boolean(b: bool)
    | Str(s: seq<byte>)
    | Object(entries: seq<Entry>)
    | TypedObject(className: seq<byte>, entries: seq<Entry>)
    | MovieClip(path: seq<byte>)
    | Null
    | EndOfObject
    | StrictArray(items: seq<Value>)
    | Date(raw: seq<byte>, timezone: nat)
    | XmlDocument(text: seq<byte>)

  /** One key/value pair of an object, in insertion order. */
  datatype Entry = Entry(key: seq<byte>, value: Value)

  /** A decoded item together with the cursor and reference table after it. */
  datatype Decoded<T> = Decoded(value: T, pos: nat, objects: seq<Value>)

  /** A length-prefixed string and the cursor after it. */
  datatype Chars = Chars(bytes: seq<byte>, next: nat)

  predicate HasKey(entries: seq<Entry>, key: seq<byte>) {
    exists i :: 0 <= i < |entries| && entries[i].key == key
  }

  /**
   * Dictionary assignment `obj[key] = v`: an existing key keeps its position
   * and takes the new value; a new key is appended.
   */
  function Put(entries: seq<Entry>, key: seq<byte>, v: Value): (r: seq<Entry>)
    ensures HasKey(entries, key) ==>
              |r| == |entries| && Entry(key, v) in r &&
              forall i :: 0 <= i < |r| ==> r[i].key == entries[i].key && (entries[i].key != key ==> r[i] == entries[i])
    ensures !HasKey(entries, key) ==> r == entries + [Entry(key, v)]
  {
    if entries == [] then [Entry(key, v)]
    else if entries[0].key == key then [Entry(key, v)] + entries[1..]
    else
      var rest := Put(entries[1..], key, v);
      HasKeyTail(entries, key);
      [entries[0]] + rest
  }

  lemma HasKeyTail(entries: seq<Entry>, key: seq<byte>)
    requires entries != [] && entries[0].key != key
    ensures HasKey(entries, key) <==> HasKey(entries[1..], key)
  {
    if HasKey(entries, key) {
      var i :| 0 <= i < |entries| && entries[i].key == key;
      assert entries[1..][i - 1].key == key;
    }
    if HasKey(entries[1..], key) {
      var i :| 0 <= i < |entries[1..]| && entries[1..][i].key == key;
      assert entries[i + 1].key == key;
    }
  }

  /**
   * A string preceded by a big-endian length of `width` bytes. A missing
   * length fails; a body cut short by the end of the data is returned as far
   * as it goes.
   */
  function ReadString(data: seq<byte>, pos: nat, width: nat): (r: Option<Chars>)
    requires pos <= |data|
    ensures r.Some? <==> pos + width <= |data|
    ensures r.Some? ==> r.value.next == pos + width + |r.value.bytes| <= |data|
    ensures r.Some? ==> r.value.bytes == data[pos + width..r.value.next]
    ensures r.Some? ==> |r.value.bytes| <= BeUint(data[pos..pos + width])
    ensures r.Some? && r.value.next < |data| ==> |r.value.bytes| == BeUint(data[pos..pos + width])
  {
    if pos + width > |data| then None
    else
      var n := BeUint(data[pos..pos + width]);
      var end := Min(pos + width + n, |data|);
      Some(Chars(data[pos + width..end], end))
  }

  /** Whether a value is one that the reference table records when it finishes. */
  predicate IsComposite(v: Value) {
    v.Object? || v.TypedObject? || v.StrictArray?
  }

  /**
   * Decodes one value at `pos`. The table `objects` only ever grows, and only
   * by the composites completed during this read; any marker other than
   * 3, 8, 16 and 10 leaves it unchanged.
   */
  function DecodeValue(data: seq<byte>, pos: nat, objects: seq<Value>): (r: Option<Decoded<Value>>)
    requires pos <= |data|
    ensures r.Some? ==> pos < r.value.pos <= |data|
    ensures r.Some? ==> objects <= r.value.objects
    ensures r.Some? && data[pos] !in {3, 8, 10, 16} ==> r.value.objects == objects
    ensures r.Some? && data[pos] in {3, 8, 10, 16} ==>
              |r.value.objects| > |objects| && r.value.objects[|r.value.objects| - 1] == r.value.value
    decreases |data| - pos, 0
  {
    if pos == |data| then None
    else if data[pos] in {3, 8, 16} then DecodeObject(data, pos + 1, objects, data[pos])
    else if data[pos] == 10 then DecodeArray(data, pos + 1, objects)
    else DecodeScalar(data, pos + 1, objects, data[pos])
  }

  /** A value whose marker `t` is neither an object nor a strict array marker, read from `p` on. */
  function DecodeScalar(data: seq<byte>, p: nat, objects: seq<Value>, t: byte): (r: Option<Decoded<Value>>)
    requires 0 < p <= |data|
    ensures r.Some? ==> p <= r.value.pos <= |data| && r.value.objects == objects
  {
    if t == 0 then
      if p + 8 <= |data| then Some(Decoded(Number(data[p..p + 8]), p + 8, objects)) else None
    else if t == 1 then
      if p < |data| then Some(Decoded(Boolean(data[p] != 0), p + 1, objects))
      else Some(Decoded(Boolean(false), p, objects))
    else if t == 2 || t == 4 || t == 12 || t == 15 then
      match ReadString(data, p, if t == 12 || t == 15 then 4 else 2)
      case None => None
      case Some(c) =>
        var v := if t == 4 then MovieClip(c.bytes) else if t == 15 then XmlDocument(c.bytes) else Str(c.bytes);
        Some(Decoded(v, c.next, objects))
    else if t == 5 || t == 6 then Some(Decoded(Null, p, objects))
    else if t == 7 then
      if p + 2 <= |data| && BeUint(data[p..p + 2]) < |objects| then
        Some(Decoded(objects[BeUint(data[p..p + 2])], p + 2, objects))
      else None
    else if t == 9 then Some(Decoded(EndOfObject, p, objects))
    else if t == 11 then
      if p + 10 <= |data| then Some(Decoded(Date(data[p..p + 8], BeUint(data[p + 8..p + 10])), p + 10, objects))
      else None
    else None
  }

  /**
   * An object whose marker `t` (3, 8 or 16) was just read: the four reserved
   * count bytes of an ECMA array (skipped as far as the data goes) or the class
   * name of a typed object, then the key loop. The finished object joins the
   * table.
   */
  function DecodeObject(data: seq<byte>, p: nat, objects: seq<Value>, t: byte): (r: Option<Decoded<Value>>)
    requires p <= |data|
    ensures r.Some? ==> p < r.value.pos <= |data|
    ensures r.Some? ==> objects < r.value.objects && r.value.objects[|r.value.objects| - 1] == r.value.value
    decreases |data| - p, 2
  {
    var p1 := if t == 8 then Min(p + 4, |data|) else p;
    var cls := if t == 16 then ReadString(data, p1, 2) else Some(Chars([], p1));
    match cls
    case None => None
    case Some(c) =>
      match DecodeEntries(data, c.next, objects, [])
      case None => None
      case Some(e) =>
        var obj := if t == 16 then TypedObject(c.bytes, e.value) else Object(e.value);
        Some(Decoded(obj, e.pos, e.objects + [obj]))
  }

  /** A strict array whose marker was just read: a 4-byte count, then that many values. */
  function DecodeArray(data: seq<byte>, p: nat, objects: seq<Value>): (r: Option<Decoded<Value>>)
    requires p <= |data|
    ensures r.Some? ==> p < r.value.pos <= |data|
    ensures r.Some? ==> objects < r.value.objects && r.value.objects[|r.value.objects| - 1] == r.value.value
    decreases |data| - p, 2
  {
    if p + 4 <= |data| then
      match DecodeItems(data, p + 4, objects, BeUint(data[p..p + 4]), [])
      case None => None
      case Some(a) => Some(Decoded(StrictArray(a.value), a.pos, a.objects + [StrictArray(a.value)]))
    else None
  }

  /**
   * The key loop of an object: key/value pairs are added to `acc` until a
   * value is the end-of-object marker. The result holds the entries of `acc`
   * followed by the new keys.
   */
  function DecodeEntries(data: seq<byte>, pos: nat, objects: seq<Value>, acc: seq<Entry>)
    : (r: Option<Decoded<seq<Entry>>>)
    requires pos <= |data|
    ensures r.Some? ==> pos < r.value.pos <= |data|
    ensures r.Some? ==> objects <= r.value.objects
    ensures r.Some? ==> |acc| <= |r.value.value|
    decreases |data| - pos, 1
  {
    match ReadString(data, pos, 2)
    case None => None
    case Some(key) =>
      match DecodeValue(data, key.next, objects)
      case None => None
      case Some(v) =>
        if v.value.EndOfObject? then Some(Decoded(acc, v.pos, v.objects))
        else DecodeEntries(data, v.pos, v.objects, Put(acc, key.bytes, v.value))
  }

  /** The elements of a strict array: `count` more values appended to `acc`. */
  function DecodeItems(data: seq<byte>, pos: nat, objects: seq<Value>, count: nat, acc: seq<Value>)
    : (r: Option<Decoded<seq<Value>>>)
    requires pos <= |data|
    ensures r.Some? ==> pos <= r.value.pos <= |data|
    ensures r.Some? ==> objects <= r.value.objects
    ensures r.Some? ==> |r.value.value| == |acc| + count
    decreases |data| - pos, 1
  {
    if count == 0 then Some(Decoded(acc, pos, objects))
    else
      match DecodeValue(data, pos, objects)
      case None => None
      case Some(v) => DecodeItems(data, v.pos, v.objects, count - 1, acc + [v.value])
  }

  /** The values decoded one after another from `pos` up to the first failure or the end of the data. */
  function DecodeFrom(data: seq<byte>, pos: nat, objects: seq<Value>): (r: seq<Value>)
    requires pos <= |data|
    ensures |r| <= |data| - pos
    decreases |data| - pos
  {
    if pos == |data| then []
    else
      match DecodeValue(data, pos, objects)
      case None => []
      case Some(v) => [v.value] + DecodeFrom(data, v.pos, v.objects)
  }

  /** What `AMF0.parse` returns for a message payload. */
  function DecodeAll(data: seq<byte>): seq<Value> {
    DecodeFrom(data, 0, [])
  }

  /** A decoder over one payload: the cursor and the reference table are updated in place. */
  class Reader {
    const data: seq<byte>
    var pos: nat
    var objects: seq<Value>

    constructor (data: seq<byte>)
      ensures this.data == data && pos == 0 && objects == []
    {
      this.data := data;
      pos := 0;
      objects := [];
    }

    /** `AMF0.read`: decodes one value, advancing the cursor and extending the table. */
    method Read() returns (v: Option<Value>)
      requires pos <= |data|
      modifies this
      ensures pos <= |data|
      ensures match DecodeValue(data, old(pos), old(objects))
              case None => v.None?
              case Some(d) => v == Some(d.value) && pos == d.pos && objects == d.objects
      decreases |data| - pos, 0
    {
      if pos == |data| {
        return None;
      }
      var t := data[pos];
      pos := pos + 1;
      if t == 3 || t == 8 || t == 16 {
        v := ReadObject(t);
      } else if t == 10 {
        v := ReadArray();
      } else {
        v := ReadScalar(t);
      }
    }

    /** A value without nested values, whose marker `t` was just read. */
    method ReadScalar(t: byte) returns (v: Option<Value>)
      requires 0 < pos <= |data|
      modifies this
      ensures pos <= |data|
      ensures match DecodeScalar(data, old(pos), old(objects), t)
              case None => v.None?
              case Some(d) => v == Some(d.value) && pos == d.pos && objects == d.objects
    {
      if t == 0 {
        if pos + 8 > |data| {
          return None;
        }
        v := Some(Number(data[pos..pos + 8]));
        pos := pos + 8;
      } else if t == 1 {
        if pos < |data| {
          v := Some(Boolean(data[pos] != 0));
          pos := pos + 1;
        } else {
          v := Some(Boolean(false));
        }
      } else if t == 2 || t == 4 || t == 12 || t == 15 {
        var c := ReadString(data, pos, if t == 12 || t == 15 then 4 else 2);
        if c.None? {
          return None;
        }
        pos := c.value.next;
        v := Some(if t == 4 then MovieClip(c.value.bytes)
                  else if t == 15 then XmlDocument(c.value.bytes)
                  else Str(c.value.bytes));
      } else if t == 5 || t == 6 {
        v := Some(Null);
      } else if t == 7 {
        if pos + 2 > |data| || BeUint(data[pos..pos + 2]) >= |objects| {
          return None;
        }
        v := Some(objects[BeUint(data[pos..pos + 2])]);
        pos := pos + 2;
      } else if t == 9 {
        v := Some(EndOfObject);
      } else if t == 11 {
        if pos + 10 > |data| {
          return None;
        }
        v := Some(Date(data[pos..pos + 8], BeUint(data[pos + 8..pos + 10])));
        pos := pos + 10;
      } else {
        v := None;
      }
    }

    /** A strict array, whose marker was just read: the item count, then the items. */
    method ReadArray() returns (v: Option<Value>)
      requires pos <= |data|
      modifies this
      ensures pos <= |data|
      ensures match DecodeArray(data, old(pos), old(objects))
              case None => v.None?
              case Some(d) => v == Some(d.value) && pos == d.pos && objects == d.objects
      decreases |data| - pos, 2
    {
      if pos + 4 > |data| {
        return None;
      }
      var count := BeUint(data[pos..pos + 4]);
      pos := pos + 4;
      var items := ReadItems(count);
      if items.None? {
        return None;
      }
      objects := objects + [StrictArray(items.value)];
      v := Some(StrictArray(items.value));
    }

    /**
     * The body of an object (marker `t` already read): the reserved count of an
     * ECMA array or the class name of a typed object, then the key loop; the
     * finished object is appended to the table.
     */
    method ReadObject(t: byte) returns (v: Option<Value>)
      requires pos <= |data|
      modifies this
      ensures pos <= |data|
      ensures match DecodeObject(data, old(pos), old(objects), t)
              case None => v.None?
              case Some(d) => v == Some(d.value) && pos == d.pos && objects == d.objects
      decreases |data| - pos, 2
    {
      if t == 8 {
        pos := Min(pos + 4, |data|);
      }
      var className: seq<byte> := [];
      if t == 16 {
        var c := ReadString(data, pos, 2);
        if c.None? {
          return None;
        }
        className, pos := c.value.bytes, c.value.next;
      }
      var entries := ReadEntries();
      if entries.None? {
        return None;
      }
      var obj := if t == 16 then TypedObject(className, entries.value) else Object(entries.value);
      objects := objects + [obj];
      v := Some(obj);
    }

    /** The key loop of an object: key/value pairs up to the end-of-object marker. */
    method ReadEntries() returns (entries: Option<seq<Entry>>)
      requires pos <= |data|
      modifies this
      ensures pos <= |data|
      ensures match DecodeEntries(data, old(pos), old(objects), [])
              case None => entries.None?
              case Some(d) => entries == Some(d.value) && pos == d.pos && objects == d.objects
      decreases |data| - pos, 1
    {
      ghost var start, objectsStart := pos, objects;
      var acc: seq<Entry> := [];
      while true
        invariant start <= pos <= |data|
        invariant DecodeEntries(data, pos, objects, acc) == DecodeEntries(data, start, objectsStart, [])
        decreases |data| - pos
      {
        var key := ReadString(data, pos, 2);
        if key.None? {
          return None;
        }
        pos := key.value.next;
        var value := Read();
        if value.None? {
          return None;
        }
        if value.value.EndOfObject? {
          return Some(acc);
        }
        acc := Put(acc, key.value.bytes, value.value);
      }
    }

    /** `count` values read one after another, as the list comprehension over `range(count)` does. */
    method ReadItems(count: nat) returns (items: Option<seq<Value>>)
      requires pos <= |data|
      modifies this
      ensures pos <= |data|
      ensures match DecodeItems(data, old(pos), old(objects), count, [])
              case None => items.None?
              case Some(d) => items == Some(d.value) && pos == d.pos && objects == d.objects
      decreases |data| - pos, 1
    {
      ghost var start, objectsStart := pos, objects;
      var acc: seq<Value> := [];
      var i: nat := 0;
      while i < count
        invariant start <= pos <= |data| && i <= count
        invariant DecodeItems(data, pos, objects, count - i, acc) == DecodeItems(data, start, objectsStart, count, [])
        decreases |data| - pos
      {
        var value := Read();
        if value.None? {
          return None;
        }
        acc := acc + [value.value];
        i := i + 1;
      }
      items := Some(acc);
    }
  }

  /** `AMF0.parse`: every value decoded before the end of the data or the first failure. */
  method Parse(data: seq<byte>) returns (values: seq<Value>)
    ensures values == DecodeAll(data)
  {
    var reader := new Reader(data);
    values := [];
    while reader.pos < |data|
      invariant reader.data == data && reader.pos <= |data|
      invariant values + DecodeFrom(data, reader.pos, reader.objects) == DecodeAll(data)
      decreases |data| - reader.pos
    {
      var v := reader.Read();
      if v.None? {
        return;
      }
      values := values + [v.value];
    }
  }
}
