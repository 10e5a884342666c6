/**
 * An AMF0 encoder for the values the decoder produces, and the properties that
 * tie the two together: decoding an encoded value gives it back and records its
 * composites in the reference table in completion order, a back-reference
 * yields the value recorded at its index, and a decode that meets an unknown
 * marker keeps exactly the values decoded before it.
 *
 * The encoder writes Str with marker 2, Object with marker 3 and Null with
 * marker 5; the other markers that decode to the same values (12, 8 and 6)
 * are not produced.
 */
module Amf0Encoding {
  import opened Wrappers
  import opened Bytes
  import opened Amf0

  predicate DistinctKeys(es: seq<Entry>) {
    forall i, j :: 0 <= i < j < |es| ==> es[i].key != es[j].key
  }

  /**
   * Values that have an encoding the decoder reads back unchanged: lengths fit
   * their prefixes, raw numbers are 8 bytes, object keys are distinct and no
   * object holds the end-of-object marker as a value.
   */
  predicate Encodable(v: Value)
    decreases v, 1
  {
    match v
    case Number(raw) => |raw| == 8
    case Boolean(_) => true
    case Str(s) => |s| < 0x1_0000
    case Object(es) => DistinctKeys(es) && EncodableEntries(v, 0)
    case TypedObject(c, es) => |c| < 0x1_0000 && DistinctKeys(es) && EncodableEntries(v, 0)
    case MovieClip(p) => |p| < 0x1_0000
    case Null => true
    case EndOfObject => true
    case StrictArray(items) => |items| < 0x1_0000_0000 && EncodableItems(v, 0)
    case Date(raw, tz) => |raw| == 8 && tz < 0x1_0000
    case XmlDocument(t) => |t| < 0x1_0000_0000
  }

  /** The entries of an object from index `i` on have encodable keys and values, none the end-of-object marker. */
  predicate EncodableEntries(v: Value, i: nat)
    requires HasEntries(v) && i <= |v.entries|
    decreases v, 0, |v.entries| - i
  {
    i == |v.entries| ||
    (var e := v.entries[i];
     |e.key| < 0x1_0000 && !e.value.EndOfObject? && Encodable(e.value) && EncodableEntries(v, i + 1))
  }

  /** The elements of a strict array from index `i` on are encodable. */
  predicate EncodableItems(v: Value, i: nat)
    requires v.StrictArray? && i <= |v.items|
    decreases v, 0, |v.items| - i
  {
    i == |v.items| || (Encodable(v.items[i]) && EncodableItems(v, i + 1))
  }

  predicate HasEntries(v: Value) {
    v.Object? || v.TypedObject?
  }

  /** The type marker written before a value's body. */
  function Marker(v: Value): byte {
    match v
    case Number(_) => 0
    case Boolean(_) => 1
    case Str(_) => 2
    case Object(_) => 3
    case MovieClip(_) => 4
    case Null => 5
    case EndOfObject => 9
    case StrictArray(_) => 10
    case Date(_, _) => 11
    case XmlDocument(_) => 15
    case TypedObject(_, _) => 16
  }

  /** `s` preceded by its length as a `width`-byte big-endian field. */
  function Prefixed(s: seq<byte>, width: nat): seq<byte>
    requires |s| < Pow256(width)
  {
    BeBytes(|s|, width) + s
  }

  /** The encoding of a value: its marker, then its body. */
  function Encode(v: Value): seq<byte>
    requires Encodable(v)
    decreases v, 2
  {
    [Marker(v)] + Body(v)
  }

  /** What follows the marker of `v`. */
  function Body(v: Value): seq<byte>
    requires Encodable(v)
    decreases v, 1
  {
    match v
    case Number(raw) => raw
    case Boolean(b) => [if b then 1 else 0]
    case Str(s) => Prefixed(s, 2)
    case Object(_) => EncodeEntries(v, 0)
    case TypedObject(c, _) => Prefixed(c, 2) + EncodeEntries(v, 0)
    case MovieClip(p) => Prefixed(p, 2)
    case Null => []
    case EndOfObject => []
    case StrictArray(items) => BeBytes(|items|, 4) + EncodeItems(v, 0)
    case Date(raw, tz) => raw + BeBytes(tz, 2)
    case XmlDocument(t) => Prefixed(t, 4)
  }

  /** The key/value pairs of an object from index `i` on, then the empty key and end-of-object marker. */
  function EncodeEntries(v: Value, i: nat): seq<byte>
    requires HasEntries(v) && i <= |v.entries| && EncodableEntries(v, i)
    decreases v, 0, |v.entries| - i, 1
  {
    if i == |v.entries| then [0, 0, 9] else EncodeEntry(v, i) + EncodeEntries(v, i + 1)
  }

  /** The key/value pair at index `i` of an object: the length-prefixed key, then the value. */
  function EncodeEntry(v: Value, i: nat): seq<byte>
    requires HasEntries(v) && i < |v.entries| && EncodableEntries(v, i)
    decreases v, 0, |v.entries| - i, 0
  {
    var e := v.entries[i];
    Prefixed(e.key, 2) + Encode(e.value)
  }

  /** The elements of a strict array from index `i` on. */
  function EncodeItems(v: Value, i: nat): seq<byte>
    requires v.StrictArray? && i <= |v.items| && EncodableItems(v, i)
    decreases v, 0, |v.items| - i
  {
    if i == |v.items| then [] else Encode(v.items[i]) + EncodeItems(v, i + 1)
  }

  /**
   * The reference table after decoding `v` from table `objects`: every nested
   * composite is appended when it finishes, before the composite that holds it.
   */
  function TableAfter(v: Value, objects: seq<Value>): seq<Value>
    decreases v, 1
  {
    match v
    case Object(_) => TableAfterEntries(v, 0, objects) + [v]
    case TypedObject(_, _) => TableAfterEntries(v, 0, objects) + [v]
    case StrictArray(_) => TableAfterItems(v, 0, objects) + [v]
    case _ => objects
  }

  function TableAfterEntries(v: Value, i: nat, objects: seq<Value>): seq<Value>
    requires HasEntries(v) && i <= |v.entries|
    decreases v, 0, |v.entries| - i
  {
    if i == |v.entries| then objects else TableAfterEntries(v, i + 1, TableAfter(v.entries[i].value, objects))
  }

  function TableAfterItems(v: Value, i: nat, objects: seq<Value>): seq<Value>
    requires v.StrictArray? && i <= |v.items|
    decreases v, 0, |v.items| - i
  {
    if i == |v.items| then objects else TableAfterItems(v, i + 1, TableAfter(v.items[i], objects))
  }

  /** A string whose length prefix holds `n` and whose body is all present is read whole. */
  lemma ReadWhole(data: seq<byte>, pos: nat, width: nat, n: nat)
    requires pos + width + n <= |data| && BeUint(data[pos..pos + width]) == n
    ensures ReadString(data, pos, width) == Some(Chars(data[pos + width..pos + width + n], pos + width + n))
  {
  }

  /** A length-prefixed string written at `pos` reads back whole. */
  lemma ReadEncodedString(data: seq<byte>, pos: nat, s: seq<byte>, n: nat, width: nat)
    requires n == |s| && n < Pow256(width)
    requires At(data, pos, BeBytes(n, width) + s)
    ensures ReadString(data, pos, width) == Some(Chars(s, After(pos, BeBytes(n, width) + s)))
  {
    AtSplit(data, pos, BeBytes(n, width), s);
    FieldAt(data, pos, n, width);
    ReadWhole(data, pos, width, n);
  }

  /** Decoding an encoded value gives it back, after exactly its bytes, with its composites appended to the table. */
  lemma {:induction false} DecodeEncoded(v: Value, data: seq<byte>, pos: nat, objects: seq<Value>)
    requires Encodable(v) && At(data, pos, Encode(v))
    ensures DecodeValue(data, pos, objects) == Some(Decoded(v, After(pos, Encode(v)), TableAfter(v, objects)))
    decreases v, 3, 0, 0
  {
    MarkerAt(v, data, pos);
    DecodeEncodedBody(v, data, pos + 1, objects);
  }

  /** An encoding starts with the marker byte, and the body follows it. */
  lemma MarkerAt(v: Value, data: seq<byte>, pos: nat)
    requires Encodable(v) && At(data, pos, Encode(v))
    ensures pos < |data| && data[pos] == Marker(v) && At(data, pos + 1, Body(v))
    ensures After(pos + 1, Body(v)) == After(pos, Encode(v))
  {
    AtSplit(data, pos, [Marker(v)], Body(v));
  }

  /** The body of `v`, read after its marker by the part of the decoder that marker selects. */
  lemma {:induction false} DecodeEncodedBody(v: Value, data: seq<byte>, p: nat, objects: seq<Value>)
    requires Encodable(v) && 0 < p && At(data, p, Body(v))
    ensures Marker(v) in {3, 16} ==>
              DecodeObject(data, p, objects, Marker(v)) == Some(Decoded(v, After(p, Body(v)), TableAfter(v, objects)))
    ensures Marker(v) == 10 ==>
              DecodeArray(data, p, objects) == Some(Decoded(v, After(p, Body(v)), TableAfter(v, objects)))
    ensures Marker(v) !in {3, 8, 10, 16} ==>
              DecodeScalar(data, p, objects, Marker(v)) == Some(Decoded(v, After(p, Body(v)), TableAfter(v, objects)))
    decreases v, 2, 0, 0
  {
    match v
    case Number(raw) => NumberBody(data, p, objects, raw);
    case Boolean(b) => BooleanBody(data, p, objects, b);
    case Str(s) => TextBody(data, p, objects, 2, s, 2);
    case MovieClip(s) => TextBody(data, p, objects, 4, s, 2);
    case XmlDocument(s) => TextBody(data, p, objects, 15, s, 4);
    case Null => NoBody(data, p, objects, 5);
    case EndOfObject => NoBody(data, p, objects, 9);
    case Date(raw, tz) => DateBody(data, p, objects, raw, tz);
    case Object(_) => ObjectBody(v, data, p, objects);
    case TypedObject(_, _) => TypedObjectBody(v, data, p, objects);
    case StrictArray(_) => ArrayBody(v, data, p, objects);
  }

  lemma NumberBody(data: seq<byte>, p: nat, objects: seq<Value>, raw: seq<byte>)
    requires 0 < p && |raw| == 8 && At(data, p, raw)
    ensures DecodeScalar(data, p, objects, 0) == Some(Decoded(Number(raw), After(p, raw), objects))
  {
  }

  lemma BooleanBody(data: seq<byte>, p: nat, objects: seq<Value>, b: bool)
    requires 0 < p && At(data, p, [if b then 1 else 0])
    ensures DecodeScalar(data, p, objects, 1) == Some(Decoded(Boolean(b), After(p, [if b then 1 else 0]), objects))
  {
  }

  /**
   * Strings (marker 2), movie clips (4), long strings (12) and XML documents
   * (15): a byte string with a 2-byte length prefix, or a 4-byte one for 12
   * and 15. A long string decodes to the same value as a string.
   */
  lemma TextBody(data: seq<byte>, p: nat, objects: seq<Value>, t: byte, s: seq<byte>, width: nat)
    requires 0 < p && t in {2, 4, 12, 15} && width == (if t in {12, 15} then 4 else 2)
    requires |s| < Pow256(width) && At(data, p, Prefixed(s, width))
    ensures DecodeScalar(data, p, objects, t)
            == Some(Decoded(if t == 4 then MovieClip(s) else if t == 15 then XmlDocument(s) else Str(s),
                            After(p, Prefixed(s, width)), objects))
  {
    ReadEncodedString(data, p, s, |s|, width);
  }

  /** Null (marker 5), undefined (6) and the end-of-object marker (9) have no body; undefined decodes as null. */
  lemma NoBody(data: seq<byte>, p: nat, objects: seq<Value>, t: byte)
    requires 0 < p <= |data| && t in {5, 6, 9}
    ensures DecodeScalar(data, p, objects, t) == Some(Decoded(if t == 9 then EndOfObject else Null, After(p, []), objects))
  {
  }

  lemma DateBody(data: seq<byte>, p: nat, objects: seq<Value>, raw: seq<byte>, tz: nat)
    requires 0 < p && |raw| == 8 && tz < 0x1_0000 && At(data, p, raw + BeBytes(tz, 2))
    ensures DecodeScalar(data, p, objects, 11) == Some(Decoded(Date(raw, tz), After(p, raw + BeBytes(tz, 2)), objects))
  {
    AtSplit(data, p, raw, BeBytes(tz, 2));
    FieldAt(data, p + 8, tz, 2);
  }

  /**
   * An ECMA array (marker 8) skips its 4-byte count and then decodes as an
   * object: the key loop, then the object joins the table.
   */
  lemma EcmaArrayBody(data: seq<byte>, p: nat, objects: seq<Value>)
    requires p + 4 <= |data|
    ensures DecodeObject(data, p, objects, 8) == DecodeObject(data, p + 4, objects, 3)
  {
  }

  /** An object (marker 3): the key loop, then the object joins the table. */
  lemma {:induction false} ObjectBody(v: Value, data: seq<byte>, p: nat, objects: seq<Value>)
    requires Encodable(v) && v.Object? && At(data, p, EncodeEntries(v, 0))
    ensures DecodeObject(data, p, objects, 3)
            == Some(Decoded(v, After(p, EncodeEntries(v, 0)), TableAfterEntries(v, 0, objects) + [v]))
    decreases v, 0, |v.entries| + 1, 0
  {
    assert v.entries[..0] == [];
    DecodeEncodedEntries(v, 0, data, p, objects);
    ObjectStep(data, p, objects, Decoded(v.entries, After(p, EncodeEntries(v, 0)), TableAfterEntries(v, 0, objects)));
  }

  /** A typed object (marker 16): the class name, then the key loop, then the object joins the table. */
  lemma {:induction false} TypedObjectBody(v: Value, data: seq<byte>, p: nat, objects: seq<Value>)
    requires Encodable(v) && v.TypedObject?
    requires At(data, p, Prefixed(v.className, 2) + EncodeEntries(v, 0))
    ensures DecodeObject(data, p, objects, 16)
            == Some(Decoded(v, After(p, Prefixed(v.className, 2) + EncodeEntries(v, 0)), TableAfterEntries(v, 0, objects) + [v]))
    decreases v, 0, |v.entries| + 1, 0
  {
    var name := Prefixed(v.className, 2);
    var q := After(p, name);
    var e := Decoded(v.entries, After(q, EncodeEntries(v, 0)), TableAfterEntries(v, 0, objects));
    assert ReadString(data, p, 2) == Some(Chars(v.className, q)) && At(data, q, EncodeEntries(v, 0)) by {
      AtSplit(data, p, name, EncodeEntries(v, 0));
      ReadEncodedString(data, p, v.className, |v.className|, 2);
    }
    assert DecodeEntries(data, q, objects, []) == Some(e) by {
      assert v.entries[..0] == [];
      DecodeEncodedEntries(v, 0, data, q, objects);
    }
    TypedObjectStep(data, p, objects, Chars(v.className, q), e);
    AfterConcat(p, name, EncodeEntries(v, 0));
  }

  /** A strict array (marker 10): the element count, the elements, then the array joins the table. */
  lemma {:induction false} ArrayBody(v: Value, data: seq<byte>, p: nat, objects: seq<Value>)
    requires Encodable(v) && v.StrictArray?
    requires At(data, p, BeBytes(|v.items|, 4) + EncodeItems(v, 0))
    ensures DecodeArray(data, p, objects)
            == Some(Decoded(v, After(p, BeBytes(|v.items|, 4) + EncodeItems(v, 0)), TableAfterItems(v, 0, objects) + [v]))
    decreases v, 0, |v.items| + 1, 0
  {
    var count := BeBytes(|v.items|, 4);
    AtSplit(data, p, count, EncodeItems(v, 0));
    FieldAt(data, p, |v.items|, 4);
    assert v.items[..0] == [];
    DecodeEncodedItems(v, 0, data, After(p, count), objects);
    var a := Decoded(v.items, After(After(p, count), EncodeItems(v, 0)), TableAfterItems(v, 0, objects));
    ArrayStep(data, p, objects, a);
    AfterConcat(p, count, EncodeItems(v, 0));
  }

  /** How the decoder reads an object (marker 3) whose key loop yields `e`. */
  lemma ObjectStep(data: seq<byte>, pos: nat, objects: seq<Value>, e: Decoded<seq<Entry>>)
    requires pos <= |data|
    requires DecodeEntries(data, pos, objects, []) == Some(e)
    ensures DecodeObject(data, pos, objects, 3) == Some(Decoded(Object(e.value), e.pos, e.objects + [Object(e.value)]))
  {
  }

  /** How the decoder reads a typed object (marker 16) named by `c` whose key loop yields `e`. */
  lemma TypedObjectStep(data: seq<byte>, pos: nat, objects: seq<Value>, c: Chars, e: Decoded<seq<Entry>>)
    requires pos <= |data| && ReadString(data, pos, 2) == Some(c)
    requires DecodeEntries(data, c.next, objects, []) == Some(e)
    ensures DecodeObject(data, pos, objects, 16)
            == Some(Decoded(TypedObject(c.bytes, e.value), e.pos, e.objects + [TypedObject(c.bytes, e.value)]))
  {
  }

  /** How the decoder reads a strict array (marker 10) whose elements decode to `a`. */
  lemma ArrayStep(data: seq<byte>, pos: nat, objects: seq<Value>, a: Decoded<seq<Value>>)
    requires pos + 4 <= |data|
    requires DecodeItems(data, pos + 4, objects, BeUint(data[pos..pos + 4]), []) == Some(a)
    ensures DecodeArray(data, pos, objects)
            == Some(Decoded(StrictArray(a.value), a.pos, a.objects + [StrictArray(a.value)]))
  {
  }

  /** The key loop over the entries of `v` from index `i` on reads them all back, in order. */
  lemma {:induction false} DecodeEncodedEntries(v: Value, i: nat, data: seq<byte>, pos: nat, objects: seq<Value>)
    requires HasEntries(v) && i <= |v.entries| && DistinctKeys(v.entries) && EncodableEntries(v, i)
    requires At(data, pos, EncodeEntries(v, i))
    ensures DecodeEntries(data, pos, objects, v.entries[..i])
            == Some(Decoded(v.entries, After(pos, EncodeEntries(v, i)), TableAfterEntries(v, i, objects)))
    decreases v, 0, |v.entries| - i, 1
  {
    if i == |v.entries| {
      EntriesEndEncoded(v, data, pos, objects);
    } else {
      EntryHead(v, i, data, pos, objects);
      DecodeEncodedEntries(v, i + 1, data, After(pos, EncodeEntry(v, i)), TableAfter(v.entries[i].value, objects));
      EntriesJoin(v, i, pos, objects);
    }
  }

  /** The empty key and end-of-object marker that close an encoded object end the key loop. */
  lemma EntriesEndEncoded(v: Value, data: seq<byte>, pos: nat, objects: seq<Value>)
    requires HasEntries(v) && At(data, pos, EncodeEntries(v, |v.entries|))
    ensures DecodeEntries(data, pos, objects, v.entries[..|v.entries|])
            == Some(Decoded(v.entries, After(pos, EncodeEntries(v, |v.entries|)), TableAfterEntries(v, |v.entries|, objects)))
  {
    var zeros: seq<byte> := [0, 0];
    assert EncodeEntries(v, |v.entries|) == zeros + [9];
    AtSplit(data, pos, zeros, [9]);
    assert BeUint(zeros) == 0 by {
      assert zeros[..1][..0] == [];
    }
    assert v.entries[..|v.entries|] == v.entries;
    assert ReadString(data, pos, 2) == Some(Chars([], pos + 2));
    EntriesEnd(data, pos, objects, v.entries, Chars([], pos + 2));
  }

  /** The entry at index `i` followed by the entries after it: their lengths and table updates add up. */
  lemma EntriesJoin(v: Value, i: nat, pos: nat, objects: seq<Value>)
    requires HasEntries(v) && i < |v.entries| && EncodableEntries(v, i)
    ensures Some(Decoded(v.entries, After(After(pos, EncodeEntry(v, i)), EncodeEntries(v, i + 1)),
                         TableAfterEntries(v, i + 1, TableAfter(v.entries[i].value, objects))))
            == Some(Decoded(v.entries, After(pos, EncodeEntries(v, i)), TableAfterEntries(v, i, objects)))
  {
  }

  /** One encoded key/value pair: the key loop takes it and goes on after it. */
  lemma EntryHead(v: Value, i: nat, data: seq<byte>, pos: nat, objects: seq<Value>)
    requires HasEntries(v) && i < |v.entries| && DistinctKeys(v.entries) && EncodableEntries(v, i)
    requires At(data, pos, EncodeEntries(v, i))
    ensures At(data, After(pos, EncodeEntry(v, i)), EncodeEntries(v, i + 1))
    ensures DecodeEntries(data, pos, objects, v.entries[..i])
            == DecodeEntries(data, After(pos, EncodeEntry(v, i)), TableAfter(v.entries[i].value, objects), v.entries[..i + 1])
    decreases v, 0, |v.entries| - i, 0
  {
    EntryAt(v, i, data, pos);
    KeyValueStep(data, pos, objects, v.entries[..i], v.entries[i].key, v.entries[i].value);
    PutFresh(v.entries, i);
  }

  /** Where the key, the value and the rest of the entries lie once the entry at index `i` is written at `pos`. */
  lemma EntryAt(v: Value, i: nat, data: seq<byte>, pos: nat)
    requires HasEntries(v) && i < |v.entries| && EncodableEntries(v, i)
    requires At(data, pos, EncodeEntries(v, i))
    ensures var keyBytes := Prefixed(v.entries[i].key, 2);
            At(data, pos, keyBytes) &&
            At(data, After(pos, keyBytes), Encode(v.entries[i].value)) &&
            After(After(pos, keyBytes), Encode(v.entries[i].value)) == After(pos, EncodeEntry(v, i))
    ensures At(data, After(pos, EncodeEntry(v, i)), EncodeEntries(v, i + 1))
  {
    var e := v.entries[i];
    var keyBytes := Prefixed(e.key, 2);
    AtSplit(data, pos, EncodeEntry(v, i), EncodeEntries(v, i + 1));
    assert EncodeEntry(v, i) == keyBytes + Encode(e.value);
    AtSplit(data, pos, keyBytes, Encode(e.value));
    AfterConcat(pos, keyBytes, Encode(e.value));
  }

  /** A key written with its length, then an encoded value: one turn of the key loop. */
  lemma KeyValueStep(data: seq<byte>, pos: nat, objects: seq<Value>, acc: seq<Entry>, key: seq<byte>, x: Value)
    requires |key| < 0x1_0000 && Encodable(x) && !x.EndOfObject?
    requires At(data, pos, Prefixed(key, 2))
    requires At(data, After(pos, Prefixed(key, 2)), Encode(x))
    ensures DecodeEntries(data, pos, objects, acc)
            == DecodeEntries(data, After(After(pos, Prefixed(key, 2)), Encode(x)), TableAfter(x, objects), Put(acc, key, x))
    decreases x, 4, 0, 0
  {
    var keyBytes := Prefixed(key, 2);
    ReadEncodedString(data, pos, key, |key|, 2);
    DecodeEncoded(x, data, After(pos, keyBytes), objects);
    var d := Decoded(x, After(After(pos, keyBytes), Encode(x)), TableAfter(x, objects));
    EntriesStep(data, pos, objects, acc, Chars(key, After(pos, keyBytes)), d);
  }

  /** With distinct keys, assigning the key at index `i` after the entries before it appends that entry. */
  lemma PutFresh(es: seq<Entry>, i: nat)
    requires DistinctKeys(es) && i < |es|
    ensures Put(es[..i], es[i].key, es[i].value) == es[..i + 1]
  {
    assert !HasKey(es[..i], es[i].key) by {
      forall j | 0 <= j < |es[..i]| ensures es[..i][j].key != es[i].key {
        assert es[..i][j] == es[j];
      }
    }
    assert es[..i] + [Entry(es[i].key, es[i].value)] == es[..i + 1];
  }

  /**
   * The key loop ends at any key followed by the end-of-object marker: the
   * key is dropped, the entries so far are the object's, and the table is
   * left as it was.
   */
  lemma EntriesEnd(data: seq<byte>, pos: nat, objects: seq<Value>, acc: seq<Entry>, key: Chars)
    requires pos <= |data| && ReadString(data, pos, 2) == Some(key) && key.next < |data| && data[key.next] == 9
    ensures DecodeEntries(data, pos, objects, acc) == Some(Decoded(acc, key.next + 1, objects))
  {
  }

  /** One turn of the key loop: a key, then a value other than the end-of-object marker. */
  lemma EntriesStep(data: seq<byte>, pos: nat, objects: seq<Value>, acc: seq<Entry>, key: Chars, d: Decoded<Value>)
    requires pos <= |data| && ReadString(data, pos, 2) == Some(key)
    requires DecodeValue(data, key.next, objects) == Some(d) && !d.value.EndOfObject?
    ensures DecodeEntries(data, pos, objects, acc) == DecodeEntries(data, d.pos, d.objects, Put(acc, key.bytes, d.value))
  {
  }

  /** The elements of `v` from index `i` on decode back in order. */
  lemma {:induction false} DecodeEncodedItems(v: Value, i: nat, data: seq<byte>, pos: nat, objects: seq<Value>)
    requires v.StrictArray? && i <= |v.items| && EncodableItems(v, i)
    requires At(data, pos, EncodeItems(v, i))
    ensures DecodeItems(data, pos, objects, |v.items| - i, v.items[..i])
            == Some(Decoded(v.items, After(pos, EncodeItems(v, i)), TableAfterItems(v, i, objects)))
    decreases v, 0, |v.items| - i, 1
  {
    if i == |v.items| {
      ItemsEndEncoded(v, data, pos, objects);
    } else {
      var x := v.items[i];
      ItemHead(v, i, data, pos, objects);
      DecodeEncodedItems(v, i + 1, data, After(pos, Encode(x)), TableAfter(x, objects));
      ItemsJoin(v, i, pos, objects);
    }
  }

  /** After the last element the element loop stops. */
  lemma ItemsEndEncoded(v: Value, data: seq<byte>, pos: nat, objects: seq<Value>)
    requires v.StrictArray? && pos <= |data|
    ensures DecodeItems(data, pos, objects, 0, v.items[..|v.items|])
            == Some(Decoded(v.items, After(pos, EncodeItems(v, |v.items|)), TableAfterItems(v, |v.items|, objects)))
  {
    assert v.items[..|v.items|] == v.items;
  }

  /** The element at index `i` followed by the elements after it: their lengths and table updates add up. */
  lemma ItemsJoin(v: Value, i: nat, pos: nat, objects: seq<Value>)
    requires v.StrictArray? && i < |v.items| && EncodableItems(v, i)
    ensures Some(Decoded(v.items, After(After(pos, Encode(v.items[i])), EncodeItems(v, i + 1)),
                         TableAfterItems(v, i + 1, TableAfter(v.items[i], objects))))
            == Some(Decoded(v.items, After(pos, EncodeItems(v, i)), TableAfterItems(v, i, objects)))
  {
  }

  /** One encoded element: the element loop takes it and goes on after it. */
  lemma {:induction false} ItemHead(v: Value, i: nat, data: seq<byte>, pos: nat, objects: seq<Value>)
    requires v.StrictArray? && i < |v.items| && EncodableItems(v, i)
    requires At(data, pos, EncodeItems(v, i))
    ensures At(data, After(pos, Encode(v.items[i])), EncodeItems(v, i + 1))
    ensures DecodeItems(data, pos, objects, |v.items| - i, v.items[..i])
            == DecodeItems(data, After(pos, Encode(v.items[i])), TableAfter(v.items[i], objects), |v.items| - (i + 1), v.items[..i + 1])
    decreases v, 0, |v.items| - i, 0
  {
    var x := v.items[i];
    AtSplit(data, pos, Encode(x), EncodeItems(v, i + 1));
    DecodeEncoded(x, data, pos, objects);
    var d := Decoded(x, After(pos, Encode(x)), TableAfter(x, objects));
    ItemsStep(data, pos, objects, |v.items| - i, v.items[..i], d);
    TakeNext(v.items, i);
  }

  lemma TakeNext<T>(s: seq<T>, i: nat)
    requires i < |s|
    ensures s[..i] + [s[i]] == s[..i + 1]
  {
  }

  /** One element of a strict array. */
  lemma ItemsStep(data: seq<byte>, pos: nat, objects: seq<Value>, count: nat, acc: seq<Value>, d: Decoded<Value>)
    requires pos <= |data| && count > 0 && DecodeValue(data, pos, objects) == Some(d)
    ensures DecodeItems(data, pos, objects, count, acc) == DecodeItems(data, d.pos, d.objects, count - 1, acc + [d.value])
  {
  }
}
