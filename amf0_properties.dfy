/**
 * Properties of whole AMF0 payloads: a sequence of encoded values parses back
 * to itself, a parse that fails part-way keeps exactly the values decoded
 * before the failure, a back-reference yields the table entry at its index,
 * and a composite nested in another is recorded in the table before it.
 */
module Amf0Properties {
  import opened Wrappers
  import opened Bytes
  import opened Amf0
  import opened Amf0Encoding

  predicate AllEncodable(vs: seq<Value>) {
    forall i :: 0 <= i < |vs| ==> Encodable(vs[i])
  }

  /** The values of `vs` encoded one after another. */
  function EncodeAll(vs: seq<Value>): (r: seq<byte>)
    requires AllEncodable(vs)
    ensures vs != [] ==> |r| > 0
  {
    if vs == [] then [] else Encode(vs[0]) + EncodeAll(vs[1..])
  }

  /** The reference table after decoding the values of `vs` in turn. */
  function TableAfterAll(vs: seq<Value>, objects: seq<Value>): seq<Value> {
    if vs == [] then objects else TableAfterAll(vs[1..], TableAfter(vs[0], objects))
  }

  /** Markers the decoder has no case for. */
  predicate UnknownMarker(m: byte) {
    m == 13 || m == 14 || m > 16
  }

  /** Encoded values written at `pos` are decoded in turn, and decoding carries on after them. */
  lemma {:induction false} DecodeFromEncoded(vs: seq<Value>, data: seq<byte>, pos: nat, objects: seq<Value>)
    requires AllEncodable(vs) && At(data, pos, EncodeAll(vs))
    ensures DecodeFrom(data, pos, objects)
            == vs + DecodeFrom(data, After(pos, EncodeAll(vs)), TableAfterAll(vs, objects))
    decreases |vs|
  {
    if vs != [] {
      var v, rest := vs[0], vs[1..];
      var next, table := After(pos, Encode(v)), TableAfter(v, objects);
      assert AllEncodable(rest) by { TailEncodable(vs); }
      assert At(data, pos, Encode(v)) && At(data, next, EncodeAll(rest)) by {
        AtSplit(data, pos, Encode(v), EncodeAll(rest));
      }
      assert DecodeValue(data, pos, objects) == Some(Decoded(v, next, table)) by {
        DecodeEncoded(v, data, pos, objects);
      }
      assert DecodeFrom(data, pos, objects) == [v] + DecodeFrom(data, next, table) by {
        DecodeFromStep(data, pos, objects, Decoded(v, next, table));
      }
      var tail := DecodeFrom(data, After(pos, EncodeAll(vs)), TableAfterAll(vs, objects));
      assert DecodeFrom(data, next, table) == rest + tail && vs == [v] + rest by {
        DecodeFromEncoded(rest, data, next, table);
        AllJoin(vs, pos, objects);
      }
      Regroup([v], rest, tail);
    }
  }

  /** The first value and the values after it: their lengths and table updates add up. */
  lemma AllJoin(vs: seq<Value>, pos: nat, objects: seq<Value>)
    requires AllEncodable(vs) && vs != [] && AllEncodable(vs[1..])
    ensures vs == [vs[0]] + vs[1..]
    ensures After(After(pos, Encode(vs[0])), EncodeAll(vs[1..])) == After(pos, EncodeAll(vs))
    ensures TableAfterAll(vs[1..], TableAfter(vs[0], objects)) == TableAfterAll(vs, objects)
  {
    AfterConcat(pos, Encode(vs[0]), EncodeAll(vs[1..]));
  }

  lemma TailEncodable(vs: seq<Value>)
    requires AllEncodable(vs) && vs != []
    ensures AllEncodable(vs[1..])
  {
    forall i | 0 <= i < |vs[1..]| ensures Encodable(vs[1..][i]) {
      assert vs[1..][i] == vs[i + 1];
    }
  }

  /** One value decoded, then the parse goes on after it. */
  lemma DecodeFromStep(data: seq<byte>, pos: nat, objects: seq<Value>, d: Decoded<Value>)
    requires pos <= |data| && DecodeValue(data, pos, objects) == Some(d)
    ensures DecodeFrom(data, pos, objects) == [d.value] + DecodeFrom(data, d.pos, d.objects)
  {
  }

  /** The values written at the start of `data` begin the parse of `data`, which goes on from the table they leave. */
  lemma PrefixDecoded(vs: seq<Value>, tail: seq<byte>)
    requires AllEncodable(vs)
    ensures DecodeAll(EncodeAll(vs) + tail)
            == vs + DecodeFrom(EncodeAll(vs) + tail, |EncodeAll(vs)|, TableAfterAll(vs, []))
  {
    var data := EncodeAll(vs) + tail;
    assert data[..|EncodeAll(vs)|] == EncodeAll(vs);
    DecodeFromEncoded(vs, data, 0, []);
  }

  /** Parsing the encoding of a sequence of values gives the sequence back. */
  lemma ParseEncoded(vs: seq<Value>)
    requires AllEncodable(vs)
    ensures DecodeAll(EncodeAll(vs)) == vs
  {
    PrefixDecoded(vs, []);
    assert EncodeAll(vs) + [] == EncodeAll(vs);
  }

  /**
   * A parse that cannot decode the value after some encoded values returns
   * exactly those values: the failure discards nothing decoded before it and
   * nothing after it is looked at.
   */
  lemma PartialParse(vs: seq<Value>, tail: seq<byte>)
    requires AllEncodable(vs)
    requires DecodeValue(EncodeAll(vs) + tail, |EncodeAll(vs)|, TableAfterAll(vs, [])).None?
    ensures DecodeAll(EncodeAll(vs) + tail) == vs
  {
    PrefixDecoded(vs, tail);
  }

  /** An unknown marker after encoded values ends the parse with those values. */
  lemma UnknownMarkerStops(vs: seq<Value>, m: byte, rest: seq<byte>)
    requires AllEncodable(vs) && UnknownMarker(m)
    ensures DecodeAll(EncodeAll(vs) + ([m] + rest)) == vs
  {
    var data := EncodeAll(vs) + ([m] + rest);
    assert data[|EncodeAll(vs)|] == m;
    PartialParse(vs, [m] + rest);
  }

  /**
   * A back-reference (marker 7, then a 2-byte big-endian index) yields the
   * table entry at that index and leaves the table as it is; an index past
   * the end of the table is an error.
   */
  lemma Reference(data: seq<byte>, pos: nat, objects: seq<Value>, i: nat)
    requires i < 0x1_0000 && At(data, pos, [7] + BeBytes(i, 2))
    ensures i < |objects| ==> DecodeValue(data, pos, objects) == Some(Decoded(objects[i], pos + 3, objects))
    ensures i >= |objects| ==> DecodeValue(data, pos, objects).None?
  {
    AtSplit(data, pos, [7], BeBytes(i, 2));
    FieldAt(data, pos + 1, i, 2);
  }

  /** A back-reference to a table entry that does not exist yet ends the parse with the values before it. */
  lemma DanglingReferenceStops(vs: seq<Value>, i: nat, rest: seq<byte>)
    requires AllEncodable(vs) && i < 0x1_0000 && i >= |TableAfterAll(vs, [])|
    ensures DecodeAll(EncodeAll(vs) + ([7] + BeBytes(i, 2) + rest)) == vs
  {
    var data := EncodeAll(vs) + ([7] + BeBytes(i, 2) + rest);
    assert data[|EncodeAll(vs)|..|EncodeAll(vs)| + 3] == [7] + BeBytes(i, 2);
    Reference(data, |EncodeAll(vs)|, TableAfterAll(vs, []), i);
    PartialParse(vs, [7] + BeBytes(i, 2) + rest);
  }

  /** Decoding only appends to the reference table. */
  lemma {:induction false} TableGrows(v: Value, objects: seq<Value>)
    ensures objects <= TableAfter(v, objects)
    ensures IsComposite(v) ==> |TableAfter(v, objects)| > |objects| && TableAfter(v, objects)[|TableAfter(v, objects)| - 1] == v
    decreases v, 1
  {
    match v
    case Object(_) => TableGrowsEntries(v, 0, objects);
    case TypedObject(_, _) => TableGrowsEntries(v, 0, objects);
    case StrictArray(_) => TableGrowsItems(v, 0, objects);
    case _ =>
  }

  lemma {:induction false} TableGrowsEntries(v: Value, i: nat, objects: seq<Value>)
    requires HasEntries(v) && i <= |v.entries|
    ensures objects <= TableAfterEntries(v, i, objects)
    decreases v, 0, |v.entries| - i
  {
    if i < |v.entries| {
      var next := TableAfter(v.entries[i].value, objects);
      TableGrows(v.entries[i].value, objects);
      TableGrowsEntries(v, i + 1, next);
      PrefixTransitive(objects, next, TableAfterEntries(v, i + 1, next));
    }
  }

  lemma {:induction false} TableGrowsItems(v: Value, i: nat, objects: seq<Value>)
    requires v.StrictArray? && i <= |v.items|
    ensures objects <= TableAfterItems(v, i, objects)
    decreases v, 0, |v.items| - i
  {
    if i < |v.items| {
      var next := TableAfter(v.items[i], objects);
      TableGrows(v.items[i], objects);
      TableGrowsItems(v, i + 1, next);
      PrefixTransitive(objects, next, TableAfterItems(v, i + 1, next));
    }
  }

  lemma PrefixTransitive<T>(a: seq<T>, b: seq<T>, c: seq<T>)
    requires a <= b && b <= c
    ensures a <= c
  {
    assert c[..|a|] == b[..|a|];
  }

  /** A composite `c` finished while the table had `objects` as prefix sits after that prefix in any later table. */
  lemma Recorded(c: Value, objects: seq<Value>, later: seq<Value>)
    requires IsComposite(c) && TableAfter(c, objects) <= later && |objects| <= |later|
    ensures c in later[|objects|..]
  {
    TableGrows(c, objects);
    var k := |TableAfter(c, objects)| - 1;
    assert later[k] == c;
    assert later[|objects|..][k - |objects|] == c;
  }

  /** A composite entry of an object, from index `i` on, is recorded after the table it started from. */
  lemma {:induction false} EntryRecorded(v: Value, i: nat, j: nat, objects: seq<Value>)
    requires HasEntries(v) && i <= j < |v.entries| && IsComposite(v.entries[j].value)
    ensures |objects| <= |TableAfterEntries(v, i, objects)|
    ensures v.entries[j].value in TableAfterEntries(v, i, objects)[|objects|..]
    decreases j - i
  {
    var next := TableAfter(v.entries[i].value, objects);
    var result := TableAfterEntries(v, i, objects);
    TableGrows(v.entries[i].value, objects);
    if i == j {
      TableGrowsEntries(v, i + 1, next);
      Recorded(v.entries[j].value, objects, result);
    } else {
      EntryRecorded(v, i + 1, j, next);
      assert result[|objects|..][|next| - |objects|..] == result[|next|..];
    }
  }

  /** A composite element of a strict array, from index `i` on, is recorded after the table it started from. */
  lemma {:induction false} ItemRecorded(v: Value, i: nat, j: nat, objects: seq<Value>)
    requires v.StrictArray? && i <= j < |v.items| && IsComposite(v.items[j])
    ensures |objects| <= |TableAfterItems(v, i, objects)|
    ensures v.items[j] in TableAfterItems(v, i, objects)[|objects|..]
    decreases j - i
  {
    var next := TableAfter(v.items[i], objects);
    var result := TableAfterItems(v, i, objects);
    TableGrows(v.items[i], objects);
    if i == j {
      TableGrowsItems(v, i + 1, next);
      Recorded(v.items[j], objects, result);
    } else {
      ItemRecorded(v, i + 1, j, next);
      assert result[|objects|..][|next| - |objects|..] == result[|next|..];
    }
  }

  /** The composites directly inside `v`. */
  predicate Child(v: Value, c: Value) {
    IsComposite(c) &&
    ((HasEntries(v) && exists j :: 0 <= j < |v.entries| && v.entries[j].value == c) ||
     (v.StrictArray? && c in v.items))
  }

  /**
   * Decoding an encoded composite appends each composite directly inside it
   * to the table at a lower index than the container, which comes last.
   */
  lemma ChildBeforeContainer(v: Value, c: Value, data: seq<byte>, pos: nat, objects: seq<Value>)
    requires Encodable(v) && At(data, pos, Encode(v)) && Child(v, c)
    ensures DecodeValue(data, pos, objects).Some?
    ensures var t := DecodeValue(data, pos, objects).value.objects;
            t[|t| - 1] == v && exists k :: |objects| <= k < |t| - 1 && t[k] == c
  {
    DecodeEncoded(v, data, pos, objects);
    var t := TableAfter(v, objects);
    var body: seq<Value>;
    if HasEntries(v) && exists j :: 0 <= j < |v.entries| && v.entries[j].value == c {
      var j :| 0 <= j < |v.entries| && v.entries[j].value == c;
      EntryRecorded(v, 0, j, objects);
      body := TableAfterEntries(v, 0, objects);
    } else {
      var j :| 0 <= j < |v.items| && v.items[j] == c;
      ItemRecorded(v, 0, j, objects);
      body := TableAfterItems(v, 0, objects);
    }
    assert t == body + [v];
    var k :| 0 <= k < |body[|objects|..]| && body[|objects|..][k] == c;
    assert t[|objects| + k] == c;
  }
}
