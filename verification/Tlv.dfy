/**
 * The LwM2M TLV codec (internal/protocol/lwm2m/codec_tlv.go): "Resource with Value"
 * records with an explicit length, and integer values of one to eight bytes.
 */
module Tlv {
  import opened Basics
  import opened Bytes

  datatype Entry = Entry(id: int, value: seq<Byte>)
  // One decoded record and the bytes it takes.
  datatype Record = Record(entry: Entry, size: nat)

  // ------------------------------------------------------------------ encoding

  predicate Encodable(e: Entry) { 0 <= e.id <= 0xffff_ffff && |e.value| <= 0xffff }

  function IdWidth(id: nat): nat { if id <= 0xff then 1 else if id <= 0xffff then 2 else 4 }
  function LenWidth(n: nat): nat { if n <= 0xff then 1 else 2 }
  // The II field: 0, 1, 2 for one, two and four identifier bytes.
  function IdCode(width: nat): nat { if width == 4 then 2 else if width == 2 then 1 else 0 }

  function TypeByte(id: nat, len: nat): Byte { 0xc0 + IdCode(IdWidth(id)) * 8 + LenWidth(len) }

  function EncodeEntry(e: Entry): (b: seq<Byte>)
    requires Encodable(e)
  {
    [TypeByte(e.id, |e.value|)] + Put(e.id, IdWidth(e.id)) + Put(|e.value|, LenWidth(|e.value|)) + e.value
  }

  // None: some identifier or value length is out of range.
  function Encode(es: seq<Entry>): Option<seq<Byte>> {
    if es == [] then Some([])
    else
      var last := es[|es| - 1];
      var init := Encode(es[..|es| - 1]);
      if init.None? || !Encodable(last) then None else Some(init.value + EncodeEntry(last))
  }

  method EncodeTLV(es: seq<Entry>) returns (r: Option<seq<Byte>>)
    ensures r == Encode(es)
  {
    var buf := [];
    for i := 0 to |es|
      invariant Encode(es[..i]) == Some(buf)
    {
      assert es[..i + 1][..i] == es[..i];
      if !Encodable(es[i]) {
        StaysNone(es, i + 1);
        return None;
      }
      buf := buf + EncodeEntry(es[i]);
    }
    assert es[..|es|] == es;
    return Some(buf);
  }

  lemma {:induction false} StaysNone(es: seq<Entry>, i: nat)
    requires i <= |es| && Encode(es[..i]) == None
    ensures Encode(es) == None
    decreases |es| - i
  {
    if i < |es| {
      assert es[..i + 1][..i] == es[..i];
      StaysNone(es, i + 1);
    } else {
      assert es[..i] == es;
    }
  }

  // ------------------------------------------------------------------ decoding

  // The big-endian number in the next n bytes, if they are there.
  function Take(data: seq<Byte>, at: nat, n: nat): Option<nat> {
    if at + n > |data| then None else Some(Value(data[at..at + n]))
  }

  // Identifier and length widths; zero stands for the codes that are refused.
  function IdBytes(code: nat): nat { if code == 0 then 1 else if code == 1 then 2 else if code == 2 then 4 else 0 }
  function LenBytes(code: nat): nat { if 1 <= code <= 4 then code else 0 }

  // The record at the front of data; None when decoding fails there.
  function ReadRecord(data: seq<Byte>): (r: Option<Record>)
    requires data != []
    ensures r.Some? ==> 3 <= r.value.size <= |data|
  {
    var t := data[0];
    var w, n := IdBytes(t / 8 % 4), LenBytes(t % 8);
    if t / 64 != 3 || w == 0 then None
    else
      var id := Take(data, 1, w);
      if id.None? || n == 0 then None
      else
        var len := Take(data, 1 + w, n);
        var at := 1 + w + n;
        if len.None? || at + len.value > |data| then None
        else Some(Record(Entry(id.value, data[at..at + len.value]), at + len.value))
  }

  function Decode(data: seq<Byte>): Option<seq<Entry>> {
    if data == [] then Some([])
    else
      var r := ReadRecord(data);
      if r.None? then None else Prefixed([r.value.entry], Decode(data[r.value.size..]))
  }

  function Prefixed(es: seq<Entry>, rest: Option<seq<Entry>>): Option<seq<Entry>> {
    if rest.None? then None else Some(es + rest.value)
  }

  lemma PrefixedNone(rest: Option<seq<Entry>>)
    ensures Prefixed([], rest) == rest
  {
    assert rest.Some? ==> [] + rest.value == rest.value;
  }

  lemma PrefixedOnce(es: seq<Entry>, e: Entry, rest: Option<seq<Entry>>)
    ensures Prefixed(es, Prefixed([e], rest)) == Prefixed(es + [e], rest)
  {
    if rest.Some? {
      assert es + ([e] + rest.value) == es + [e] + rest.value;
    }
  }

  lemma DecodeFirst(data: seq<Byte>, e: Entry, size: nat, rest: seq<Byte>)
    requires data != [] && ReadRecord(data) == Some(Record(e, size)) && data[size..] == rest
    ensures Decode(data) == Prefixed([e], Decode(rest))
  {
  }

  lemma DecodeTurn(results: seq<Entry>, data: seq<Byte>, rec: Record, rest: seq<Byte>)
    requires data != [] && ReadRecord(data) == Some(rec) && data[rec.size..] == rest
    ensures Prefixed(results, Decode(data)) == Prefixed(results + [rec.entry], Decode(rest))
  {
    DecodeFirst(data, rec.entry, rec.size, rest);
    PrefixedOnce(results, rec.entry, Decode(rest));
  }

  // One turn of the loop: every read of data is checked to be in range.
  method NextRecord(data: seq<Byte>, start: nat) returns (r: Option<Record>)
    requires start < |data|
    ensures r == ReadRecord(data[start..])
    ensures r.Some? ==> start + r.value.size <= |data|
  {
    var t, offset := data[start], start + 1;
    ghost var d := data[start..];
    if t / 64 != 3 {
      return None;
    }
    var w := IdBytes(t / 8 % 4);
    if w == 0 || offset + w > |data| {
      return None;
    }
    var id := Value(data[offset..offset + w]);
    assert data[offset..offset + w] == d[1..1 + w];
    offset := offset + w;
    var n := LenBytes(t % 8);
    if n == 0 || offset + n > |data| {
      return None;
    }
    var len := Value(data[offset..offset + n]);
    assert data[offset..offset + n] == d[1 + w..1 + w + n];
    offset := offset + n;
    if offset + len > |data| {
      return None;
    }
    assert data[offset..offset + len] == d[1 + w + n..1 + w + n + len];
    return Some(Record(Entry(id, data[offset..offset + len]), offset + len - start));
  }

  method DecodeTLV(data: seq<Byte>) returns (r: Option<seq<Entry>>)
    ensures r == Decode(data)
  {
    var results := [];
    var offset := 0;
    ghost var whole, rest := Decode(data), data;
    PrefixedNone(whole);
    while offset < |data|
      invariant offset <= |data| && rest == data[offset..]
      invariant whole == Prefixed(results, Decode(rest))
    {
      var rec := NextRecord(data, offset);
      if rec.None? {
        return None;
      }
      ghost var after := data[offset + rec.value.size..];
      DecodeTurn(results, rest, rec.value, after);
      results := results + [rec.value.entry];
      offset := offset + rec.value.size;
      rest := after;
    }
    assert Decode(rest) == Some([]) && results + [] == results;
    return Some(results);
  }

  // ------------------------------------------------------------------ round trip

  lemma TypeByteFields(id: nat, len: nat)
    ensures var t := TypeByte(id, len);
            t / 64 == 3 && IdBytes(t / 8 % 4) == IdWidth(id) && LenBytes(t % 8) == LenWidth(len)
  {
  }

  lemma PutFits(v: nat, n: nat)
    requires (n == 1 && v <= 0xff) || (n == 2 && v <= 0xffff) || (n == 4 && v <= 0xffff_ffff)
    ensures Value(Put(v, n)) == v
  {
    assert Pow256(1) == 256 && Pow256(2) == 0x1_0000;
    assert Pow256(4) == Pow256(2) * 256 * 256;
    ValueOfPut(v, n);
  }

  lemma ReadEncoded(e: Entry, rest: seq<Byte>)
    requires Encodable(e)
    ensures ReadRecord(EncodeEntry(e) + rest) == Some(Record(e, |EncodeEntry(e)|))
  {
    var w, n := IdWidth(e.id), LenWidth(|e.value|);
    TypeByteFields(e.id, |e.value|);
    PutFits(e.id, w);
    PutFits(|e.value|, n);
    ReadParts(TypeByte(e.id, |e.value|), Put(e.id, w), Put(|e.value|, n), e.value, rest, EncodeEntry(e) + rest);
  }

  lemma ReadFields(data: seq<Byte>, w: nat, n: nat, id: nat, value: seq<Byte>)
    requires data != [] && data[0] / 64 == 3 && 1 + w + n + |value| <= |data|
    requires IdBytes(data[0] / 8 % 4) == w > 0 && LenBytes(data[0] % 8) == n > 0
    requires Value(data[1..1 + w]) == id && Value(data[1 + w..1 + w + n]) == |value|
    requires data[1 + w + n..1 + w + n + |value|] == value
    ensures ReadRecord(data) == Some(Record(Entry(id, value), 1 + w + n + |value|))
  {
  }

  lemma ReadParts(t: Byte, id: seq<Byte>, len: seq<Byte>, value: seq<Byte>, rest: seq<Byte>, data: seq<Byte>)
    requires data == [t] + id + len + value + rest && t / 64 == 3
    requires IdBytes(t / 8 % 4) == |id| > 0 && LenBytes(t % 8) == |len| > 0 && Value(len) == |value|
    ensures ReadRecord(data) == Some(Record(Entry(Value(id), value), 1 + |id| + |len| + |value|))
  {
    var w, n := |id|, |len|;
    assert data[0] == t && data[1..1 + w] == id && data[1 + w..1 + w + n] == len &&
      data[1 + w + n..1 + w + n + |value|] == value by {
      Slices([t], id, len, value, rest, data);
    }
    ReadFields(data, |id|, |len|, Value(id), value);
  }

  lemma DecodeNext(init: seq<Entry>, buf: seq<Byte>, last: Entry, rec: seq<Byte>, tail: seq<Byte>)
    requires rec != [] && ReadRecord(rec + tail) == Some(Record(last, |rec|))
    requires Decode(buf + (rec + tail)) == Prefixed(init, Decode(rec + tail))
    ensures Decode(buf + rec + tail) == Prefixed(init + [last], Decode(tail))
  {
    assert buf + rec + tail == buf + (rec + tail);
    DecodeFirst(rec + tail, last, |rec|, tail);
    PrefixedOnce(init, last, Decode(tail));
  }

  lemma {:induction false} DecodeEncoded(es: seq<Entry>, buf: seq<Byte>, tail: seq<Byte>)
    requires Encode(es) == Some(buf)
    ensures Decode(buf + tail) == Prefixed(es, Decode(tail))
    decreases |es|
  {
    if es == [] {
      assert buf + tail == tail;
      PrefixedNone(Decode(tail));
    } else {
      var init, last := es[..|es| - 1], es[|es| - 1];
      var rec, initBuf := EncodeEntry(last), Encode(init).value;
      DecodeEncoded(init, initBuf, rec + tail);
      ReadEncoded(last, tail);
      DecodeNext(init, initBuf, last, rec, tail);
      assert es == init + [last];
    }
  }

  // Encoding succeeds exactly for identifiers and values in range, and then decoding
  // returns the same list with nothing left over.
  lemma {:induction false} EncodeSucceeds(es: seq<Entry>)
    ensures Encode(es).Some? <==> forall i :: 0 <= i < |es| ==> Encodable(es[i])
    decreases |es|
  {
    if es != [] {
      EncodeSucceeds(es[..|es| - 1]);
    }
  }

  lemma DecodeUndoesEncode(es: seq<Entry>)
    requires Encode(es).Some?
    ensures Decode(Encode(es).value) == Some(es)
  {
    DecodeEncoded(es, Encode(es).value, []);
    assert Encode(es).value + [] == Encode(es).value && es + [] == es;
  }

  // ------------------------------------------------------------------ integers

  // The two's-complement value of a byte string.
  function Signed(b: seq<Byte>): int {
    if b != [] && b[0] >= 128 then Value(b) - Pow256(|b|) else Value(b)
  }

  // ResourceValue for integers: up to eight bytes, a longer value by its first eight.
  method ResourceInteger(value: seq<Byte>) returns (v: int)
    ensures v == Signed(if |value| > 8 then value[..8] else value)
  {
    if |value| >= 8 {
      assert |value| == 8 ==> value[..8] == value;
      v := ToInt64(value[..8]);
      return;
    }
    v := 0;
    for i := 0 to |value|
      invariant v == Value(value[..i])
    {
      assert value[..i + 1][..i] == value[..i];
      v := v * 256 + value[i] as int;
    }
    assert value[..|value|] == value;
    if |value| > 0 && value[0] >= 128 {
      // setting every bit above the value's own
      v := v - Pow256(|value|);
    }
  }

  // int64 of a big-endian uint64.
  method ToInt64(b: seq<Byte>) returns (v: int)
    requires |b| == 8
    ensures v == Signed(b)
  {
    TopBit(b);
    v := Value(b);
    if 2 * v >= Pow256(8) {
      v := v - Pow256(8);
    }
  }

  // The top bit tells the upper half of the range from the lower.
  lemma {:induction false} TopBit(b: seq<Byte>)
    requires b != []
    ensures b[0] >= 128 <==> 2 * Value(b) >= Pow256(|b|)
    decreases |b|
  {
    if |b| == 1 {
      assert b[..0] == [] && Pow256(1) == 256;
    } else {
      var init := b[..|b| - 1];
      TopBit(init);
      TopStep(Value(init), b[|b| - 1], Pow256(|init|), Pow256(|init| - 1) * 128);
    }
  }

  lemma TopStep(v: nat, c: Byte, p: nat, half: nat)
    requires p == 2 * half
    ensures 2 * (v * 256 + c) >= p * 256 <==> 2 * v >= p
  {
  }

  // Every integer of n bytes decodes to itself from its two's-complement form.
  lemma IntegerRoundTrip(v: int, n: nat)
    requires n > 0 && 0 <= 2 * v + Pow256(n) && 2 * v < Pow256(n)
    ensures var u: nat := if v < 0 then v + Pow256(n) else v;
            Signed(Put(u, n)) == v
  {
    var u: nat := if v < 0 then v + Pow256(n) else v;
    ValueOfPut(u, n);
    TopBit(Put(u, n));
  }
}
