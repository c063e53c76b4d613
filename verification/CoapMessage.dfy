/**
  The CoAP wire format: a fixed header, a token, delta-coded options and a payload
  (sections 3 and 3.1 of RFC 7252).
 */
module CoapMessage {
  import opened Bytes

  const VERSION := 1
  const PAYLOAD_MARKER: Byte := 0xff

  type Options = map<nat, seq<Byte>>

  // Go's nil and empty slices and maps are one value here.
  datatype Message = Message(typ: nat, code: Byte, id: nat, token: seq<Byte>, options: Options, payload: seq<Byte>)

  datatype Error = ErrInvalidMessage | ErrInvalidVersion | ErrTokenTooLong
  datatype Result<T> = Ok(value: T) | Err(error: Error)

  // --------------------------------------------------------------- the decoder

  // readOptionExtended: the value a nibble stands for and the extension bytes it consumes.
  function Extended(data: seq<Byte>, nibble: nat): (r: (nat, nat))
    ensures r.1 <= |data|
  {
    if nibble < 13 then (nibble, 0)
    else if nibble == 13 then
      if |data| < 1 then (0, 0) else (data[0] as int + 13, 1)
    else if nibble == 14 then
      if |data| < 2 then (0, 0) else (U16(data[0], data[1]) + 269, 2)
    else (0, 0)
  }

  // One option read from the front of data: its number, its value and the bytes it takes.
  // Stop when the loop of parseOptions breaks here.
  datatype Field = Stop | Field(num: nat, value: seq<Byte>, size: nat)

  function ReadOption(data: seq<Byte>, prev: nat): (o: Field)
    requires data != []
    ensures o.Field? ==> 1 <= o.size <= |data| && |o.value| < o.size
    ensures o.Field? && prev < 0x1_0000 ==> prev <= o.num < 0x1_0000
  {
    var delta, length := data[0] / 16, data[0] % 16;
    if delta > 14 || length > 14 then Stop
    else
      var (d, dn) := Extended(data[1..], delta);
      var (l, ln) := Extended(data[1 + dn..], length);
      var at := 1 + dn + ln;
      if d > 0xffff - prev then Stop
      else if at + l > |data| then Stop
      else Field(prev + d, data[at..at + l], at + l)
  }

  // parseOptions from a position on: later options with a number already seen overwrite it.
  function OptionsFrom(data: seq<Byte>, prev: nat, options: Options): (r: (Options, seq<Byte>))
    decreases |data|
  {
    if data == [] then (options, [])
    else if data[0] == PAYLOAD_MARKER then (options, data[1..])
    else
      var o := ReadOption(data, prev);
      if o.Stop? then (options, [])
      else OptionsFrom(data[o.size..], o.num, options[o.num := o.value])
  }

  function Parse(data: seq<Byte>): (r: Result<Message>) {
    if |data| < 4 then Err(ErrInvalidMessage)
    else if data[0] / 64 != VERSION then Err(ErrInvalidVersion)
    else
      var n := data[0] % 16;
      if n > 8 then Err(ErrTokenTooLong)
      else if |data| < 4 + n then Err(ErrInvalidMessage)
      else
        var (options, payload) := OptionsFrom(data[4 + n..], 0, map[]);
        Ok(Message(data[0] / 16 % 4, data[1], U16(data[2], data[3]), data[4..4 + n], options, payload))
  }

  // The body of the loop of parseOptions, from the header byte at `offset`: every read is
  // in range.
  method NextOption(data: seq<Byte>, offset: nat, prev: nat) returns (o: Field)
    requires offset < |data|
    ensures o == ReadOption(data[offset..], prev)
  {
    ghost var here := data[offset..];
    var delta, length := data[offset] / 16, data[offset] % 16;
    if delta > 14 || length > 14 {
      return Stop;
    }
    var at := offset + 1;
    assert data[at..] == here[1..];
    var d := Extended(data[at..], delta);
    at := at + d.1;
    assert data[at..] == here[1 + d.1..];
    var l := Extended(data[at..], length);
    at := at + l.1;
    if d.0 > 0xffff - prev || at + l.0 > |data| {
      return Stop;
    }
    assert data[at..at + l.0] == here[at - offset..at - offset + l.0];
    return Field(prev + d.0, data[at..at + l.0], at + l.0 - offset);
  }

  // parseOptions as the source runs it: one loop over an offset into the datagram, which
  // advances on every iteration that does not leave the loop.
  method ParseOptions(data: seq<Byte>) returns (options: Options, payload: seq<Byte>)
    ensures (options, payload) == OptionsFrom(data, 0, map[])
  {
    options, payload := map[], [];
    var offset, prev := 0, 0;
    while offset < |data|
      invariant offset <= |data|
      invariant OptionsFrom(data, 0, map[]) == OptionsFrom(data[offset..], prev, options)
      decreases |data| - offset
    {
      if data[offset] == PAYLOAD_MARKER {
        payload := data[offset + 1..];
        assert data[offset..][1..] == payload;
        return;
      }
      var o := NextOption(data, offset, prev);
      if o.Stop? {
        return;
      }
      assert data[offset..][o.size..] == data[offset + o.size..];
      prev := o.num;
      options := options[o.num := o.value];
      offset := offset + o.size;
    }
  }

  // --------------------------------------------------------------- the encoder

  // The four-bit code of an option delta or length, and the bytes that extend it.
  function Nibble(v: nat): (n: nat)
    ensures n <= 14
  {
    if v < 13 then v else if v < 269 then 13 else 14
  }

  function Extension(v: nat): seq<Byte>
    requires v < 0x1_0000
  {
    if v < 13 then [] else if v < 269 then [v - 13] else [(v - 269) / 256, (v - 269) % 256]
  }

  // encodeOption: the length field holds the low 16 bits of the value's length.
  function EncodeOption(delta: nat, value: seq<Byte>): (b: seq<Byte>)
    requires delta < 0x1_0000
    ensures |b| >= 1 && b[0] != PAYLOAD_MARKER
  {
    var length := |value| % 0x1_0000;
    [Nibble(delta) * 16 + Nibble(length)] + Extension(delta) + Extension(length) + value
  }

  ghost predicate Ascending(nums: seq<nat>) {
    forall i, j :: 0 <= i < j < |nums| ==> nums[i] < nums[j]
  }

  // Every listed number is one of the options.
  predicate Covered(nums: seq<nat>, options: Options) {
    forall i :: 0 <= i < |nums| ==> nums[i] in options && nums[i] < 0x1_0000
  }

  // The options of `nums` in order, each coded relative to the one before.
  function EncodeOptions(nums: seq<nat>, prev: nat, options: Options): seq<Byte>
    requires Covered(nums, options)
  {
    if nums == [] then []
    else
      var delta := (nums[0] - prev) % 0x1_0000;
      EncodeOption(delta, options[nums[0]]) + EncodeOptions(nums[1..], nums[0], options)
  }

  // Field ranges that the source's types impose.
  predicate Typed(m: Message) {
    m.typ < 256 && m.id < 0x1_0000 && forall n :: n in m.options ==> n < 0x1_0000
  }

  function Header(m: Message): seq<Byte>
    requires Typed(m) && |m.token| <= 8 && m.typ <= 3
  {
    [VERSION * 64 + m.typ * 16 + |m.token|, m.code, m.id / 256, m.id % 256]
  }

  function Tail(payload: seq<Byte>): seq<Byte> {
    if payload == [] then [] else [PAYLOAD_MARKER] + payload
  }

  ghost function Marshal(m: Message): Result<seq<Byte>>
    requires Typed(m)
  {
    if |m.token| > 8 then Err(ErrTokenTooLong)
    else if m.typ > 3 then Err(ErrInvalidMessage)
    else Ok(Header(m) + m.token + EncodeOptions(SortedNums(m.options.Keys), 0, m.options) + Tail(m.payload))
  }

  // slices.Sort of the option numbers.
  ghost function SortedNums(s: set<nat>): (nums: seq<nat>)
    ensures forall n :: n in nums <==> n in s
    ensures Ascending(nums)
  {
    if s == {} then []
    else
      LeastExists(s);
      var n :| Least(n, s);
      var rest := SortedNums(s - {n});
      assert forall x :: x in [n] + rest <==> x == n || x in rest;
      [n] + rest
  }

  predicate Least(n: nat, s: set<nat>) { n in s && forall x :: x in s ==> n <= x }

  lemma {:induction false} LeastExists(s: set<nat>)
    requires s != {}
    ensures exists n :: Least(n, s)
  {
    var m :| m in s;
    var rest := s - {m};
    if rest == {} {
      assert s == {m};
      assert Least(m, s);
    } else {
      LeastExists(rest);
      var k :| Least(k, rest);
      var least := if m < k then m else k;
      assert forall x :: x in s ==> x == m || x in rest;
      assert Least(least, s);
    }
  }

  lemma {:induction false} AscendingIsUnique(a: seq<nat>, b: seq<nat>)
    requires Ascending(a) && Ascending(b) && forall n :: n in a <==> n in b
    ensures a == b
    decreases |a|
  {
    if a == [] {
      assert forall i :: 0 <= i < |b| ==> b[i] in b;
    } else {
      assert a[0] in b && b[0] in a;
      assert a[0] == b[0];
      assert a == [a[0]] + a[1..] && b == [b[0]] + b[1..];
      forall n ensures n in a[1..] <==> n in b[1..] {
        assert n in a[1..] <==> n in a && n != a[0];
        assert n in b[1..] <==> n in b && n != b[0];
      }
      AscendingIsUnique(a[1..], b[1..]);
    }
  }

  // The keys taken out so far, in order, all below those that remain.
  predicate Taken(nums: seq<nat>, rest: set<nat>, keys: set<nat>) {
    && rest <= keys
    && (forall i, j :: 0 <= i < j < |nums| ==> nums[i] < nums[j])
    && (forall n :: n in keys ==> (n in nums <==> n !in rest))
    && (forall i :: 0 <= i < |nums| ==> nums[i] in keys)
    && (forall i, x :: 0 <= i < |nums| && x in rest ==> nums[i] < x)
  }

  lemma Appended(nums: seq<nat>, rest: set<nat>, keys: set<nat>, n: nat)
    requires Taken(nums, rest, keys) && Least(n, rest)
    ensures Taken(nums + [n], rest - {n}, keys)
  {
  }

  method SortedOptionNums(options: Options) returns (nums: seq<nat>)
    ensures nums == SortedNums(options.Keys)
  {
    nums := [];
    var keys := options.Keys;
    var rest := keys;
    while rest != {}
      invariant Taken(nums, rest, keys)
      decreases rest
    {
      LeastExists(rest);
      var n :| Least(n, rest);
      Appended(nums, rest, keys, n);
      nums := nums + [n];
      rest := rest - {n};
    }
    AscendingIsUnique(nums, SortedNums(keys));
  }

  method EncodeAll(nums: seq<nat>, options: Options) returns (out: seq<Byte>)
    requires Covered(nums, options)
    ensures out == EncodeOptions(nums, 0, options)
  {
    out := [];
    var prev := 0;
    for i := 0 to |nums|
      invariant out + EncodeOptions(nums[i..], prev, options) == EncodeOptions(nums, 0, options)
    {
      var delta := (nums[i] as int - prev) % 0x1_0000;
      assert nums[i..][1..] == nums[i + 1..];
      out := out + EncodeOption(delta, options[nums[i]]);
      prev := nums[i];
    }
  }

  // Marshal as the source runs it: a loop over the sorted numbers into a growing buffer.
  method MarshalMessage(m: Message) returns (r: Result<seq<Byte>>)
    requires Typed(m)
    ensures r == Marshal(m)
  {
    if |m.token| > 8 {
      return Err(ErrTokenTooLong);
    }
    if m.typ > 3 {
      return Err(ErrInvalidMessage);
    }
    var out := Header(m) + m.token;
    var nums := SortedOptionNums(m.options);
    var encoded := EncodeAll(nums, m.options);
    out := out + encoded;
    ghost var before := out;
    if m.payload != [] {
      out := out + [PAYLOAD_MARKER] + m.payload;
    }
    assert out == before + Tail(m.payload);
    return Ok(out);
  }

  // -------------------------------------------------------------- round trips

  lemma ExtendedOfExtension(v: nat, rest: seq<Byte>)
    requires v < 0x1_0000
    ensures Extended(Extension(v) + rest, Nibble(v)) == (v, |Extension(v)|)
  {
    if v >= 269 {
      var e := Extension(v) + rest;
      assert e[0] == (v - 269) / 256 && e[1] == (v - 269) % 256;
    }
  }

  lemma ReadEncoded(delta: nat, value: seq<Byte>, rest: seq<Byte>, prev: nat)
    requires prev + delta < 0x1_0000 && |value| < 0x1_0000
    ensures ReadOption(EncodeOption(delta, value) + rest, prev)
         == Field(prev + delta, value, |EncodeOption(delta, value)|)
  {
    var data := EncodeOption(delta, value) + rest;
    var h, d, l := Nibble(delta) * 16 + Nibble(|value|), Extension(delta), Extension(|value|);
    ExtendedOfExtension(delta, l + value + rest);
    ExtendedOfExtension(|value|, value + rest);
    ReadParts(h, d, l, value, rest, data, delta, prev);
  }

  lemma ReadParts(h: Byte, d: seq<Byte>, l: seq<Byte>, value: seq<Byte>, rest: seq<Byte>, data: seq<Byte>, delta: nat,
      prev: nat)
    requires data == [h] + d + l + value + rest && h / 16 <= 14 && h % 16 <= 14 && prev + delta < 0x1_0000
    requires Extended(d + (l + value + rest), h / 16) == (delta, |d|)
    requires Extended(l + (value + rest), h % 16) == (|value|, |l|)
    ensures ReadOption(data, prev) == Field(prev + delta, value, 1 + |d| + |l| + |value|)
  {
    Slices([h], d, l, value, rest, data);
    assert data[0] == h;
  }

  // The options of `nums` added to `acc`.
  function Added(acc: Options, nums: seq<nat>, options: Options): Options
    requires Covered(nums, options)
    decreases |nums|
  {
    if nums == [] then acc else Added(acc[nums[0] := options[nums[0]]], nums[1..], options)
  }

  lemma {:induction false} AddedLooksUp(acc: Options, nums: seq<nat>, options: Options, n: nat)
    requires Covered(nums, options)
    ensures n in Added(acc, nums, options) <==> n in acc || n in nums
    ensures n in nums ==> Added(acc, nums, options)[n] == options[n]
    ensures n !in nums && n in acc ==> Added(acc, nums, options)[n] == acc[n]
    decreases |nums|
  {
    if nums != [] {
      AddedLooksUp(acc[nums[0] := options[nums[0]]], nums[1..], options, n);
      assert n in nums <==> n == nums[0] || n in nums[1..];
    }
  }

  lemma {:induction false} ParseEncoded(nums: seq<nat>, prev: nat, options: Options, tail: seq<Byte>, acc: Options)
    requires Covered(nums, options) && forall i :: 0 <= i < |nums| ==> |options[nums[i]]| < 0x1_0000
    requires Ascending(nums) && (nums != [] ==> prev <= nums[0])
    requires tail == [] || tail[0] == PAYLOAD_MARKER
    ensures OptionsFrom(EncodeOptions(nums, prev, options) + tail, prev, acc)
         == (Added(acc, nums, options), if tail == [] then [] else tail[1..])
    decreases |nums|
  {
    if nums == [] {
      assert EncodeOptions(nums, prev, options) + tail == tail;
    } else {
      var n, rest := nums[0], nums[1..];
      EncodedSplits(nums, prev, options, tail);
      var data, others := EncodeOptions(nums, prev, options) + tail, EncodeOptions(rest, n, options) + tail;
      ReadFirst(data, n, options[n], others, prev, acc);
      ParseEncoded(rest, n, options, tail, acc[n := options[n]]);
    }
  }

  lemma ReadFirst(data: seq<Byte>, n: nat, value: seq<Byte>, rest: seq<Byte>, prev: nat, acc: Options)
    requires prev <= n < 0x1_0000 && |value| < 0x1_0000 && data == EncodeOption(n - prev, value) + rest
    ensures OptionsFrom(data, prev, acc) == OptionsFrom(rest, n, acc[n := value])
  {
    ReadEncoded(n - prev, value, rest, prev);
    assert data[|EncodeOption(n - prev, value)|..] == rest;
  }

  lemma EncodedSplits(nums: seq<nat>, prev: nat, options: Options, tail: seq<Byte>)
    requires Covered(nums, options)
    requires nums != [] && prev <= nums[0]
    ensures EncodeOptions(nums, prev, options) + tail ==
            EncodeOption(nums[0] - prev, options[nums[0]]) + (EncodeOptions(nums[1..], nums[0], options) + tail)
  {
  }

  // Messages that Marshal accepts and whose option values fit the 16-bit length field.
  predicate Encodable(m: Message) {
    && Typed(m) && m.typ <= 3 && |m.token| <= 8
    && forall n :: n in m.options ==> |m.options[n]| < 0x1_0000
  }

  lemma ParseHeader(m: Message, rest: seq<Byte>)
    requires Typed(m) && m.typ <= 3 && |m.token| <= 8
    ensures var (options, payload) := OptionsFrom(rest, 0, map[]);
            Parse(Header(m) + m.token + rest) == Ok(m.(options := options, payload := payload))
  {
    var h, n := Header(m), |m.token|;
    var data := h + m.token + rest;
    assert data[..4] == h;
    assert data[0] == h[0] && data[1] == h[1] && data[2] == h[2] && data[3] == h[3];
    assert h[0] / 64 == 1 && h[0] % 16 == n && h[0] / 16 % 4 == m.typ;
    assert U16(h[2], h[3]) == m.id;
    assert data[4..4 + n] == m.token;
    assert data[4 + n..] == rest;
  }

  // Parse undoes Marshal.
  lemma ParseUndoesMarshal(m: Message)
    requires Encodable(m)
    ensures Marshal(m).Ok? && Parse(Marshal(m).value) == Ok(m)
  {
    var nums := SortedNums(m.options.Keys);
    var body := EncodeOptions(nums, 0, m.options) + Tail(m.payload);
    assert Marshal(m).value == Header(m) + m.token + body;
    ParseHeader(m, body);
    ParseEncoded(nums, 0, m.options, Tail(m.payload), map[]);
    AddedAll(nums, m.options);
  }

  lemma AddedAll(nums: seq<nat>, options: Options)
    requires Covered(nums, options) && forall n :: n in nums <==> n in options
    ensures Added(map[], nums, options) == options
  {
    forall n
      ensures n in Added(map[], nums, options) <==> n in options
      ensures n in options ==> Added(map[], nums, options)[n] == options[n]
    {
      AddedLooksUp(map[], nums, options, n);
    }
  }

  // ------------------------------------------------- what the decoder produces

  ghost predicate ShortOptions(options: Options, bound: nat) {
    forall n :: n in options ==> n < 0x1_0000 && |options[n]| < bound
  }

  lemma {:induction false} ParsedOptions(data: seq<Byte>, prev: nat, acc: Options, bound: nat)
    requires prev < 0x1_0000 && ShortOptions(acc, bound) && |data| <= bound
    ensures ShortOptions(OptionsFrom(data, prev, acc).0, bound)
    decreases |data|
  {
    if data != [] && data[0] != PAYLOAD_MARKER {
      var o := ReadOption(data, prev);
      if o.Field? {
        ParsedOptions(data[o.size..], o.num, acc[o.num := o.value], bound);
      }
    }
  }

  // Every accepted datagram of at most 64 KiB decodes to a message that survives being
  // marshalled and parsed again.
  lemma ReencodingIsStable(data: seq<Byte>)
    requires |data| <= 0x1_0000 && Parse(data).Ok?
    ensures var m := Parse(data).value;
            Encodable(m) && Marshal(m).Ok? && Parse(Marshal(m).value) == Parse(data)
  {
    var m := Parse(data).value;
    var n := data[0] % 16;
    ParsedOptions(data[4 + n..], 0, map[], 0x1_0000 - 4);
    ParseUndoesMarshal(m);
  }

  // ------------------------------------------- values the length field cannot hold

  predicate AllZero(z: seq<Byte>) { forall i :: 0 <= i < |z| ==> z[i] == 0 }

  lemma {:induction false} ZerosParse(z: seq<Byte>, n: nat, acc: Options)
    requires AllZero(z) && n < 0x1_0000 && n in acc && acc[n] == []
    ensures OptionsFrom(z, n, acc) == (acc, [])
    decreases |z|
  {
    if z != [] {
      assert ReadOption(z, n) == Field(n, [], 1);
      assert acc[n := []] == acc;
      ZerosParse(z[1..], n, acc);
    }
  }

  lemma LongOption(n: nat, long: seq<Byte>)
    requires n < 0x1_0000 && |long| == 0x1_0000
    ensures EncodeOption(n, long) == EncodeOption(n, []) + long
  {
  }

  lemma OneOptionMarshals(m: Message, n: nat)
    requires Typed(m) && m.typ <= 3 && |m.token| <= 8 && m.options.Keys == {n} && m.payload == []
    ensures Marshal(m) == Ok(Header(m) + m.token + EncodeOption(n, m.options[n]))
  {
    assert n in m.options;
    AscendingIsUnique(SortedNums(m.options.Keys), [n]);
    assert [n][1..] == [];
    assert EncodeOptions([n], 0, m.options) == EncodeOption(n, m.options[n]) + EncodeOptions([], n, m.options);
    assert EncodeOptions([], n, m.options) == [];
    var head := Header(m) + m.token;
    assert head + EncodeOptions([n], 0, m.options) + [] == head + EncodeOption(n, m.options[n]);
  }

  lemma ZerosAreOptions(body: seq<Byte>, n: nat, zeros: seq<Byte>, prev: nat, acc: Options)
    requires prev <= n < 0x1_0000 && AllZero(zeros) && body == EncodeOption(n - prev, []) + zeros
    ensures OptionsFrom(body, prev, acc) == (acc[n := []], [])
  {
    ReadFirst(body, n, [], zeros, prev, acc);
    ZerosParse(zeros, n, acc[n := []]);
  }

  // The bound on value lengths cannot be dropped: a value of 65536 zero bytes is accepted
  // by Marshal but comes back empty.
  lemma LongValueIsLost(n: nat, long: seq<Byte>, m: Message)
    requires n < 0x1_0000 && |long| == 0x1_0000 && AllZero(long)
    requires m == Message(0, 1, 0, [], map[n := long], [])
    ensures Typed(m) && Marshal(m).Ok? && Parse(Marshal(m).value) == Ok(m.(options := map[n := []]))
  {
    OneOptionMarshals(m, n);
    var prev: nat := 0;
    var body := EncodeOption(n - prev, long);
    assert body == EncodeOption(n, m.options[n]);
    ParseHeader(m, body);
    LongOption(n - prev, long);
    ZerosAreOptions(body, n, long, prev, map[]);
  }
}
