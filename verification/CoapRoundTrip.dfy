/**
  Exactly which messages survive Marshal and Parse.  The length field of an option holds
  16 bits, so a longer value is cut off in the middle and its remaining bytes are read as
  further options.  Counting bytes shows that they never add up to the value again.
 */
module CoapRoundTrip {
  import opened Bytes
  import opened CoapMessage

  // The bytes that extend the nibble for v.
  function Ext(v: int): nat { if v < 13 then 0 else if v < 269 then 1 else 2 }

  // What an option costs on the wire when its length is written in full.
  function OptionCost(delta: int, value: seq<Byte>): nat { 1 + Ext(delta) + Ext(|value|) + |value| }

  function Cost(nums: seq<nat>, prev: nat, options: Options): nat
    requires Covered(nums, options)
  {
    if nums == [] then 0 else OptionCost(nums[0] - prev, options[nums[0]]) + Cost(nums[1..], nums[0], options)
  }

  // Every record the decoder reads costs just that.
  lemma FieldCost(data: seq<Byte>, prev: nat)
    requires data != [] && ReadOption(data, prev).Field?
    ensures var o := ReadOption(data, prev); o.num >= prev && o.size == OptionCost(o.num - prev, o.value)
  {
    var (d, dn) := Extended(data[1..], (data[0] / 16) as nat);
    ExtendedCost(data[1..], (data[0] / 16) as nat);
    ExtendedCost(data[1 + dn..], (data[0] % 16) as nat);
  }

  lemma ExtendedCost(data: seq<Byte>, nibble: nat)
    ensures Ext(Extended(data, nibble).0) == Extended(data, nibble).1
  {
  }

  // ------------------------------------------------------------- the decoder is monotone

  // Options below prev are settled, and none is lost.
  predicate Settled(acc: Options, options: Options, prev: nat) {
    && (forall n :: n in acc ==> n in options)
    && (forall n :: n in options && n < prev ==> n in acc && options[n] == acc[n])
  }

  lemma {:induction false} BelowIsSettled(data: seq<Byte>, prev: nat, acc: Options)
    ensures Settled(acc, OptionsFrom(data, prev, acc).0, prev)
    decreases |data|
  {
    if data != [] && data[0] != PAYLOAD_MARKER {
      var o := ReadOption(data, prev);
      if o.Field? {
        FieldCost(data, prev);
        BelowIsSettled(data[o.size..], o.num, acc[o.num := o.value]);
      }
    }
  }

  // ------------------------------------------------------------- what a result costs

  // nums lists the options above prev.
  ghost predicate Above(nums: seq<nat>, prev: nat, options: Options) {
    Ascending(nums) && forall n :: n in nums <==> n in options && n > prev
  }

  // The option prev itself has still to be read if it is not as it should be.
  function Unread(acc: Options, options: Options, prev: nat): nat {
    if prev in options && !(prev in acc && acc[prev] == options[prev]) then OptionCost(0, options[prev]) else 0
  }

  lemma NoneAbove(nums: seq<nat>, prev: nat, options: Options)
    requires Above(nums, prev, options) && forall k :: k in options ==> k <= prev
    ensures nums == []
  {
    var k := if nums == [] then prev else nums[0];
    assert nums != [] ==> k in nums;
  }

  lemma AboveNext(nums: seq<nat>, prev: nat, n: nat, acc: Options, value: seq<Byte>, options: Options)
    requires Above(nums, prev, options) && prev < n
    requires (forall k :: k in acc ==> k <= prev) && Settled(acc[n := value], options, n)
    ensures nums != [] && nums[0] == n && Above(nums[1..], n, options)
  {
    var acc' := acc[n := value];
    assert n in acc';
    assert n in options && n in nums;
    forall k | k in nums ensures k >= n {
      assert k < n ==> k in acc';
    }
    assert nums[0] in nums;
    assert nums == [nums[0]] + nums[1..];
  }

  // A datagram that decodes to these options and this payload has at least the bytes they cost.
  lemma {:induction false} DecodedCosts(data: seq<Byte>, prev: nat, acc: Options, options: Options, payload: seq<Byte>,
      nums: seq<nat>)
    requires OptionsFrom(data, prev, acc) == (options, payload) && (forall k :: k in acc ==> k <= prev)
    requires Above(nums, prev, options) && Covered(nums, options)
    ensures |data| >= Unread(acc, options, prev) + Cost(nums, prev, options) + |Tail(payload)|
    decreases |data|
  {
    if data == [] || data[0] == PAYLOAD_MARKER || ReadOption(data, prev).Stop? {
      assert options == acc;
      NoneAbove(nums, prev, options);
    } else {
      var o := ReadOption(data, prev);
      var acc' := acc[o.num := o.value];
      FieldCost(data, prev);
      BelowIsSettled(data[o.size..], o.num, acc');
      if o.num == prev {
        DecodedCosts(data[o.size..], prev, acc', options, payload, nums);
        SameCosts(prev, o.value, acc, options);
      } else {
        AboveNext(nums, prev, o.num, acc, o.value, options);
        DecodedCosts(data[o.size..], o.num, acc', options, payload, nums[1..]);
        NextCosts(nums, prev, o.num, o.value, acc, options);
      }
    }
  }

  lemma SameCosts(prev: nat, value: seq<Byte>, acc: Options, options: Options)
    ensures OptionCost(0, value) + Unread(acc[prev := value], options, prev) >= Unread(acc, options, prev)
  {
  }

  // Reading the record for nums[0] pays for it, or leaves it to be paid again.
  lemma NextCosts(nums: seq<nat>, prev: nat, n: nat, value: seq<Byte>, acc: Options, options: Options)
    requires Covered(nums, options) && nums != [] && nums[0] == n && prev < n && Settled(acc[n := value], options, n)
    requires forall k :: k in acc ==> k <= prev
    ensures Unread(acc, options, prev) == 0
    ensures OptionCost(n - prev, value) + Unread(acc[n := value], options, n) + Cost(nums[1..], n, options) >=
            Cost(nums, prev, options)
  {
    assert prev in options ==> prev in acc[n := value];
  }

  // ------------------------------------------------------------- what is written

  lemma {:induction false} WrittenAtMost(nums: seq<nat>, prev: nat, options: Options)
    requires Covered(nums, options) && Ascending(nums) && (nums != [] ==> prev <= nums[0])
    ensures |EncodeOptions(nums, prev, options)| <= Cost(nums, prev, options)
    decreases |nums|
  {
    if nums != [] {
      WrittenAtMost(nums[1..], nums[0], options);
      OneAtMost(nums[0] - prev, options[nums[0]]);
    }
  }

  lemma OneAtMost(delta: nat, value: seq<Byte>)
    requires delta < 0x1_0000
    ensures |EncodeOption(delta, value)| <= OptionCost(delta, value)
  {
    var length := |value| % 0x1_0000;
    assert length <= |value|;
  }

  // A long value is cut at its length modulo 2^16.
  lemma CutValue(delta: nat, value: seq<Byte>, r: nat)
    requires delta < 0x1_0000 && r == |value| % 0x1_0000
    ensures EncodeOption(delta, value) == EncodeOption(delta, value[..r]) + value[r..]
  {
    assert value == value[..r] + value[r..];
  }

  lemma LongIsNotRead(n: nat, value: seq<Byte>, rest: seq<Byte>, prev: nat, acc: Options, options: Options,
                      payload: seq<Byte>, nums: seq<nat>, data: seq<Byte>)
    requires prev <= n < 0x1_0000 && |value| >= 0x1_0000 && (forall k :: k in acc ==> k <= prev)
    requires n in options && options[n] == value && Above(nums, n, options) && Covered(nums, options)
    requires |rest| <= Cost(nums, n, options) + |Tail(payload)| && data == EncodeOption(n - prev, value) + rest
    ensures OptionsFrom(data, prev, acc) != (options, payload)
  {
    var r := |value| % 0x1_0000;
    var part, left := value[..r], value[r..] + rest;
    CutData(n - prev, value, r, rest, data);
    ReadFirst(data, n, part, left, prev, acc);
    LeftIsNotEnough(left, n, acc[n := part], options, payload, nums);
  }

  lemma CutData(delta: nat, value: seq<Byte>, r: nat, rest: seq<Byte>, data: seq<Byte>)
    requires delta < 0x1_0000 && r == |value| % 0x1_0000 && data == EncodeOption(delta, value) + rest
    ensures data == EncodeOption(delta, value[..r]) + (value[r..] + rest)
  {
    CutValue(delta, value, r);
  }

  lemma LeftIsNotEnough(left: seq<Byte>, n: nat, acc: Options, options: Options, payload: seq<Byte>, nums: seq<nat>)
    requires (forall k :: k in acc ==> k <= n) && n in acc && n in options && acc[n] != options[n]
    requires Above(nums, n, options) && Covered(nums, options)
    requires |left| <= |options[n]| + Cost(nums, n, options) + |Tail(payload)|
    ensures OptionsFrom(left, n, acc) != (options, payload)
  {
    if OptionsFrom(left, n, acc) == (options, payload) {
      DecodedCosts(left, n, acc, options, payload, nums);
    }
  }

  // nums lists the options from nums[0] on.
  ghost predicate Onwards(nums: seq<nat>, options: Options) {
    Ascending(nums) && (nums != [] ==> forall n :: n in nums <==> n in options && n >= nums[0])
  }

  lemma OnwardsNext(nums: seq<nat>, options: Options)
    requires Onwards(nums, options) && nums != []
    ensures Above(nums[1..], nums[0], options) && Onwards(nums[1..], options)
  {
    assert nums == [nums[0]] + nums[1..];
    assert forall i :: 0 <= i < |nums[1..]| ==> nums[1..][i] == nums[i + 1];
    assert forall n :: n in nums[1..] <==> n in nums && n != nums[0];
  }

  lemma {:induction false} AllAreShort(nums: seq<nat>, prev: nat, acc: Options, options: Options, payload: seq<Byte>)
    requires Covered(nums, options) && Onwards(nums, options) && (nums != [] ==> prev <= nums[0])
    requires forall k :: k in acc ==> k <= prev
    requires OptionsFrom(EncodeOptions(nums, prev, options) + Tail(payload), prev, acc) == (options, payload)
    ensures forall i :: 0 <= i < |nums| ==> |options[nums[i]]| < 0x1_0000
    decreases |nums|
  {
    if nums != [] {
      var n, others := nums[0], nums[1..];
      var rest := EncodeOptions(others, n, options) + Tail(payload);
      OnwardsNext(nums, options);
      EncodedSplits(nums, prev, options, Tail(payload));
      if |options[n]| >= 0x1_0000 {
        WrittenAtMost(others, n, options);
        LongIsNotRead(n, options[n], rest, prev, acc, options, payload, others,
            EncodeOption(n - prev, options[n]) + rest);
      }
      ReadFirst(EncodeOption(n - prev, options[n]) + rest, n, options[n], rest, prev, acc);
      AllAreShort(others, n, acc[n := options[n]], options, payload);
    }
  }

  // A message that Marshal accepts comes back from Parse if and only if each of its option
  // values is shorter than 2^16 bytes.
  lemma RoundTripIff(m: Message)
    requires Typed(m) && Marshal(m).Ok?
    ensures Parse(Marshal(m).value) == Ok(m) <==> forall n :: n in m.options ==> |m.options[n]| < 0x1_0000
  {
    if forall n :: n in m.options ==> |m.options[n]| < 0x1_0000 {
      ParseUndoesMarshal(m);
    } else {
      var n :| n in m.options && |m.options[n]| >= 0x1_0000;
      LongDoesNotReturn(m, n);
    }
  }

  lemma LongDoesNotReturn(m: Message, n: nat)
    requires Typed(m) && Marshal(m).Ok? && n in m.options && |m.options[n]| >= 0x1_0000
    ensures Parse(Marshal(m).value) != Ok(m)
  {
    var nums := SortedNums(m.options.Keys);
    var body := EncodeOptions(nums, 0, m.options) + Tail(m.payload);
    assert Marshal(m).value == Header(m) + m.token + body;
    ParseHeader(m, body);
    assert n in nums;
    if OptionsFrom(body, 0, map[]) == (m.options, m.payload) {
      AllAreShort(nums, 0, map[], m.options, m.payload);
    }
  }
}
