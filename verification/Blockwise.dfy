/**
 * Block-wise transfer of response bodies (internal/transport/coap/blockwise.go and
 * applyBlock2 in server.go), sections 2.2 and 2.4 of RFC 7959. The server keeps no state
 * between blocks, so a transfer is a series of independent answers.
 */
module Blockwise {
  import opened Basics
  import opened Bytes

  datatype Block = Block(num: nat, more: bool, szx: nat)

  const MAX_SZX := 6

  function Pow2(n: nat): (p: nat)
    ensures p > 0
  {
    if n == 0 then 1 else 2 * Pow2(n - 1)
  }

  function Size(szx: nat): (s: nat)
    ensures s > 0
  {
    Pow2(szx + 4)
  }

  // The Go fields: Num is a uint32 and SizeExp a uint8.
  predicate Typed(b: Block) { b.num < 0x1_0000_0000 && b.szx < 256 }

  // ------------------------------------------------------------------ the option value

  // Bitwise or.
  function Or(a: nat, b: nat): nat
    decreases a + b
  {
    if a == 0 && b == 0 then 0 else 2 * Or(a / 2, b / 2) + if a % 2 == 1 || b % 2 == 1 then 1 else 0
  }

  // The packed word, as uint32.
  function Raw(b: Block): nat {
    Or(Or(b.num * 16 % 0x1_0000_0000, b.szx), if b.more then 8 else 0)
  }

  lemma {:induction false} OrZero(a: nat)
    ensures Or(a, 0) == a
  {
    if a > 0 { OrZero(a / 2); }
  }

  lemma OrBit(a: nat, x: nat, b: nat, y: nat)
    requires x < 2 && y < 2
    ensures Or(2 * a + x, 2 * b + y) == 2 * Or(a, b) + if x == 1 || y == 1 then 1 else 0
  {
    assert (2 * a + x) / 2 == a && (2 * b + y) / 2 == b;
    assert (2 * a + x) % 2 == x && (2 * b + y) % 2 == y;
  }

  // The bits of a number below 8.
  lemma Bits(z: nat)
    requires z < 8
    ensures z == 4 * (z / 4) + 2 * (z / 2 % 2) + z % 2 && z / 4 < 2
  {
  }

  // Three bits below a multiple of eight.
  lemma OrThree(a: nat, x: nat, b: nat, y: nat)
    requires x < 8 && y < 8 && (x == 0 || y == 0)
    ensures Or(8 * a + x, 8 * b + y) == 8 * Or(a, b) + x + y
  {
    Bits(x);
    Bits(y);
    OrBit(a, x / 4, b, y / 4);
    OrBit(2 * a + x / 4, x / 2 % 2, 2 * b + y / 4, y / 2 % 2);
    OrBit(4 * a + 2 * (x / 4) + x / 2 % 2, x % 2, 4 * b + 2 * (y / 4) + y / 2 % 2, y % 2);
  }

  lemma Shifted(num: nat, y: nat)
    requires y == num % 0x1000_0000
    ensures num * 16 % 0x1_0000_0000 == 8 * (2 * y)
  {
    assert num * 16 == 0x1_0000_0000 * (num / 0x1000_0000) + 16 * y;
  }

  // With SZX in its three bits, the three fields lie side by side.
  lemma RawIs(b: Block)
    requires b.szx < 8
    ensures Raw(b) == b.num * 16 % 0x1_0000_0000 + b.szx + if b.more then 8 else 0
  {
    var y := b.num % 0x1000_0000;
    Shifted(b.num, y);
    OrThree(2 * y, 0, 0, b.szx);
    OrZero(2 * y);
    assert 8 * (2 * y) + 0 == b.num * 16 % 0x1_0000_0000 && 8 * 0 + b.szx == b.szx;
    if b.more {
      OrThree(2 * y, b.szx, 1, 0);
      OrBit(y, 0, 0, 1);
      OrZero(y);
      assert 8 * 1 + 0 == 8 && 2 * 0 + 1 == 1 && 2 * y + 0 == 2 * y;
    } else {
      OrZero(8 * (2 * y) + b.szx);
    }
  }

  // Leading zeros dropped, but never the last byte.
  function Trim(b: seq<Byte>): (t: seq<Byte>)
    ensures |t| <= |b| && (b != [] ==> t != []) && (|t| > 1 ==> t[0] != 0)
  {
    if |b| > 1 && b[0] == 0 then Trim(b[1..]) else b
  }

  // The low 24 bits in as few bytes as possible.
  function Pack(raw: nat): seq<Byte> { if raw == 0 then [] else Trim(Put(raw, 3)) }

  function Marshal(b: Block): (v: seq<Byte>)
    requires Typed(b)
  {
    Pack(Raw(b))
  }

  function Unpack(raw: nat): Block { Block(raw / 16, raw / 8 % 2 == 1, raw % 8) }

  // None is ErrInvalidBlockOption.
  function Parse(v: seq<Byte>): (r: Option<Block>) {
    if |v| > 3 || Unpack(Value(v)).szx > MAX_SZX then None else Some(Unpack(Value(v)))
  }

  method MarshalOption(b: Block) returns (v: seq<Byte>)
    requires Typed(b)
    ensures v == Marshal(b)
  {
    if Raw(b) == 0 {
      return [];
    }
    var buf := Put(Raw(b), 3);
    var first := 0;
    while first < |buf| - 1 && buf[first] == 0
      invariant 0 <= first < |buf| && Trim(buf[first..]) == Trim(buf)
    {
      assert buf[first..][1..] == buf[first + 1..];
      first := first + 1;
    }
    v := buf[first..];
  }

  method ParseOption(v: seq<Byte>) returns (r: Option<Block>)
    ensures r == Parse(v)
  {
    if |v| > 3 {
      return None;
    }
    var raw: nat := 0;
    for i := 0 to |v|
      invariant raw == Value(v[..i])
    {
      raw := raw * 256 + v[i] as int;
      assert v[..i + 1][..i] == v[..i];
    }
    assert v[..|v|] == v;
    var b := Unpack(raw);
    return if b.szx > MAX_SZX then None else Some(b);
  }

  lemma {:induction false} ValueOfTail(b: seq<Byte>)
    requires |b| > 0 && b[0] == 0
    ensures Value(b[1..]) == Value(b)
    decreases |b|
  {
    if |b| > 1 {
      var init := b[..|b| - 1];
      ValueOfTail(init);
      assert b[1..][..|b| - 2] == init[1..];
    } else {
      assert b[..0] == [];
    }
  }

  lemma {:induction false} TrimKeepsValue(b: seq<Byte>)
    ensures Value(Trim(b)) == Value(b)
  {
    if |b| > 1 && b[0] == 0 {
      ValueOfTail(b);
      TrimKeepsValue(b[1..]);
    }
  }

  lemma ValueOfPack(raw: nat)
    ensures |Pack(raw)| <= 3 && Value(Pack(raw)) == raw % 0x100_0000
    ensures |Pack(raw)| > 1 ==> Pack(raw)[0] != 0
    ensures Pack(raw) == [] <==> raw == 0
  {
    if raw != 0 {
      TrimKeepsValue(Put(raw, 3));
      LowBytes(raw);
    }
  }

  lemma ValueOfAppend(b: seq<Byte>, c: Byte)
    ensures Value(b + [c]) == Value(b) * 256 + c as int
  {
    assert (b + [c])[..|b|] == b;
  }

  lemma LowTwoBytes(v: nat)
    ensures Value(Put(v, 2)) == v % 0x1_0000
  {
    assert Put(v / 256, 1) == [v / 256 % 256];
    ValueOfAppend([], v / 256 % 256);
    ValueOfAppend(Put(v / 256, 1), v % 256);
  }

  lemma LowBytes(v: nat)
    ensures Value(Put(v, 3)) == v % 0x100_0000
  {
    LowTwoBytes(v / 256);
    ValueOfAppend(Put(v / 256, 2), v % 256);
    Mod24(v);
  }

  lemma Mod24(v: nat)
    ensures v / 256 % 0x1_0000 * 256 + v % 256 == v % 0x100_0000
  {
  }

  // An option value survives the trip exactly when NUM has at most 20 bits and SZX is not
  // the reserved value.
  lemma OptionRoundTrip(b: Block)
    requires Typed(b)
    ensures Parse(Marshal(b)) == Some(b) <==> b.num < 0x10_0000 && b.szx <= MAX_SZX
  {
    if b.num < 0x10_0000 && b.szx < 8 {
      SmallUnpacks(b);
    }
    ParseOfPack(Raw(b), Unpack(Raw(b) % 0x100_0000));
    OnlySmall(b, Raw(b));
  }

  lemma SmallUnpacks(b: Block)
    requires b.num < 0x10_0000 && b.szx < 8
    ensures Unpack(Raw(b) % 0x100_0000) == b
  {
    UnpackRaw(b);
  }

  lemma OnlySmall(b: Block, raw: nat)
    ensures Unpack(raw % 0x100_0000) == b ==> b.num < 0x10_0000 && b.szx < 8
  {
    SmallFields(raw);
  }

  lemma ParseOfPack(raw: nat, b: Block)
    requires b == Unpack(raw % 0x100_0000)
    ensures Parse(Pack(raw)) == if b.szx > MAX_SZX then None else Some(b)
  {
    ValueOfPack(raw);
  }

  lemma SmallFields(raw: nat)
    ensures Unpack(raw % 0x100_0000).num < 0x10_0000 && Unpack(raw % 0x100_0000).szx < 8
  {
  }

  lemma UnpackRaw(b: Block)
    requires b.num < 0x10_0000 && b.szx < 8
    ensures Unpack(Raw(b)) == b && Raw(b) < 0x100_0000
  {
    RawIs(b);
    var low := b.szx + if b.more then 8 else 0;
    assert Raw(b) == b.num * 16 + low && low < 16;
    UnpackDigits(b.num, low);
  }

  lemma UnpackDigits(num: nat, low: nat)
    requires low < 16
    ensures var raw := num * 16 + low; raw / 16 == num && raw / 8 % 2 == low / 8 && raw % 8 == low % 8
  {
    var raw, high := num * 16 + low, low / 8;
    assert raw == 8 * (2 * num + high) + low % 8;
    assert raw / 8 == 2 * num + high;
  }

  // Re-encoding an accepted value gives its shortest form.
  lemma ReencodeIsShortest(v: seq<Byte>)
    requires Parse(v).Some?
    ensures Typed(Parse(v).value)
    ensures var w := Marshal(Parse(v).value);
            Value(w) == Value(v) && (|w| > 1 ==> w[0] != 0) && (w == [] <==> Value(v) == 0)
  {
    ValueBound(v);
    PowUpTo3(|v|);
    Repacked(Value(v), Unpack(Value(v)));
  }

  lemma Repacked(raw: nat, b: Block)
    requires raw < 0x100_0000 && b == Unpack(raw)
    ensures Typed(b)
    ensures var w := Marshal(b); Value(w) == raw && (|w| > 1 ==> w[0] != 0) && (w == [] <==> raw == 0)
  {
    RawOfUnpack(raw);
    ValueOfPack(raw);
  }

  lemma RawOfUnpack(raw: nat)
    requires raw < 0x100_0000
    ensures Typed(Unpack(raw)) && Raw(Unpack(raw)) == raw
  {
    RawIs(Unpack(raw));
    Digits(raw);
  }

  lemma Digits(raw: nat)
    requires raw < 0x100_0000
    ensures raw / 16 * 16 % 0x1_0000_0000 == raw / 16 * 16
    ensures raw / 16 * 16 + raw % 8 + 8 * (raw / 8 % 2) == raw
  {
    var high := raw / 8;
    assert raw == 8 * high + raw % 8 && high / 2 == raw / 16;
  }

  lemma PowUpTo3(n: nat)
    requires n <= 3
    ensures Pow256(n) <= 0x100_0000
  {
    assert Pow256(2) == 0x1_0000 && Pow256(3) == 256 * Pow256(2);
  }

  // ------------------------------------------------------------------ one answer

  // sliceBlock: the bytes at num * size and whether more follow.
  function Slice(body: seq<Byte>, num: nat, size: nat): Option<(seq<Byte>, bool)> {
    var offset := num * size;
    if offset >= |body| then None
    else if offset + size >= |body| then Some((body[offset..], false))
    else Some((body[offset..offset + size], true))
  }

  // sizeExp as a function: the first exponent that matches, else the largest.
  function ExpFrom(size: nat, from: nat): (e: nat)
    requires from <= MAX_SZX
    ensures e <= MAX_SZX
    decreases MAX_SZX - from
  {
    if Size(from) == size || from == MAX_SZX then from else ExpFrom(size, from + 1)
  }

  method SizeExp(size: nat) returns (szx: nat)
    ensures szx == ExpFrom(size, 0)
  {
    szx := 0;
    while szx <= MAX_SZX
      invariant szx <= MAX_SZX ==> ExpFrom(size, szx) == ExpFrom(size, 0)
      invariant szx <= MAX_SZX + 1 && (szx == MAX_SZX + 1 ==> ExpFrom(size, 0) == MAX_SZX)
    {
      if Size(szx) == size {
        return;
      }
      szx := szx + 1;
    }
    szx := MAX_SZX;
  }

  lemma {:induction false} ExpOfSize(e: nat, from: nat)
    requires from <= e <= MAX_SZX
    ensures ExpFrom(Size(e), from) == e
    decreases e - from
  {
    if from < e {
      Pow2Ascends(from + 4, e + 4);
      ExpOfSize(e, from + 1);
    }
  }

  lemma {:induction false} Pow2Ascends(a: nat, b: nat)
    requires a < b
    ensures Pow2(a) < Pow2(b)
  {
    if a + 1 < b {
      Pow2Ascends(a, b - 1);
    }
  }

  datatype Request = NoOption | Invalid | Asked(b: Block)
  datatype Reply = BadOption | Whole(body: seq<Byte>) | Part(chunk: seq<Byte>, block: Block)

  // The request's Block2 option, if it carries one.
  function Read(v: Option<seq<Byte>>): Request {
    if v.None? then NoOption
    else match Parse(v.value) case None => Invalid case Some(b) => Asked(b)
  }

  // applyBlock2.
  function Answer(body: seq<Byte>, req: Request, maxSize: int): Reply {
    if maxSize <= 0 then Whole(body)
    else
      match req
      case NoOption => if |body| <= maxSize then Whole(body) else Cut(body, 0, maxSize)
      case Invalid => BadOption
      case Asked(b) => Cut(body, b.num * Size(b.szx), if Size(b.szx) > maxSize then maxSize else Size(b.szx))
  }

  function Cut(body: seq<Byte>, offset: nat, size: nat): Reply
    requires size > 0
  {
    var num := offset / size % 0x1_0000_0000;
    match Slice(body, num, size)
    case None => BadOption
    case Some((chunk, more)) => Part(chunk, Block(num, more, ExpFrom(size, 0)))
  }

  // ------------------------------------------------------------------ renegotiation

  lemma {:induction false} Pow2Sum(a: nat, b: nat)
    ensures Pow2(a + b) == Pow2(a) * Pow2(b)
  {
    if a > 0 {
      Pow2Sum(a - 1, b);
      assert Pow2(a + b) == 2 * (Pow2(a - 1) * Pow2(b));
    }
  }

  lemma MulMono(a: int, b: int, size: nat)
    requires a <= b
    ensures a * size <= b * size
  {
  }

  lemma Exact(n: nat, size: nat)
    requires size > 0
    ensures n * size / size == n
  {
    var q := n * size / size;
    assert n * size == q * size + n * size % size;
    if q < n {
      MulMono(q + 1, n, size);
    } else if q > n {
      MulMono(n + 1, q, size);
    }
  }

  lemma SmallerSize(e: nat, m: nat)
    requires m <= e <= MAX_SZX
    ensures Size(e) == Pow2(e - m) * Size(m) && Pow2(e - m) <= 64
  {
    Pow2Sum(e - m, m + 4);
    assert Pow2(6) == 64 by {
      assert Pow2(3) == 8 && Pow2(6) == 8 * Pow2(3);
    }
    if e - m < 6 {
      Pow2Ascends(e - m, 6);
    }
  }

  // The reply a client may expect for the given offset and size: the bytes from there, as
  // many as the size or what is left, a block number that names that offset, M telling
  // whether bytes remain; refused at or past the end.
  predicate Covers(reply: Reply, body: seq<Byte>, offset: nat, size: nat, szx: nat) {
    if offset >= |body| then reply == BadOption
    else
      var end := if offset + size < |body| then offset + size else |body|;
      && reply.Part? && reply.chunk == body[offset..end] && reply.block.szx == szx
      && reply.block.num * size == offset && (reply.block.more <==> end < |body|)
  }

  lemma CutCovers(body: seq<Byte>, num: nat, offset: nat, size: nat)
    requires size > 0 && num < 0x1_0000_0000 && offset == num * size
    ensures Covers(Cut(body, offset, size), body, offset, size, ExpFrom(size, 0))
    ensures Cut(body, offset, size).Part? ==> Cut(body, offset, size).block.num == num
  {
    Exact(num, size);
  }

  function Smaller(a: nat, b: nat): nat { if a < b then a else b }

  lemma SmallerSizes(a: nat, b: nat)
    ensures Size(Smaller(a, b)) == Smaller(Size(a), Size(b))
  {
    if a < b {
      Pow2Ascends(a + 4, b + 4);
    } else if b < a {
      Pow2Ascends(b + 4, a + 4);
    }
  }

  lemma Regroup(a: nat, b: nat, c: nat)
    ensures a * (b * c) == a * b * c
  {
  }

  lemma Rescaled(num: nat, e: nat, m: nat) returns (scaled: nat)
    requires num < 0x10_0000 && m <= e <= MAX_SZX
    ensures scaled == num * Pow2(e - m) < 0x1_0000_0000 && num * Size(e) == scaled * Size(m)
  {
    scaled := num * Pow2(e - m);
    SmallerSize(e, m);
    Regroup(num, Pow2(e - m), Size(m));
    MulMono(num, 0x10_0000, Pow2(e - m));
  }

  // Whatever legal block a client asks for, a server with a legal maximum answers from the
  // requested byte offset, at the smaller of the two sizes.
  lemma SameOffset(body: seq<Byte>, b: Block, offset: nat, m: nat, e: nat, reply: Reply)
    requires b.num < 0x10_0000 && b.szx <= MAX_SZX && m <= MAX_SZX && e == Smaller(m, b.szx)
    requires offset == b.num * Size(b.szx) && reply == Answer(body, Asked(b), Size(m))
    ensures Covers(reply, body, offset, Size(e), e)
    ensures reply.Part? ==> reply.block.num == b.num * Pow2(b.szx - e)
  {
    SmallerSizes(m, b.szx);
    var scaled := Rescaled(b.num, b.szx, e);
    ExpOfSize(e, 0);
    CutCovers(body, scaled, offset, Size(e));
  }

  // ------------------------------------------------------------------ a whole transfer

  // The number of blocks: len / size rounded up.
  function Blocks(len: nat, size: nat): (n: nat)
    requires size > 0
  {
    (len + size - 1) / size
  }

  lemma BlocksBound(len: nat, size: nat)
    requires size > 0 && len > 0
    ensures var n := Blocks(len, size); n > 0 && (n - 1) * size < len <= n * size
  {
    var x := len + size - 1;
    assert x == Blocks(len, size) * size + x % size;
  }

  // A client's k-th request. The first leaves the size to the server, which then has to cut
  // the body, or asks for any legal size; the answer fixes the exponent e for the others.
  predicate Asks(req: Request, body: seq<Byte>, k: nat, e: nat, m: nat) {
    if k > 0 then req.Asked? && req.b.num == k && req.b.szx == e
    else if req.NoOption? then e == m && |body| > Size(m)
    else req.Asked? && req.b.num == 0 && req.b.szx <= MAX_SZX && e == Smaller(m, req.b.szx)
  }

  // The replies to a client's requests, block after block.
  ghost predicate Replies(rs: seq<Reply>, body: seq<Byte>, e: nat, m: nat) {
    forall k :: 0 <= k < |rs| ==> Replied(rs[k], body, k, e, m)
  }

  ghost predicate Replied(reply: Reply, body: seq<Byte>, k: nat, e: nat, m: nat) {
    exists req :: Asks(req, body, k, e, m) && reply == Answer(body, req, Size(m))
  }

  // k * size
  function Offset(k: nat, size: nat): nat {
    if k == 0 then 0 else Offset(k - 1, size) + size
  }

  lemma {:induction false} OffsetIs(k: nat, size: nat)
    ensures Offset(k, size) == k * size
  {
    if k > 0 {
      OffsetIs(k - 1, size);
      assert k * size == (k - 1) * size + size;
    }
  }

  predicate AllCover(rs: seq<Reply>, body: seq<Byte>, size: nat, szx: nat) {
    forall k :: 0 <= k < |rs| ==>
        Covers(rs[k], body, Offset(k, size), size, szx) && (rs[k].Part? ==> rs[k].block.num == k)
  }

  function Joined(rs: seq<Reply>): seq<Byte> {
    if rs == [] then []
    else
      var last := rs[|rs| - 1];
      Joined(rs[..|rs| - 1]) + if last.Part? then last.chunk else []
  }

  lemma ChunkExtends(reply: Reply, body: seq<Byte>, offset: nat, size: nat, szx: nat)
    requires Covers(reply, body, offset, size, szx)
    ensures body[..Smaller(offset, |body|)] + (if reply.Part? then reply.chunk else []) ==
            body[..Smaller(offset + size, |body|)]
  {
  }

  lemma {:induction false} JoinedIsPrefix(rs: seq<Reply>, body: seq<Byte>, size: nat, szx: nat)
    requires AllCover(rs, body, size, szx)
    ensures Joined(rs) == body[..Smaller(Offset(|rs|, size), |body|)]
    decreases |rs|
  {
    if rs != [] {
      var n := |rs| - 1;
      JoinedIsPrefix(rs[..n], body, size, szx);
      ChunkExtends(rs[n], body, Offset(n, size), size, szx);
    }
  }

  lemma ReplyCovers(reply: Reply, body: seq<Byte>, req: Request, k: nat, offset: nat, e: nat, m: nat)
    requires Asks(req, body, k, e, m) && reply == Answer(body, req, Size(m)) && offset == k * Size(e)
    requires k < 0x10_0000 && e <= m <= MAX_SZX
    ensures Covers(reply, body, offset, Size(e), e) && (reply.Part? ==> reply.block.num == k)
  {
    if req.NoOption? {
      WithoutOption(body, m);
    } else {
      if k == 0 {
        assert 0 * Size(req.b.szx) == 0 && 0 * Pow2(req.b.szx - e) == 0;
      }
      SameOffset(body, req.b, offset, m, e, reply);
      assert Pow2(0) == 1;
    }
  }

  lemma RepliesCover(rs: seq<Reply>, body: seq<Byte>, e: nat, m: nat)
    requires Replies(rs, body, e, m) && e <= m <= MAX_SZX && |rs| <= 0x10_0000
    ensures AllCover(rs, body, Size(e), e)
  {
    forall k | 0 <= k < |rs|
      ensures Covers(rs[k], body, Offset(k, Size(e)), Size(e), e) && (rs[k].Part? ==> rs[k].block.num == k)
    {
      assert Replied(rs[k], body, k, e, m);
      var req :| Asks(req, body, k, e, m) && rs[k] == Answer(body, req, Size(m));
      OffsetIs(k, Size(e));
      ReplyCovers(rs[k], body, req, k, Offset(k, Size(e)), e, m);
    }
  }

  // A non-empty body fetched block by block, at a size that client and server agreed on or
  // that the server chose: the blocks up to the last make up the body, each reply names its
  // block, M is clear only on the last, and every block after it is refused.
  lemma TransferIsComplete(rs: seq<Reply>, body: seq<Byte>, e: nat, m: nat)
    requires Replies(rs, body, e, m) && m <= MAX_SZX && body != []
    requires Blocks(|body|, Size(e)) <= |rs| <= 0x10_0000
    ensures Joined(rs[..Blocks(|body|, Size(e))]) == body
    ensures forall k :: 0 <= k < |rs| ==> Right(rs[k], k, Blocks(|body|, Size(e)), e)
  {
    var n, size := Blocks(|body|, Size(e)), Size(e);
    BlocksBound(|body|, size);
    assert Replied(rs[0], body, 0, e, m);
    RepliesCover(rs, body, e, m);
    JoinedIsPrefix(rs[..n], body, size, e);
    OffsetIs(n, size);
    forall k | 0 <= k < |rs| ensures Right(rs[k], k, n, e) {
      OffsetIs(k, size);
      CoverIsRight(rs[k], body, k, Offset(k, size), size, e, n);
    }
  }

  predicate Right(reply: Reply, k: nat, n: nat, e: nat) {
    if k < n then reply.Part? && reply.block == Block(k, k + 1 < n, e) else reply == BadOption
  }

  lemma CoverIsRight(reply: Reply, body: seq<Byte>, k: nat, offset: nat, size: nat, e: nat, n: nat)
    requires Covers(reply, body, offset, size, e) && (reply.Part? ==> reply.block.num == k)
    requires offset == k * size && n > 0 && (n - 1) * size < |body| <= n * size
    ensures Right(reply, k, n, e)
  {
    assert (k + 1) * size == offset + size;
    if k >= n {
      MulMono(n, k, size);
    } else if k + 1 < n {
      MulMono(k, n - 1, size);
      MulMono(k + 1, n - 1, size);
    }
  }

  // A body of at most 2^20 blocks can be asked for to its end: the request and the echoed
  // option of each of its blocks survive the wire.
  lemma TransferFitsTheWire(body: seq<Byte>, e: nat, k: nat, more: bool)
    requires e <= MAX_SZX && 0 < |body| <= 0x10_0000 * Size(e) && k < Blocks(|body|, Size(e))
    ensures Blocks(|body|, Size(e)) <= 0x10_0000
    ensures Read(Some(Marshal(Block(k, more, e)))) == Asked(Block(k, more, e))
  {
    var n, size := Blocks(|body|, Size(e)), Size(e);
    BlocksBound(|body|, size);
    if n > 0x10_0000 {
      MulMono(0x10_0000, n - 1, size);
      assert false;
    }
    OptionRoundTrip(Block(k, more, e));
  }

  // A server that answers with smaller blocks than asked for counts in its own size, and the
  // echoed number fits its 20 bits exactly when the offset is below 2^20 of those blocks.
  lemma EchoFits(body: seq<Byte>, b: Block, m: nat, reply: Reply)
    requires b.num < 0x10_0000 && m < b.szx <= MAX_SZX && b.num * Size(b.szx) < |body|
    requires reply == Answer(body, Asked(b), Size(m))
    ensures reply.Part? && Typed(reply.block)
    ensures Parse(Marshal(reply.block)) == Some(reply.block) <==> b.num * Size(b.szx) < 0x10_0000 * Size(m)
  {
    EchoFitsAt(body, b, b.num * Size(b.szx), m, reply);
  }

  lemma EchoFitsAt(body: seq<Byte>, b: Block, offset: nat, m: nat, reply: Reply)
    requires b.num < 0x10_0000 && m < b.szx <= MAX_SZX && b.num * Size(b.szx) == offset < |body|
    requires reply == Answer(body, Asked(b), Size(m))
    ensures reply.Part? && Typed(reply.block)
    ensures Parse(Marshal(reply.block)) == Some(reply.block) <==> offset < 0x10_0000 * Size(m)
  {
    Echoed(body, b, offset, m, reply);
    EchoedNumber(reply.block, offset, Size(m));
  }

  // The first that does not: block 2^14 of 1024 bytes, answered in blocks of 16. The client
  // reads the option of block 0.
  lemma EchoReadsAsBlock0(body: seq<Byte>, reply: Reply)
    requires |body| > 0x100_0000 && reply == Answer(body, Asked(Block(0x4000, false, 6)), 16)
    ensures reply.Part? && reply.block.num == 0x10_0000
    ensures Parse(Marshal(reply.block)) == Some(reply.block.(num := 0))
  {
    SmallestAndLargest();
    Echoed(body, Block(0x4000, false, 6), 0x100_0000, 0, reply);
    FirstTooLarge(reply.block);
  }

  lemma SmallestAndLargest()
    ensures Size(0) == 16 && Size(6) == 1024
  {
    assert Pow2(2) == 4 && Pow2(4) == 4 * Pow2(2) && Pow2(6) == 4 * Pow2(4);
    assert Pow2(8) == 4 * Pow2(6) && Pow2(10) == 4 * Pow2(8);
  }

  lemma FirstTooLarge(b: Block)
    requires b.num == 0x10_0000 && b.szx == 0
    ensures Parse(Marshal(b)) == Some(b.(num := 0))
  {
    var low := if b.more then 8 else 0;
    RawOfFirst(b, low);
    LowBits(low);
    ParseOfPack(0x100_0000 + low, Unpack(low));
  }

  lemma RawOfFirst(b: Block, low: nat)
    requires b.num == 0x10_0000 && b.szx == 0 && low == if b.more then 8 else 0
    ensures Raw(b) == 0x100_0000 + low
  {
    RawIs(b);
  }

  lemma LowBits(low: nat)
    requires low < 16
    ensures (0x100_0000 + low) % 0x100_0000 == low
    ensures Unpack(low) == Block(0, low >= 8, low % 8)
  {
  }

  lemma Echoed(body: seq<Byte>, b: Block, offset: nat, m: nat, reply: Reply)
    requires b.num < 0x10_0000 && m < b.szx <= MAX_SZX && b.num * Size(b.szx) == offset < |body|
    requires reply == Answer(body, Asked(b), Size(m))
    ensures reply.Part? && Typed(reply.block) && reply.block.szx == m
    ensures reply.block.num * Size(m) == offset
  {
    var scaled := Rescaled(b.num, b.szx, m);
    SameOffset(body, b, offset, m, m, reply);
    EchoedBlock(reply, body, scaled, offset, m);
  }

  lemma EchoedBlock(reply: Reply, body: seq<Byte>, scaled: nat, offset: nat, m: nat)
    requires Covers(reply, body, offset, Size(m), m) && offset < |body| && m <= MAX_SZX
    requires (reply.Part? ==> reply.block.num == scaled) && scaled < 0x1_0000_0000
    ensures reply.Part? && Typed(reply.block) && reply.block.szx == m && reply.block.num == scaled
  {
  }

  lemma LessTimes(a: nat, b: nat, size: nat)
    requires size > 0
    ensures a < b <==> a * size < b * size
  {
    if a < b {
      MulMono(a + 1, b, size);
      assert (a + 1) * size == a * size + size;
    } else {
      MulMono(b, a, size);
    }
  }

  lemma EchoedNumber(block: Block, offset: nat, size: nat)
    requires Typed(block) && block.szx <= MAX_SZX && block.num * size == offset && size > 0
    ensures Parse(Marshal(block)) == Some(block) <==> offset < 0x10_0000 * size
  {
    OptionRoundTrip(block);
    LessTimes(block.num, 0x10_0000, size);
  }

  // Without a Block2 option a body that fits goes out whole, and a larger one as block 0 at
  // the server's size.
  lemma WithoutOption(body: seq<Byte>, m: nat)
    requires m <= MAX_SZX
    ensures var reply := Answer(body, NoOption, Size(m));
            if |body| <= Size(m) then reply == Whole(body)
            else reply == Part(body[..Size(m)], Block(0, true, m))
  {
    ExpOfSize(m, 0);
  }
}
