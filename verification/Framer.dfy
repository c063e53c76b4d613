/**
 * The TCP framers: the plain readers that pull bytes from the connection, the buffered
 * readers that work inside a bufio.Reader, the writers, and the session's batching write
 * loop (internal/transport/tcp/framer.go, session.go).
 *
 * How many bytes one Read of the connection yields is left open everywhere, so each
 * postcondition holds for every way the network cuts the stream into chunks.
 */
module Framer {
  import opened Bytes

  datatype Error = EOF | UnexpectedEOF | FrameTooLarge
  datatype Result<T> = Ok(value: T) | Err(error: Error)
  datatype Framer = LengthPrefix(max: int) | Line(max: int, delimiter: Byte)
  // A session reads either from the connection or through a buffer of the given size.
  datatype Mode = Plain | Buffered(size: nat)

  const DEFAULT_MAX := 1024 * 1024

  function Limit(max: int): (n: nat) { if max > 0 then max else DEFAULT_MAX }

  function Delim(d: Byte): Byte { if d == 0 then 10 else d }

  // ------------------------------------------------------------------ what is read

  // io.ReadFull of n bytes.
  function Full(s: seq<Byte>, n: nat): (Result<seq<Byte>>, seq<Byte>) {
    if n <= |s| then (Ok(s[..n]), s[n..])
    else (Err(if s == [] then EOF else UnexpectedEOF), [])
  }

  // One length-prefixed frame; the size check compares in uint32.
  function LengthFrame(s: seq<Byte>, max: int): (Result<seq<Byte>>, seq<Byte>) {
    var (header, rest) := Full(s, 4);
    if header.Err? then (header, rest)
    else
      var raw := Value(header.value);
      if raw > Limit(max) % 0x1_0000_0000 then (Err(FrameTooLarge), rest) else Full(rest, raw)
  }

  // The position of the first d in s, |s| when there is none.
  function Index(s: seq<Byte>, d: Byte): (i: nat)
    ensures i <= |s| && (i < |s| ==> s[i] == d) && d !in s[..i]
  {
    if s == [] || s[0] == d then 0
    else
      var i := Index(s[1..], d);
      assert s[..1 + i] == [s[0]] + s[1..][..i];
      1 + i
  }

  // One line, read byte by byte: the delimiter counts against the limit.
  function LinePlain(s: seq<Byte>, d: Byte, max: nat): (Result<seq<Byte>>, seq<Byte>) {
    var i := Index(s, d);
    if i < |s| && i < max then (Ok(s[..i]), s[i + 1..])
    else if |s| > max then (Err(FrameTooLarge), s[max + 1..])
    else (Err(EOF), [])
  }

  // The part of n bytes that comes in whole buffers.
  function WholeBuffers(n: nat, size: nat): (w: nat)
    requires size > 0
    ensures n - size < w <= n
  {
    if n < size then 0 else size + WholeBuffers(n - size, size)
  }

  // One line, read through a buffer: the delimiter does not count, and a stream that ends
  // without one is only measured in whole buffers.
  function LineBuffered(s: seq<Byte>, d: Byte, max: nat, size: nat): (Result<seq<Byte>>, seq<Byte>)
    requires size > 0
  {
    var i := Index(s, d);
    if i < |s| && i <= max then (Ok(s[..i]), s[i + 1..])
    else if i < |s| || WholeBuffers(|s|, size) > max then (Err(FrameTooLarge), [])
    else (Err(EOF), [])
  }

  predicate Sized(mode: Mode) { mode.Buffered? ==> mode.size >= 16 }

  function Next(f: Framer, mode: Mode, s: seq<Byte>): (Result<seq<Byte>>, seq<Byte>)
    requires Sized(mode)
  {
    match f
    case LengthPrefix(max) => LengthFrame(s, max)
    case Line(max, d) =>
      if mode.Plain? then LinePlain(s, Delim(d), Limit(max))
      else LineBuffered(s, Delim(d), Limit(max), mode.size)
  }

  lemma NextConsumes(f: Framer, mode: Mode, s: seq<Byte>)
    requires Sized(mode) && Next(f, mode, s).0.Ok?
    ensures |Next(f, mode, s).1| < |s|
  {
  }

  // A read loop: frames until the first error.
  function ReadAll(f: Framer, mode: Mode, s: seq<Byte>): (seq<seq<Byte>>, Error)
    requires Sized(mode)
    decreases |s|
  {
    var (r, rest) := Next(f, mode, s);
    if r.Err? then ([], r.error)
    else
      NextConsumes(f, mode, s);
      var (frames, e) := ReadAll(f, mode, rest);
      ([r.value] + frames, e)
  }

  lemma ReadAllStep(f: Framer, mode: Mode, s: seq<Byte>, p: seq<Byte>, rest: seq<Byte>)
    requires Sized(mode) && Next(f, mode, s) == (Ok(p), rest)
    ensures |rest| < |s| && ReadAll(f, mode, s).1 == ReadAll(f, mode, rest).1
    ensures ReadAll(f, mode, s).0 == [p] + ReadAll(f, mode, rest).0
  {
    NextConsumes(f, mode, s);
  }

  // ------------------------------------------------------------------ the plain readers

  class Conn {
    var data: seq<Byte>  // what the peer has sent and nobody has read

    constructor (bytes: seq<Byte>)
      ensures data == bytes
    {
      data := bytes;
    }

    method Read(n: nat) returns (r: Result<seq<Byte>>)
      requires n > 0
      modifies this
      ensures old(data) == [] ==> r == Err(EOF) && data == []
      ensures old(data) != [] ==> r.Ok? && 0 < |r.value| <= n && old(data) == r.value + data
    {
      if data == [] {
        return Err(EOF);
      }
      var k :| 1 <= k <= n && k <= |data|;
      r := Ok(data[..k]);
      data := data[k..];
    }

    method ReadFull(n: nat) returns (r: Result<seq<Byte>>)
      modifies this
      ensures (r, data) == Full(old(data), n)
    {
      var got := [];
      while |got| < n
        invariant got + data == old(data) && |got| <= n
      {
        var chunk := Read(n - |got|);
        if chunk.Err? {
          return Err(if got == [] then EOF else UnexpectedEOF);
        }
        got := got + chunk.value;
      }
      return Ok(got);
    }

    method ReadLength(max: int) returns (r: Result<seq<Byte>>)
      modifies this
      ensures (r, data) == LengthFrame(old(data), max)
    {
      var header := ReadFull(4);
      if header.Err? {
        return header;
      }
      var raw := Value(header.value);
      if raw > Limit(max) % 0x1_0000_0000 {
        return Err(FrameTooLarge);
      }
      r := ReadFull(raw);
    }

    method ReadLine(d: Byte, max: nat) returns (r: Result<seq<Byte>>)
      modifies this
      ensures (r, data) == LinePlain(old(data), d, max)
    {
      ghost var s := data;
      var line := [];
      while true
        invariant line + data == s && |line| <= max && d !in line
        decreases |data|
      {
        var b := ReadFull(1);
        IndexAfter(line, data, s, d, b);
        if b.Err? {
          return Err(EOF);
        }
        line := line + b.value;
        if |line| > max {
          return Err(FrameTooLarge);
        }
        if b.value[0] == d {
          return Ok(line[..|line| - 1]);
        }
      }
    }

    method ReadFrame(f: Framer) returns (r: Result<seq<Byte>>)
      modifies this
      ensures (r, data) == Next(f, Plain, old(data))
    {
      match f
      case LengthPrefix(max) => r := ReadLength(max);
      case Line(max, d) => r := ReadLine(Delim(d), Limit(max));
    }
  }

  // Where the delimiter is, as seen after a prefix without one.
  lemma {:induction false} IndexSkips(a: seq<Byte>, b: seq<Byte>, d: Byte)
    requires d !in a
    ensures Index(a + b, d) == |a| + Index(b, d)
  {
    if a == [] {
      assert a + b == b;
    } else {
      assert (a + b)[1..] == a[1..] + b;
      assert a[0] != d;
      IndexSkips(a[1..], b, d);
    }
  }

  lemma {:induction false} IndexAtMost(s: seq<Byte>, d: Byte, j: nat)
    requires j < |s| && s[j] == d
    ensures Index(s, d) <= j
  {
    if s[0] != d {
      IndexAtMost(s[1..], d, j - 1);
    }
  }

  lemma IndexAfter(line: seq<Byte>, rest: seq<Byte>, s: seq<Byte>, d: Byte, b: Result<seq<Byte>>)
    requires d !in line && (b.Err? ==> s == line && rest == [])
    requires b.Ok? ==> |b.value| == 1 && s == line + b.value + rest
    ensures b.Err? ==> Index(s, d) == |s|
    ensures b.Ok? && b.value[0] == d ==> Index(s, d) == |line| && s[..|line|] == line && s[|line| + 1..] == rest
    ensures b.Ok? && b.value[0] != d ==> Index(s, d) > |line|
  {
    if b.Err? {
      IndexSkips(line, [], d);
      assert line + [] == s;
    } else {
      IndexSkips(line, b.value + rest, d);
      assert line + (b.value + rest) == s;
    }
  }

  // ------------------------------------------------------------------ the buffered readers

  class BufReader {
    const size: nat
    var buf: seq<Byte>   // read from the connection, not yet consumed
    var data: seq<Byte>  // not yet read from the connection

    ghost predicate Valid() reads this { size >= 16 && |buf| <= size }
    function Stream(): seq<Byte> reads this { buf + data }

    // bufio.NewReaderSize: at least 16 bytes.
    constructor (bytes: seq<Byte>, n: nat)
      ensures Valid() && Stream() == bytes && size == if n < 16 then 16 else n
    {
      size := if n < 16 then 16 else n;
      buf := [];
      data := bytes;
    }

    // One Read of the connection into the free part of the buffer.
    method Fill() returns (eof: bool)
      requires Valid() && |buf| < size
      modifies this
      ensures Valid() && Stream() == old(Stream()) && |data| <= |old(data)|
      ensures eof == (old(data) == [])
      ensures if eof then buf == old(buf) && data == [] else |data| < |old(data)| && old(buf) <= buf
    {
      if data == [] {
        return true;
      }
      var k :| 1 <= k <= |data| && k <= size - |buf|;
      buf := buf + data[..k];
      data := data[k..];
      eof := false;
    }

    method Peek(n: nat) returns (r: Result<seq<Byte>>)
      requires Valid() && n <= size
      modifies this
      ensures Valid() && Stream() == old(Stream())
      ensures |Stream()| >= n ==> r == Ok(Stream()[..n]) && n <= |buf|
      ensures |Stream()| < n ==> r == Err(EOF) && buf == Stream()
    {
      while |buf| < n
        invariant Valid() && Stream() == old(Stream())
        decreases |data|
      {
        var eof := Fill();
        if eof {
          return Err(EOF);
        }
      }
      assert buf[..n] == Stream()[..n];
      return Ok(buf[..n]);
    }

    method Discard(n: nat)
      requires Valid() && n <= |buf|
      modifies this
      ensures Valid() && Stream() == old(Stream())[n..]
    {
      buf := buf[n..];
    }

    // bufio.Reader.Read: what is buffered first; a request at least as large as an empty
    // buffer goes straight to the connection.
    method Read(n: nat) returns (r: Result<seq<Byte>>)
      requires Valid() && n > 0
      modifies this
      ensures Valid()
      ensures old(Stream()) == [] ==> r == Err(EOF) && Stream() == []
      ensures old(Stream()) != [] ==> r.Ok? && 0 < |r.value| <= n && old(Stream()) == r.value + Stream()
    {
      if buf == [] {
        if data == [] {
          return Err(EOF);
        }
        if n >= size {
          var k :| 1 <= k <= n && k <= |data|;
          r := Ok(data[..k]);
          data := data[k..];
          return;
        }
        var _ := Fill();
      }
      var k := if n < |buf| then n else |buf|;
      r := Ok(buf[..k]);
      buf := buf[k..];
    }

    method ReadFull(n: nat) returns (r: Result<seq<Byte>>)
      requires Valid()
      modifies this
      ensures Valid() && (r, Stream()) == Full(old(Stream()), n)
    {
      var got := [];
      while |got| < n
        invariant Valid() && got + Stream() == old(Stream()) && |got| <= n
      {
        var chunk := Read(n - |got|);
        if chunk.Err? {
          return Err(if got == [] then EOF else UnexpectedEOF);
        }
        got := got + chunk.value;
      }
      return Ok(got);
    }

    // The delimiter's place within the buffer, if any; bytes already searched are skipped.
    method Search(d: Byte, searched: nat) returns (i: nat)
      requires searched <= |buf| && d !in buf[..searched]
      ensures i <= |buf| && d !in buf[..i] && (i < |buf| ==> buf[i] == d)
    {
      i := searched;
      while i < |buf| && buf[i] != d
        invariant i <= |buf| && d !in buf[..i]
      {
        assert buf[..i + 1] == buf[..i] + [buf[i]];
        i := i + 1;
      }
    }

    // ReadSlice: up to and including the delimiter, or a whole buffer without one, or EOF.
    method ReadSlice(d: Byte) returns (frag: seq<Byte>, full: bool, eof: bool)
      requires Valid()
      modifies this
      ensures Valid() && !(full && eof) && frag + Stream() == old(Stream())
      ensures full ==> |frag| == size && d !in frag
      ensures eof ==> d !in frag && |frag| < size && Stream() == []
      ensures !full && !eof ==> 0 < |frag| <= size && frag[|frag| - 1] == d && d !in frag[..|frag| - 1]
    {
      var searched := 0;
      while true
        invariant Valid() && Stream() == old(Stream()) && searched <= |buf| && d !in buf[..searched]
        decreases |data|
      {
        var i := Search(d, searched);
        if i < |buf| {
          frag, full, eof := buf[..i + 1], false, false;
          assert frag[..i] == buf[..i];
          buf := buf[i + 1..];
          return;
        }
        assert buf[..i] == buf;
        if |buf| >= size {
          frag, full, eof := buf, true, false;
          buf := [];
          return;
        }
        searched := |buf|;
        ghost var before := buf;
        eof := Fill();
        assert buf[..searched] == before;
        if eof {
          frag, full := buf, false;
          buf := [];
          return;
        }
      }
    }

    method ReadLength(max: int) returns (r: Result<seq<Byte>>)
      requires Valid()
      modifies this
      ensures Valid() && r == LengthFrame(old(Stream()), max).0
      ensures r.Ok? ==> Stream() == LengthFrame(old(Stream()), max).1
    {
      var header := Peek(4);
      if header.Err? {
        return Err(if buf != [] then UnexpectedEOF else EOF);
      }
      var raw := Value(header.value);
      if raw > Limit(max) % 0x1_0000_0000 {
        return Err(FrameTooLarge);
      }
      Discard(4);
      r := ReadFull(raw);
    }

    method ReadLine(d: Byte, max: nat) returns (r: Result<seq<Byte>>)
      requires Valid()
      modifies this
      ensures Valid() && r == LineBuffered(old(Stream()), d, max, size).0
      ensures r.Ok? ==> Stream() == LineBuffered(old(Stream()), d, max, size).1
    {
      ghost var s := Stream();
      var out := [];
      while true
        invariant Valid() && out + Stream() == s && d !in out && |out| <= max
        invariant |out| + WholeBuffers(|Stream()|, size) == WholeBuffers(|s|, size)
        decreases |Stream()|
      {
        var frag, full, eof := ReadSlice(d);
        assert s == out + frag + Stream();
        if eof {
          Unfinished(out, frag, s, d, max, size);
          return Err(EOF);
        } else if full {
          out := out + frag;
          if |out| > max {
            TooLong(out, Stream(), s, d, max, size);
            return Err(FrameTooLarge);
          }
        } else {
          var n := |frag| - 1;
          LineEnds(out, frag, Stream(), s, d, max, size);
          if |out| + n > max {
            return Err(FrameTooLarge);
          }
          return Ok(out + frag[..n]);
        }
      }
    }

    method ReadFrame(f: Framer) returns (r: Result<seq<Byte>>)
      requires Valid()
      modifies this
      ensures Valid() && r == Next(f, Buffered(size), old(Stream())).0
      ensures r.Ok? ==> Stream() == Next(f, Buffered(size), old(Stream())).1
    {
      match f
      case LengthPrefix(max) => r := ReadLength(max);
      case Line(max, d) => r := ReadLine(Delim(d), Limit(max));
    }

    // The session's read loop over this reader.
    method ReadLoop(f: Framer) returns (frames: seq<seq<Byte>>, e: Error)
      requires Valid()
      modifies this
      ensures (frames, e) == ReadAll(f, Buffered(size), old(Stream()))
    {
      frames := [];
      while true
        invariant Valid()
        invariant frames + ReadAll(f, Buffered(size), Stream()).0 == ReadAll(f, Buffered(size), old(Stream())).0
        invariant ReadAll(f, Buffered(size), Stream()).1 == ReadAll(f, Buffered(size), old(Stream())).1
        decreases |Stream()|
      {
        ghost var s := Stream();
        var r := ReadFrame(f);
        if r.Err? {
          assert ReadAll(f, Buffered(size), s) == ([], r.error) && frames + [] == frames;
          return frames, r.error;
        }
        ReadAllStep(f, Buffered(size), s, r.value, Stream());
        frames := frames + [r.value];
      }
    }
  }

  lemma Unfinished(out: seq<Byte>, frag: seq<Byte>, s: seq<Byte>, d: Byte, max: nat, size: nat)
    requires size > 0 && s == out + frag && d !in out && d !in frag && |frag| < size
    requires |out| <= max && WholeBuffers(|s|, size) == |out| + WholeBuffers(|frag|, size)
    ensures LineBuffered(s, d, max, size).0 == Err(EOF)
  {
    NoLine(s, d);
  }

  lemma TooLong(out: seq<Byte>, rest: seq<Byte>, s: seq<Byte>, d: Byte, max: nat, size: nat)
    requires size > 0 && s == out + rest && d !in out && |out| > max && WholeBuffers(|s|, size) >= |out|
    ensures LineBuffered(s, d, max, size).0 == Err(FrameTooLarge)
  {
    IndexSkips(out, rest, d);
  }

  lemma LineEnds(out: seq<Byte>, frag: seq<Byte>, rest: seq<Byte>, s: seq<Byte>, d: Byte, max: nat, size: nat)
    requires d !in out && |frag| > 0 && frag[|frag| - 1] == d && d !in frag[..|frag| - 1]
    requires s == out + frag + rest && size > 0
    ensures if |out| + (|frag| - 1) > max then LineBuffered(s, d, max, size).0 == Err(FrameTooLarge)
            else LineBuffered(s, d, max, size) == (Ok(out + frag[..|frag| - 1]), rest)
  {
    var line := out + frag[..|frag| - 1];
    IndexSkips(line, [d] + rest, d);
    assert s == line + ([d] + rest);
  }

  lemma NoLine(s: seq<Byte>, d: Byte)
    requires d !in s
    ensures Index(s, d) == |s|
  {
    IndexSkips(s, [], d);
    assert s + [] == s;
  }

  // ------------------------------------------------------------------ plain against buffered

  // Length-prefixed frames: one specification serves both readers, so they agree on every
  // stream. Lines: the readers agree on the frame and on the remaining stream unless the
  // content is exactly the limit, and then only the buffered one accepts it.
  lemma LineReadersAgree(s: seq<Byte>, d: Byte, max: nat, size: nat)
    requires size > 0 && d in s
    ensures var p, b := LinePlain(s, d, max), LineBuffered(s, d, max, size);
            && (p.0 == b.0 <==> Index(s, d) != max)
            && (p.0.Ok? ==> p == b)
            && (Index(s, d) == max ==> p.0 == Err(FrameTooLarge) && b.0 == Ok(s[..max]))
  {
    assert s[..|s|] == s;
  }

  // A stream that ends without a delimiter: the readers report the same error exactly when
  // the limit does not fall between the whole buffers and the end.
  lemma UnfinishedLine(s: seq<Byte>, d: Byte, max: nat, size: nat)
    requires size > 0 && d !in s
    ensures LinePlain(s, d, max).0 == LineBuffered(s, d, max, size).0 <==> !(WholeBuffers(|s|, size) <= max < |s|)
    ensures LinePlain(s, d, max).0.Err? && LineBuffered(s, d, max, size).0.Err?
  {
    NoLine(s, d);
  }

  // ------------------------------------------------------------------ the writers

  function Encode(f: Framer, p: seq<Byte>): Result<seq<Byte>> {
    match f
    case LengthPrefix(max) => if |p| > Limit(max) then Err(FrameTooLarge) else Ok(Put(|p|, 4) + p)
    case Line(max, d) => if |p| + 1 > Limit(max) then Err(FrameTooLarge) else Ok(p + [Delim(d)])
  }

  // What a caller must check for a frame to survive the trip.
  predicate Sendable(f: Framer, p: seq<Byte>) {
    match f
    case LengthPrefix(max) => |p| < 0x1_0000_0000 && |p| <= Limit(max) % 0x1_0000_0000
    case Line(max, d) => Delim(d) !in p
  }

  lemma LengthReadsBack(p: seq<Byte>, max: int, rest: seq<Byte>)
    requires |p| <= Limit(max)
    ensures LengthFrame(Put(|p|, 4) + p + rest, max) == (Ok(p), rest) <==> Sendable(LengthPrefix(max), p)
  {
    HeaderValue(|p|, 4);
    LengthFrameOf(Put(|p|, 4), p, rest, max);
  }

  // The four-byte header holds the length unless it does not fit.
  lemma HeaderValue(v: nat, n: nat)
    requires n == 4
    ensures Value(Put(v, n)) < 0x1_0000_0000
    ensures v < 0x1_0000_0000 ==> Value(Put(v, n)) == v
  {
    Pow4();
    ValueBound(Put(v, n));
    if v < 0x1_0000_0000 {
      ValueOfPut(v, n);
    }
  }

  lemma LengthFrameOf(header: seq<Byte>, p: seq<Byte>, rest: seq<Byte>, max: int)
    requires |header| == 4
    ensures LengthFrame(header + p + rest, max) == (Ok(p), rest) <==>
            Value(header) == |p| <= Limit(max) % 0x1_0000_0000
  {
    var s := header + p + rest;
    assert s[..4] == header && s[4..] == p + rest;
    assert (p + rest)[..|p|] == p && (p + rest)[|p|..] == rest;
  }

  lemma Pow4()
    ensures Pow256(4) == 0x1_0000_0000
  {
    assert Pow256(3) == Pow256(2) * 256 && Pow256(2) == 0x1_0000;
  }

  lemma LineReadsBack(p: seq<Byte>, d: Byte, max: nat, size: nat, rest: seq<Byte>)
    requires |p| + 1 <= max && size > 0
    ensures LinePlain(p + [d] + rest, d, max) == (Ok(p), rest) <==> d !in p
    ensures LineBuffered(p + [d] + rest, d, max, size) == (Ok(p), rest) <==> d !in p
  {
    var s := p + [d] + rest;
    if d in p {
      var j :| 0 <= j < |p| && p[j] == d;
      IndexAtMost(s, d, j);
    } else {
      IndexSkips(p, [d] + rest, d);
      assert s == p + ([d] + rest);
    }
  }

  // A frame the writer accepts reads back as itself, by either reader, with whatever
  // follows it left in place, if and only if it is Sendable.
  lemma FrameReadsBack(f: Framer, mode: Mode, p: seq<Byte>, rest: seq<Byte>)
    requires Sized(mode) && Encode(f, p).Ok?
    ensures Next(f, mode, Encode(f, p).value + rest) == (Ok(p), rest) <==> Sendable(f, p)
  {
    match f
    case LengthPrefix(max) => LengthReadsBack(p, max, rest);
    case Line(max, d) => LineReadsBack(p, Delim(d), Limit(max), if mode.Plain? then 1 else mode.size, rest);
  }

  predicate Accepted(f: Framer, ps: seq<seq<Byte>>) {
    forall i :: 0 <= i < |ps| ==> Encode(f, ps[i]).Ok?
  }

  function EncodeAll(f: Framer, ps: seq<seq<Byte>>): (s: seq<Byte>)
    requires Accepted(f, ps)
  {
    if ps == [] then [] else Encode(f, ps[0]).value + EncodeAll(f, ps[1..])
  }

  lemma {:induction false} EncodeAllSplits(f: Framer, a: seq<seq<Byte>>, b: seq<seq<Byte>>)
    requires Accepted(f, a) && Accepted(f, b)
    ensures Accepted(f, a + b) && EncodeAll(f, a + b) == EncodeAll(f, a) + EncodeAll(f, b)
  {
    if a == [] {
      assert a + b == b;
    } else {
      EncodeAllSplits(f, a[1..], b);
      assert (a + b)[1..] == a[1..] + b;
    }
  }

  lemma Extended(f: Framer, queue: seq<seq<Byte>>, n: nat, before: seq<Byte>)
    requires n < |queue| && Accepted(f, queue[..n]) && Encode(f, queue[n]).Ok?
    ensures Accepted(f, queue[..n + 1])
    ensures before + EncodeAll(f, queue[..n]) + Encode(f, queue[n]).value == before + EncodeAll(f, queue[..n + 1])
    ensures n == 0 ==> before + Encode(f, queue[n]).value == before + EncodeAll(f, queue[..1])
  {
    var p := [queue[n]];
    EncodeAllSplits(f, queue[..n], p);
    assert queue[..n + 1] == queue[..n] + p;
    assert p[1..] == [] && EncodeAll(f, p) == Encode(f, queue[n]).value;
  }

  lemma Joined(f: Framer, queue: seq<seq<Byte>>, n: nat, k: nat, before: seq<Byte>)
    requires n + k <= |queue| && Accepted(f, queue[..n]) && Accepted(f, queue[n..][..k])
    ensures Accepted(f, queue[..n + k])
    ensures before + EncodeAll(f, queue[..n]) + EncodeAll(f, queue[n..][..k]) == before + EncodeAll(f, queue[..n + k])
  {
    EncodeAllSplits(f, queue[..n], queue[n..][..k]);
    assert queue[..n + k] == queue[..n] + queue[n..][..k];
  }

  // A queue of sendable frames reads back as the same list, then the end of the stream.
  lemma {:induction false} QueueReadsBack(f: Framer, mode: Mode, ps: seq<seq<Byte>>)
    requires Sized(mode) && Accepted(f, ps) && forall i :: 0 <= i < |ps| ==> Sendable(f, ps[i])
    ensures ReadAll(f, mode, EncodeAll(f, ps)) == (ps, EOF)
    decreases |ps|
  {
    if ps == [] {
      assert Next(f, mode, []).0 == Err(EOF);
    } else {
      FrameReadsBack(f, mode, ps[0], EncodeAll(f, ps[1..]));
      QueueReadsBack(f, mode, ps[1..]);
      assert ps == [ps[0]] + ps[1..];
    }
  }

  // ------------------------------------------------------------------ the write loop

  // How many bytes a buffer of the given size holds back after a write of n more: as
  // bufio.Writer fills, flushes and repeats, or bypasses an empty buffer.
  function Held(size: nat, held: nat, n: nat): (h: nat)
    requires held <= size
    ensures h <= size
  {
    if n <= size - held then held + n
    else if held == 0 then 0
    else if n - (size - held) <= size then n - (size - held)
    else 0
  }

  // The same after one frame, written in two parts, and after a batch of frames.
  function FrameHeld(f: Framer, size: nat, held: nat, p: seq<Byte>): (h: nat)
    requires held <= size
    ensures h <= size
  {
    if f.LengthPrefix? then Held(size, Held(size, held, 4), |p|) else Held(size, Held(size, held, |p|), 1)
  }

  function BatchHeld(f: Framer, size: nat, ps: seq<seq<Byte>>): (h: nat)
    ensures h <= size
  {
    if ps == [] then 0 else FrameHeld(f, size, BatchHeld(f, size, ps[..|ps| - 1]), ps[|ps| - 1])
  }

  lemma FrameSize(f: Framer, p: seq<Byte>)
    requires Encode(f, p).Ok?
    ensures |Encode(f, p).value| == |p| + if f.LengthPrefix? then 4 else 1
  {
  }

  // A batch that fits into the buffer stays there as a whole.
  lemma {:induction false} SmallBatchIsHeld(f: Framer, size: nat, ps: seq<seq<Byte>>)
    requires Accepted(f, ps) && |EncodeAll(f, ps)| <= size
    ensures BatchHeld(f, size, ps) == |EncodeAll(f, ps)|
    decreases |ps|
  {
    if ps != [] {
      var init, last := ps[..|ps| - 1], [ps[|ps| - 1]];
      assert ps == init + last && last[1..] == [];
      EncodeAllSplits(f, init, last);
      assert EncodeAll(f, last) == Encode(f, last[0]).value;
      SmallBatchIsHeld(f, size, init);
      FrameSize(f, last[0]);
    }
  }

  lemma HeldTurn(f: Framer, size: nat, batch: seq<seq<Byte>>, n: nat)
    requires n < |batch|
    ensures BatchHeld(f, size, batch[..n + 1]) == FrameHeld(f, size, BatchHeld(f, size, batch[..n]), batch[n])
  {
    assert batch[..n + 1][..n] == batch[..n];
  }

  lemma LoopTurn(f: Framer, queue: seq<seq<Byte>>, n: nat, k: nat, m: nat, before: seq<Byte>)
    requires n + k <= |queue| && m <= k && Accepted(f, queue[..n]) && Accepted(f, queue[n..n + k][..m])
    ensures queue[n..n + k][..m] == queue[n..n + m] && Accepted(f, queue[..n + m])
    ensures before + EncodeAll(f, queue[..n]) + EncodeAll(f, queue[n..n + k][..m]) ==
            before + EncodeAll(f, queue[..n + m])
    ensures m < k ==> queue[n..n + k][m] == queue[n + m]
  {
    assert queue[n..n + k][..m] == queue[n..n + m] == queue[n..][..m];
    Joined(f, queue, n, m, before);
  }

  class Writer {
    const size: nat      // zero: frames go straight to the connection
    var sent: seq<Byte>  // written to the connection
    var buf: seq<Byte>   // held by the bufio.Writer

    ghost predicate Valid() reads this { |buf| <= size }
    function Written(): seq<Byte> reads this { sent + buf }

    constructor (n: nat)
      ensures Valid() && sent == [] && buf == [] && size == n
    {
      size, sent, buf := n, [], [];
    }

    // bufio.Writer.Write: fill, flush and repeat; a write larger than an empty buffer
    // bypasses it. Without a buffer this is the connection's Write.
    method Write(p: seq<Byte>)
      requires Valid()
      modifies this
      ensures Valid() && Written() == old(Written()) + p && old(sent) <= sent
      ensures |buf| == Held(size, |old(buf)|, |p|)
    {
      var rest := p;
      while |rest| > size - |buf|
        invariant Valid() && Written() + rest == old(Written()) + p && old(sent) <= sent
        invariant Held(size, |buf|, |rest|) == Held(size, |old(buf)|, |p|)
        decreases |rest|, |buf|
      {
        if buf == [] {
          sent := sent + rest;
          rest := [];
        } else {
          var n := size - |buf|;
          sent, buf, rest := sent + (buf + rest[..n]), [], rest[n..];
        }
      }
      buf := buf + rest;
    }

    method Flush()
      requires Valid()
      modifies this
      ensures Valid() && buf == [] && Written() == old(Written()) && old(sent) <= sent
    {
      sent, buf := sent + buf, [];
    }

    // framedWrite: the two parts in order.
    method WriteFrame(f: Framer, p: seq<Byte>) returns (ok: bool)
      requires Valid()
      modifies this
      ensures Valid() && ok == Encode(f, p).Ok? && old(sent) <= sent
      ensures Written() == old(Written()) + if ok then Encode(f, p).value else []
      ensures ok ==> |buf| == FrameHeld(f, size, |old(buf)|, p)
      ensures !ok ==> sent == old(sent) && buf == old(buf)
    {
      ok := true;
      match f
      case LengthPrefix(max) =>
        if |p| > Limit(max) {
          return false;
        }
        Write(Put(|p|, 4));
        Write(p);
        assert old(Written()) + Put(|p|, 4) + p == old(Written()) + (Put(|p|, 4) + p);
      case Line(max, d) =>
        if |p| + 1 > Limit(max) {
          return false;
        }
        Write(p);
        Write([Delim(d)]);
        assert old(Written()) + p + [Delim(d)] == old(Written()) + (p + [Delim(d)]);
    }

    // The frame that woke the loop and, when there is a buffer, what was found queued behind
    // it, then one flush. A refused frame ends the batch without the flush.
    method WriteBatch(f: Framer, batch: seq<seq<Byte>>) returns (n: nat, ok: bool)
      requires Valid() && buf == [] && batch != [] && (size == 0 ==> |batch| == 1)
      modifies this
      ensures Valid() && n <= |batch| && Accepted(f, batch[..n]) && old(sent) <= sent
      ensures Written() == old(sent) + EncodeAll(f, batch[..n])
      ensures if ok then n == |batch| && buf == []
              else n < |batch| && Encode(f, batch[n]).Err? && |buf| == BatchHeld(f, size, batch[..n])
    {
      n := 0;
      assert batch[..0] == [];
      while n < |batch|
        invariant n <= |batch| && Valid() && Accepted(f, batch[..n]) && old(sent) <= sent
        invariant Written() == old(sent) + EncodeAll(f, batch[..n]) && |buf| == BatchHeld(f, size, batch[..n])
      {
        ok := WriteFrame(f, batch[n]);
        if !ok {
          return;
        }
        Extended(f, batch, n, old(sent));
        HeldTurn(f, size, batch, n);
        n := n + 1;
      }
      ok := true;
      if size > 0 {
        Flush();
      }
    }

    // The write loop over a queue, however the batches fall: n frames were accepted, the
    // last batch began at `from`. Nothing is missing when the whole queue was accepted.
    // When a frame was refused, the batches before `from` have reached the connection, but
    // the bytes that the last one left in the buffer never do: all n frames are delivered
    // exactly when it left none.
    method WriteLoop(f: Framer, queue: seq<seq<Byte>>) returns (n: nat, from: nat)
      requires Valid() && buf == []
      modifies this
      ensures Valid() && from <= n <= |queue| && Accepted(f, queue[..n]) && Accepted(f, queue[..from])
      ensures n < |queue| ==> Encode(f, queue[n]).Err?
      ensures n == |queue| ==> sent == old(sent) + EncodeAll(f, queue)
      ensures old(sent) + EncodeAll(f, queue[..from]) <= sent
      ensures sent + buf == old(sent) + EncodeAll(f, queue[..n])
      ensures n < |queue| ==> |buf| == BatchHeld(f, size, queue[from..n])
    {
      n, from := 0, 0;
      assert queue[..0] == [];
      while n < |queue|
        invariant from == n <= |queue| && Valid() && buf == [] && Accepted(f, queue[..n])
        invariant sent == old(sent) + EncodeAll(f, queue[..n])
      {
        var k :| 1 <= k <= |queue| - n && (size == 0 ==> k == 1);
        var batch := queue[n..n + k];
        var m, ok := WriteBatch(f, batch);
        LoopTurn(f, queue, n, k, m, old(sent));
        n := n + m;
        if !ok {
          return;
        }
        from := n;
      }
      assert queue[..n] == queue;
    }
  }

  // Frames whose Send succeeded are lost behind a refused one: whatever fits into the
  // buffer, followed in the same batch by a frame over the limit, leaves nothing on the
  // connection.
  method UnflushedFramesAreLost(f: Framer, size: nat, small: seq<seq<Byte>>, large: seq<Byte>) returns (sent: seq<Byte>)
    requires Accepted(f, small) && small != [] && |EncodeAll(f, small)| <= size && Encode(f, large).Err?
    ensures sent == []
  {
    var w := new Writer(size);
    FrameSize(f, small[0]);
    assert EncodeAll(f, small) == Encode(f, small[0]).value + EncodeAll(f, small[1..]);
    var batch := small + [large];
    var n, ok := w.WriteBatch(f, batch);
    StopsAt(f, small, large, n);
    assert batch[..n] == small;
    SmallBatchIsHeld(f, size, small);
    sent := w.sent;
  }

  lemma StopsAt(f: Framer, small: seq<seq<Byte>>, large: seq<Byte>, n: nat)
    requires Accepted(f, small) && Encode(f, large).Err?
    requires n <= |small| + 1 && Accepted(f, (small + [large])[..n])
    requires n < |small| + 1 ==> Encode(f, (small + [large])[n]).Err?
    ensures n == |small|
  {
    var batch := small + [large];
    assert batch[|small|] == large;
    assert forall i :: 0 <= i < n ==> batch[..n][i] == batch[i];
    assert forall i :: 0 <= i < |small| ==> batch[i] == small[i];
  }
}
