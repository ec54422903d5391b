/** MessagePack values on the wire (MessagePack specification, section "Formats"), decoded from a
    buffer that may still be growing, and the streaming codec built on that decoder. */
module MsgPack {
  import opened Util

  datatype Value =
    | Nil
    | Bool(b: bool)
    | Int(n: int)
    | Float(bytes: seq<byte>)
    | Str(bytes: seq<byte>)
    | Bin(bytes: seq<byte>)
    | Ext(tag: byte, bytes: seq<byte>)
    | Arr(items: seq<Value>)
    | Map(items: seq<Value>)      // keys and values alternate

  datatype Parsed<+T> = Incomplete | Malformed | Done(value: T, len: nat)

  /** What follows a marker: a constant, a number, raw bytes, or nested values. */
  datatype Kind = Const(v: Value) | Unsigned | Signed | Floats | Strs | Bins | Exts | Arrs | Maps

  /** `width` bytes give a number, or `n` is that number when `width` is 0. */
  datatype Shape = Shape(kind: Kind, width: nat, n: nat)

  function ShapeOf(m: byte): Option<Shape> {
    if m < 0x80 then Some(Shape(Const(Int(m)), 0, 0))
    else if m < 0x90 then Some(Shape(Maps, 0, m - 0x80))
    else if m < 0xa0 then Some(Shape(Arrs, 0, m - 0x90))
    else if m < 0xc0 then Some(Shape(Strs, 0, m - 0xa0))
    else if m >= 0xe0 then Some(Shape(Const(Int(m - 256)), 0, 0))
    else match m
      case 0xc0 => Some(Shape(Const(Nil), 0, 0))
      case 0xc2 => Some(Shape(Const(Bool(false)), 0, 0))
      case 0xc3 => Some(Shape(Const(Bool(true)), 0, 0))
      case 0xc4 => Some(Shape(Bins, 1, 0))
      case 0xc5 => Some(Shape(Bins, 2, 0))
      case 0xc6 => Some(Shape(Bins, 4, 0))
      case 0xc7 => Some(Shape(Exts, 1, 0))
      case 0xc8 => Some(Shape(Exts, 2, 0))
      case 0xc9 => Some(Shape(Exts, 4, 0))
      case 0xca => Some(Shape(Floats, 0, 4))
      case 0xcb => Some(Shape(Floats, 0, 8))
      case 0xcc => Some(Shape(Unsigned, 1, 0))
      case 0xcd => Some(Shape(Unsigned, 2, 0))
      case 0xce => Some(Shape(Unsigned, 4, 0))
      case 0xcf => Some(Shape(Unsigned, 8, 0))
      case 0xd0 => Some(Shape(Signed, 1, 0))
      case 0xd1 => Some(Shape(Signed, 2, 0))
      case 0xd2 => Some(Shape(Signed, 4, 0))
      case 0xd3 => Some(Shape(Signed, 8, 0))
      case 0xd4 => Some(Shape(Exts, 0, 1))
      case 0xd5 => Some(Shape(Exts, 0, 2))
      case 0xd6 => Some(Shape(Exts, 0, 4))
      case 0xd7 => Some(Shape(Exts, 0, 8))
      case 0xd8 => Some(Shape(Exts, 0, 16))
      case 0xd9 => Some(Shape(Strs, 1, 0))
      case 0xda => Some(Shape(Strs, 2, 0))
      case 0xdb => Some(Shape(Strs, 4, 0))
      case 0xdc => Some(Shape(Arrs, 2, 0))
      case 0xdd => Some(Shape(Arrs, 4, 0))
      case 0xde => Some(Shape(Maps, 2, 0))
      case 0xdf => Some(Shape(Maps, 4, 0))
      case _ => None      // 0xc1 is never used
  }

  function Pow256(k: nat): (p: nat)
    ensures p > 0
  {
    if k == 0 then 1 else 256 * Pow256(k - 1)
  }

  /** Big-endian. */
  function FromBytes(b: seq<byte>): (n: nat) {
    if b == [] then 0 else 256 * FromBytes(b[..|b| - 1]) + b[|b| - 1]
  }

  function ToBytes(n: nat, width: nat): (b: seq<byte>)
    ensures |b| == width
  {
    if width == 0 then [] else ToBytes(n / 256, width - 1) + [n % 256]
  }

  /** Two's complement over `width` bytes. */
  function ToSigned(n: nat, width: nat): int {
    if 2 * n < Pow256(width) then n else n - Pow256(width)
  }

  /** The one number of that width's range that agrees with `n` in its low bits. */
  lemma SignedMeaning(n: nat, width: nat)
    requires n < Pow256(width)
    ensures 0 - Pow256(width) <= 2 * ToSigned(n, width) < Pow256(width)
    ensures ToSigned(n, width) == n || ToSigned(n, width) == n - Pow256(width)
  {
  }

  /** Bytes that come first weigh more. */
  lemma {:induction false} BigEndian(a: seq<byte>, b: seq<byte>)
    ensures FromBytes(a + b) == FromBytes(a) * Pow256(|b|) + FromBytes(b)
    decreases |b|
  {
    if b == [] {
      assert a + b == a;
    } else {
      var init, last := b[..|b| - 1], b[|b| - 1];
      assert (a + b)[..|a + b| - 1] == a + init;
      BigEndian(a, init);
      assert 256 * (FromBytes(a) * Pow256(|init|)) == FromBytes(a) * Pow256(|b|);
    }
  }

  /** Markers of the specification, by kind; the rest are in `SmallMarkers`. */
  lemma Markers()
    ensures ShapeOf(0xc0) == Some(Shape(Const(Nil), 0, 0)) && ShapeOf(0xc1) == None
    ensures ShapeOf(0xc2) == Some(Shape(Const(Bool(false)), 0, 0))
    ensures ShapeOf(0xc3) == Some(Shape(Const(Bool(true)), 0, 0))
    ensures ShapeOf(0xca) == Some(Shape(Floats, 0, 4)) && ShapeOf(0xcb) == Some(Shape(Floats, 0, 8))
    ensures Widths(Bins, 0xc4, [1, 2, 4]) && Widths(Exts, 0xc7, [1, 2, 4]) && Widths(Strs, 0xd9, [1, 2, 4])
    ensures Widths(Unsigned, 0xcc, [1, 2, 4, 8]) && Widths(Signed, 0xd0, [1, 2, 4, 8])
    ensures Widths(Arrs, 0xdc, [2, 4]) && Widths(Maps, 0xde, [2, 4])
    ensures ShapeOf(0xd4) == Some(Shape(Exts, 0, 1)) && ShapeOf(0xd5) == Some(Shape(Exts, 0, 2))
    ensures ShapeOf(0xd6) == Some(Shape(Exts, 0, 4)) && ShapeOf(0xd7) == Some(Shape(Exts, 0, 8))
    ensures ShapeOf(0xd8) == Some(Shape(Exts, 0, 16))
  {
  }

  /** Consecutive markers from `m` on announce a number of `widths[0]`, `widths[1]`, ... bytes. */
  predicate Widths(kind: Kind, m: byte, widths: seq<nat>) {
    forall i :: 0 <= i < |widths| ==> m + i < 256 && ShapeOf(m + i) == Some(Shape(kind, widths[i], 0))
  }

  lemma SmallMarkers(n: nat)
    ensures n < 0x80 ==> ShapeOf(n) == Some(Shape(Const(Int(n)), 0, 0))
    ensures 0 < n <= 32 ==> ShapeOf(256 - n) == Some(Shape(Const(Int(0 - n)), 0, 0))
    ensures n < 16 ==> ShapeOf(0x80 + n) == Some(Shape(Maps, 0, n)) && ShapeOf(0x90 + n) == Some(Shape(Arrs, 0, n))
    ensures n < 32 ==> ShapeOf(0xa0 + n) == Some(Shape(Strs, 0, n))
  {
  }

  /** The number of payload bytes or nested values announced. */
  function Announced(shape: Shape, b: seq<byte>): nat
    requires |b| >= 1 + shape.width
  {
    if shape.width == 0 then shape.n else FromBytes(b[1..1 + shape.width])
  }

  /** One value from the front of `b`; `depth` bounds nesting. */
  function Parse(b: seq<byte>, depth: nat): (r: Parsed<Value>)
    ensures r.Done? ==> 0 < r.len <= |b|
    decreases depth, 1, 0
  {
    if b == [] then Incomplete
    else match ShapeOf(b[0])
      case None => Malformed
      case Some(shape) =>
        if |b| < 1 + shape.width then Incomplete
        else Body(b, shape, Announced(shape, b), depth)
  }

  /** The value whose marker has the given shape and announces `n`. */
  function Body(b: seq<byte>, shape: Shape, n: nat, depth: nat): (r: Parsed<Value>)
    requires |b| >= 1 + shape.width
    ensures r.Done? ==> 0 < r.len <= |b|
    decreases depth, 0, 0
  {
    var h := 1 + shape.width;
    match shape.kind
    case Const(v) => Done(v, h)
    case Unsigned => Done(Int(n), h)
    case Signed => Done(Int(ToSigned(n, shape.width)), h)
    case Arrs => if depth == 0 then Malformed else Nested(ParseMany(b[h..], n, depth - 1), h, shape.kind)
    case Maps => if depth == 0 then Malformed else Nested(ParseMany(b[h..], 2 * n, depth - 1), h, shape.kind)
    case _ =>
      var start := if shape.kind.Exts? then h + 1 else h;
      if |b| < start + n then Incomplete
      else Done(Raw(shape.kind, b[start - 1], b[start..start + n]), start + n)
  }

  /** A value made of raw bytes; only extensions have a tag. */
  function Raw(kind: Kind, tag: byte, payload: seq<byte>): Value {
    match kind
    case Floats => Float(payload)
    case Strs => Str(payload)
    case Bins => Bin(payload)
    case _ => Ext(tag, payload)
  }

  function Nested(inner: Parsed<seq<Value>>, h: nat, kind: Kind): Parsed<Value> {
    match inner
    case Incomplete => Incomplete
    case Malformed => Malformed
    case Done(vs, len) => Done(if kind.Arrs? then Arr(vs) else Map(vs), h + len)
  }

  function ParseMany(b: seq<byte>, count: nat, depth: nat): (r: Parsed<seq<Value>>)
    ensures r.Done? ==> r.len <= |b|
    decreases depth, 2, count
  {
    if count == 0 then Done([], 0)
    else match Parse(b, depth)
      case Incomplete => Incomplete
      case Malformed => Malformed
      case Done(v, len) =>
        match ParseMany(b[len..], count - 1, depth)
        case Incomplete => Incomplete
        case Malformed => Malformed
        case Done(vs, more) => Done([v] + vs, len + more)
  }

  // ----- a verdict, once given, does not depend on later bytes -----

  lemma {:induction false} ParseStable(b: seq<byte>, x: seq<byte>, depth: nat)
    requires !Parse(b, depth).Incomplete?
    ensures Parse(b + x, depth) == Parse(b, depth)
    decreases depth, 1, 0
  {
    var shape := ShapeOf(b[0]);
    assert (b + x)[0] == b[0];
    if shape.Some? {
      var h := 1 + shape.value.width;
      assert (b + x)[1..h] == b[1..h];
      BodyStable(b, x, shape.value, Announced(shape.value, b), depth);
    }
  }

  lemma {:induction false} BodyStable(b: seq<byte>, x: seq<byte>, shape: Shape, n: nat, depth: nat)
    requires |b| >= 1 + shape.width && !Body(b, shape, n, depth).Incomplete?
    ensures Body(b + x, shape, n, depth) == Body(b, shape, n, depth)
    decreases depth, 0, 0
  {
    var h := 1 + shape.width;
    match shape.kind
    case Const(_) =>
    case Unsigned =>
    case Signed =>
    case Arrs => if depth > 0 { NestedStable(b, x, h, n, depth); }
    case Maps => if depth > 0 { NestedStable(b, x, h, 2 * n, depth); }
    case _ => RawStable(b, x, if shape.kind.Exts? then h + 1 else h, n);
  }

  lemma {:induction false} NestedStable(b: seq<byte>, x: seq<byte>, h: nat, count: nat, depth: nat)
    requires h <= |b| && depth > 0 && !ParseMany(b[h..], count, depth - 1).Incomplete?
    ensures ParseMany((b + x)[h..], count, depth - 1) == ParseMany(b[h..], count, depth - 1)
    decreases depth - 1, 3, count
  {
    DropOfConcat(b, x, h);
    ManyStable(b[h..], x, count, depth - 1);
  }

  lemma DropOfConcat(b: seq<byte>, x: seq<byte>, h: nat)
    requires h <= |b|
    ensures (b + x)[h..] == b[h..] + x
  {
  }

  lemma RawStable(b: seq<byte>, x: seq<byte>, start: nat, n: nat)
    requires 0 < start && start + n <= |b|
    ensures (b + x)[start - 1] == b[start - 1] && (b + x)[start..start + n] == b[start..start + n]
  {
  }

  lemma {:induction false} ManyStable(b: seq<byte>, x: seq<byte>, count: nat, depth: nat)
    requires !ParseMany(b, count, depth).Incomplete?
    ensures ParseMany(b + x, count, depth) == ParseMany(b, count, depth)
    decreases depth, 2, count
  {
    if count > 0 {
      ParseStable(b, x, depth);
      if Parse(b, depth).Done? {
        var len := Parse(b, depth).len;
        assert (b + x)[len..] == b[len..] + x;
        ManyStable(b[len..], x, count - 1, depth);
      }
    }
  }

  /** Prefix stability: complete and malformed inputs stay so, and a complete value is incomplete at
      every shorter cut. */
  lemma VerdictIsFinal(b: seq<byte>, k: nat, depth: nat)
    requires k <= |b|
    ensures !Parse(b[..k], depth).Incomplete? ==> Parse(b, depth) == Parse(b[..k], depth)
    ensures Parse(b, depth).Done? && k < Parse(b, depth).len ==> Parse(b[..k], depth).Incomplete?
  {
    assert b == b[..k] + b[k..];
    if !Parse(b[..k], depth).Incomplete? { ParseStable(b[..k], b[k..], depth); }
  }

  // ----- the codec -----

  datatype Frame = Frame(obj: Value, vec: seq<byte>)

  /** How far nesting may go, and whether a value can be turned into the requested type. */
  datatype Target = Target(depth: nat, accepts: Value -> bool)

  function Decoded(src: seq<byte>, target: Target): (r: Parsed<Value>)
    ensures r.Done? ==> 0 < r.len <= |src|
  {
    var r := Parse(src, target.depth);
    if r.Done? && !target.accepts(r.value) then Malformed else r
  }

  /** Frames taken off the front of `src` until it holds no complete one, or an error is met. */
  datatype Batch = Batch(frames: seq<Frame>, rest: seq<byte>, failed: bool)

  function Greedy(src: seq<byte>, target: Target): Batch
    decreases |src|
  {
    match Decoded(src, target)
    case Incomplete => Batch([], src, false)
    case Malformed => Batch([], src, true)
    case Done(v, len) =>
      var later := Greedy(src[len..], target);
      later.(frames := [Frame(v, src[..len])] + later.frames)
  }

  /** The bytes of the frames, in order. */
  function Bytes(frames: seq<Frame>): seq<byte> {
    if frames == [] then [] else frames[0].vec + Bytes(frames[1..])
  }

  function Prepend(frames: seq<Frame>, b: Batch): Batch {
    b.(frames := frames + b.frames)
  }

  /** The frames and what is left over are `src`, cut up. */
  ghost predicate Keeps(b: Batch, src: seq<byte>) {
    Bytes(b.frames) + b.rest == src
  }

  lemma KeepsCons(f: Frame, b: Batch, src: seq<byte>, k: nat)
    requires k <= |src| && Keeps(b, src[k..]) && f.vec == src[..k]
    ensures Keeps(Prepend([f], b), src)
  {
    assert ([f] + b.frames)[1..] == b.frames;
    ConcatAssoc(f.vec, Bytes(b.frames), b.rest);
  }

  /** Every byte is in exactly one frame or left over. */
  lemma {:induction false} GreedyKeepsBytes(src: seq<byte>, target: Target)
    ensures Keeps(Greedy(src, target), src)
    decreases |src|
  {
    ConcatNil(src);
    match Decoded(src, target)
    case Done(v, len) =>
      GreedyKeepsBytes(src[len..], target);
      KeepsCons(Frame(v, src[..len]), Greedy(src[len..], target), src, len);
    case _ =>
  }

  /** More input only continues a batch that has not failed, and cannot mend one that has. */
  lemma {:induction false} GreedyContinues(src: seq<byte>, x: seq<byte>, target: Target)
    ensures Continued(Greedy(src, target), x, Greedy(src + x, target), target)
    decreases |src|
  {
    var r := Decoded(src, target);
    match r
    case Incomplete => assert [] + Greedy(src + x, target).frames == Greedy(src + x, target).frames;
    case Malformed => ParseStable(src, x, target.depth);
    case Done(_, len) =>
      ParseStable(src, x, target.depth);
      assert (src + x)[len..] == src[len..] + x && (src + x)[..len] == src[..len];
      GreedyContinues(src[len..], x, target);
      ContinuedCons(Frame(r.value, src[..len]), Greedy(src[len..], target), x, Greedy(src[len..] + x, target), target);
  }

  ghost predicate Continued(a: Batch, x: seq<byte>, all: Batch, target: Target) {
    if a.failed then all.failed && all.frames == a.frames else all == Prepend(a.frames, Greedy(a.rest + x, target))
  }

  lemma ContinuedCons(f: Frame, a: Batch, x: seq<byte>, all: Batch, target: Target)
    requires Continued(a, x, all, target)
    ensures Continued(Prepend([f], a), x, Prepend([f], all), target)
  {
    if !a.failed {
      var b := Greedy(a.rest + x, target).frames;
      assert [f] + (a.frames + b) == ([f] + a.frames) + b;
    }
  }

  /** Greedy decoding, one frame on. */
  lemma OneMore(all: seq<byte>, frames: seq<Frame>, src: seq<byte>, target: Target)
    requires Greedy(all, target) == Prepend(frames, Greedy(src, target))
    ensures !Decoded(src, target).Done? ==>
              Greedy(all, target) == Batch(frames, src, Decoded(src, target).Malformed?)
    ensures Decoded(src, target).Done? ==>
              var f, len := Frame(Decoded(src, target).value, src[..Decoded(src, target).len]), Decoded(src, target).len;
              Greedy(all, target) == Prepend(frames + [f], Greedy(src[len..], target))
  {
    assert frames + [] == frames;
    var r := Decoded(src, target);
    if r.Done? {
      var f, later := Frame(r.value, src[..r.len]), Greedy(src[r.len..], target);
      assert frames + ([f] + later.frames) == (frames + [f]) + later.frames;
    }
  }

  /** What `decode` returns: an item, nothing yet, or an error. */
  datatype Polled = Item(frame: Frame) | Pending | Failed

  /** The decoder over its growing buffer. */
  class MsgPackCodec {
    const target: Target
    var src: seq<byte>

    constructor (target: Target)
      ensures this.target == target && src == []
    {
      this.target := target;
      src := [];
    }

    /** One item off the front of the buffer, which otherwise stays as it is. */
    method Decode() returns (r: Polled)
      modifies this
      ensures match Decoded(old(src), target)
        case Incomplete => r == Pending && src == old(src)
        case Malformed => r == Failed && src == old(src)
        case Done(v, len) => r == Item(Frame(v, old(src)[..len])) && src == old(src)[len..]
      ensures r == Pending <==> Parse(old(src), target.depth).Incomplete?
      ensures r.Item? ==> target.accepts(r.frame.obj) && old(src) == r.frame.vec + src
    {
      match Parse(src, target.depth)
      case Incomplete => r := Pending;
      case Malformed => r := Failed;
      case Done(v, len) =>
        if target.accepts(v) {
          r := Item(Frame(v, src[..len]));
          src := src[len..];
        } else {
          r := Failed;
        }
    }

    /** One read: append the chunk, then take every complete frame. */
    method HandleRead(chunk: seq<byte>) returns (frames: seq<Frame>, failed: bool)
      modifies this
      ensures Greedy(old(src) + chunk, target) == Batch(frames, src, failed)
    {
      src := src + chunk;
      ghost var all := src;
      frames := [];
      OneMore(all, frames, src, target);
      var r := Decode();
      while r.Item?
        invariant match r
          case Item(frame) => Greedy(all, target) == Prepend(frames + [frame], Greedy(src, target))
          case Pending => Greedy(all, target) == Batch(frames, src, false)
          case Failed => Greedy(all, target) == Batch(frames, src, true)
        decreases r.Item?, |src|
      {
        frames := frames + [r.frame];
        OneMore(all, frames, src, target);
        r := Decode();
      }
      failed := r.Failed?;
    }

    /** Reads until an error stops the loop; `used` is how many chunks were read. */
    method HandleReads(chunks: seq<seq<byte>>) returns (frames: seq<Frame>, failed: bool, used: nat)
      requires src == []
      modifies this
      ensures used <= |chunks| && (!failed ==> used == |chunks|)
      ensures var all := Greedy(Flat(chunks), target);
        frames == all.frames && failed == all.failed && (!failed ==> src == all.rest)
      ensures Bytes(frames) + src == Flat(chunks[..used])
    {
      frames, failed, used := [], false, 0;
      assert Greedy([], target) == Batch([], [], false);
      while used < |chunks| && !failed
        invariant used <= |chunks|
        invariant Greedy(Flat(chunks[..used]), target) == Batch(frames, src, failed)
      {
        var more;
        NextChunk(chunks, used, target);
        more, failed := HandleRead(chunks[used]);
        frames := frames + more;
        used := used + 1;
      }
      GreedyKeepsBytes(Flat(chunks[..used]), target);
      LastChunk(chunks, used, target);
    }
  }

  lemma NextChunk(chunks: seq<seq<byte>>, used: nat, target: Target)
    requires used < |chunks|
    ensures Continued(Greedy(Flat(chunks[..used]), target), chunks[used], Greedy(Flat(chunks[..used + 1]), target), target)
  {
    GreedyContinues(Flat(chunks[..used]), chunks[used], target);
    assert chunks[..used + 1] == chunks[..used] + [chunks[used]];
    FlatSnoc(chunks[..used], chunks[used]);
  }

  lemma LastChunk(chunks: seq<seq<byte>>, used: nat, target: Target)
    requires used <= |chunks|
    ensures used == |chunks| ==> Flat(chunks[..used]) == Flat(chunks)
    ensures var a, all := Greedy(Flat(chunks[..used]), target), Greedy(Flat(chunks), target);
      a.failed ==> all.failed && all.frames == a.frames
  {
    assert chunks == chunks[..used] + chunks[used..];
    FlatConcat(chunks[..used], chunks[used..]);
    GreedyContinues(Flat(chunks[..used]), Flat(chunks[used..]), target);
    assert used == |chunks| ==> chunks[..used] == chunks;
  }
}
