/** The writing side of MessagePack: the shortest encoding of each value, and the round trip of a
    message stream through the codec however it is cut. */
module MsgPackEncoding {
  import opened Util
  import opened MsgPack

  const U8 := 0x100
  const U16 := 0x1_0000
  const U32 := 0x1_0000_0000
  const U64 := 0x1_0000_0000_0000_0000

  /** Values that have an encoding: 64-bit integers, lengths below 2^32, whole key-value pairs. */
  predicate Encodable(v: Value) {
    match v
    case Int(n) => -U64 / 2 <= n < U64
    case Float(bytes) => |bytes| == 4 || |bytes| == 8
    case Str(bytes) => |bytes| < U32
    case Bin(bytes) => |bytes| < U32
    case Ext(_, bytes) => |bytes| < U32
    case Arr(items) => |items| < U32 && forall w :: w in items ==> Encodable(w)
    case Map(items) => |items| % 2 == 0 && |items| / 2 < U32 && forall w :: w in items ==> Encodable(w)
    case _ => true
  }

  /** A marker followed by `n` in `width` bytes. */
  function Head(m: byte, n: nat, width: nat): (b: seq<byte>)
    ensures |b| == 1 + width
  {
    [m] + ToBytes(n, width)
  }

  function EncodeInt(n: int): seq<byte>
    requires -U64 / 2 <= n < U64
  {
    if n >= 0 then
      if n < 0x80 then [n]
      else if n < U8 then Head(0xcc, n, 1)
      else if n < U16 then Head(0xcd, n, 2)
      else if n < U32 then Head(0xce, n, 4)
      else Head(0xcf, n, 8)
    else if n >= -32 then [n + 256]
    else if n >= -0x80 then Head(0xd0, n + U8, 1)
    else if n >= -0x8000 then Head(0xd1, n + U16, 2)
    else if n >= -0x8000_0000 then Head(0xd2, n + U32, 4)
    else Head(0xd3, n + U64, 8)
  }

  function StrHead(n: nat): seq<byte>
    requires n < U32
  {
    if n < 32 then [0xa0 + n]
    else if n < U8 then Head(0xd9, n, 1)
    else if n < U16 then Head(0xda, n, 2)
    else Head(0xdb, n, 4)
  }

  function BinHead(n: nat): seq<byte>
    requires n < U32
  {
    if n < U8 then Head(0xc4, n, 1)
    else if n < U16 then Head(0xc5, n, 2)
    else Head(0xc6, n, 4)
  }

  function ExtHead(n: nat): seq<byte>
    requires n < U32
  {
    if n == 1 then [0xd4]
    else if n == 2 then [0xd5]
    else if n == 4 then [0xd6]
    else if n == 8 then [0xd7]
    else if n == 16 then [0xd8]
    else if n < U8 then Head(0xc7, n, 1)
    else if n < U16 then Head(0xc8, n, 2)
    else Head(0xc9, n, 4)
  }

  function ArrHead(n: nat): seq<byte>
    requires n < U32
  {
    if n < 16 then [0x90 + n]
    else if n < U16 then Head(0xdc, n, 2)
    else Head(0xdd, n, 4)
  }

  function MapHead(n: nat): seq<byte>
    requires n < U32
  {
    if n < 16 then [0x80 + n]
    else if n < U16 then Head(0xde, n, 2)
    else Head(0xdf, n, 4)
  }

  function Encode(v: Value): seq<byte>
    requires Encodable(v)
    decreases v, 1
  {
    match v
    case Nil => [0xc0]
    case Bool(b) => [if b then 0xc3 else 0xc2]
    case Int(n) => EncodeInt(n)
    case Float(bytes) => [if |bytes| == 4 then 0xca else 0xcb] + bytes
    case Str(bytes) => StrHead(|bytes|) + bytes
    case Bin(bytes) => BinHead(|bytes|) + bytes
    case Ext(tag, bytes) => ExtHead(|bytes|) + [tag] + bytes
    case Arr(items) => ArrHead(|items|) + EncodeAll(items)
    case Map(items) => MapHead(|items| / 2) + EncodeAll(items)
  }

  function EncodeAll(vs: seq<Value>): seq<byte>
    requires forall v :: v in vs ==> Encodable(v)
    decreases vs, 0
  {
    if vs == [] then [] else Encode(vs[0]) + EncodeAll(vs[1..])
  }

  /** Nesting depth of containers. */
  function Depth(v: Value): nat
    decreases v, 1
  {
    match v
    case Arr(items) => 1 + DepthAll(items)
    case Map(items) => 1 + DepthAll(items)
    case _ => 0
  }

  function DepthAll(vs: seq<Value>): nat
    decreases vs, 0
  {
    if vs == [] then 0
    else
      var first, rest := Depth(vs[0]), DepthAll(vs[1..]);
      if first > rest then first else rest
  }

  // ----- round trip -----

  lemma {:induction false} NumberRoundTrip(n: nat, width: nat)
    requires n < Pow256(width)
    ensures FromBytes(ToBytes(n, width)) == n
    decreases width
  {
    if width > 0 {
      NumberRoundTrip(n / 256, width - 1);
      var b := ToBytes(n, width);
      assert b[..|b| - 1] == ToBytes(n / 256, width - 1);
    }
  }

  lemma Powers()
    ensures Pow256(1) == U8 && Pow256(2) == U16 && Pow256(4) == U32 && Pow256(8) == U64
  {
    assert Pow256(2) == 256 * Pow256(1);
    assert Pow256(3) == 256 * Pow256(2);
    assert Pow256(4) == 256 * Pow256(3);
    assert Pow256(5) == 256 * Pow256(4);
    assert Pow256(6) == 256 * Pow256(5);
    assert Pow256(7) == 256 * Pow256(6);
    assert Pow256(8) == 256 * Pow256(7);
  }

  /** `b` starts with a head of kind `kind` that is `h` bytes long and announces `n`. */
  ghost predicate Announces(b: seq<byte>, kind: Kind, h: nat, n: nat) {
    && b != [] && ShapeOf(b[0]).Some?
    && var shape := ShapeOf(b[0]).value;
    shape.kind == kind && h == 1 + shape.width && |b| >= h && Announced(shape, b) == n
  }

  lemma HeadAnnounces(m: byte, n: nat, width: nat, x: seq<byte>)
    requires ShapeOf(m).Some? && ShapeOf(m).value.width == width > 0 && n < Pow256(width)
    ensures Announces(Head(m, n, width) + x, ShapeOf(m).value.kind, 1 + width, n)
  {
    var b := Head(m, n, width) + x;
    assert b[1..1 + width] == ToBytes(n, width);
    NumberRoundTrip(n, width);
  }

  lemma ArrHeads(n: nat, x: seq<byte>)
    requires n < U32
    ensures Announces(ArrHead(n) + x, Arrs, |ArrHead(n)|, n)
  {
    Powers();
    if n < 16 {
    } else if n < U16 {
      HeadAnnounces(0xdc, n, 2, x);
    } else {
      HeadAnnounces(0xdd, n, 4, x);
    }
  }

  lemma MapHeads(n: nat, x: seq<byte>)
    requires n < U32
    ensures Announces(MapHead(n) + x, Maps, |MapHead(n)|, n)
  {
    Powers();
    if n < 16 {
    } else if n < U16 {
      HeadAnnounces(0xde, n, 2, x);
    } else {
      HeadAnnounces(0xdf, n, 4, x);
    }
  }

  lemma StrHeads(n: nat, x: seq<byte>)
    requires n < U32
    ensures Announces(StrHead(n) + x, Strs, |StrHead(n)|, n)
  {
    Powers();
    if n < 32 {
    } else if n < U8 {
      HeadAnnounces(0xd9, n, 1, x);
    } else if n < U16 {
      HeadAnnounces(0xda, n, 2, x);
    } else {
      HeadAnnounces(0xdb, n, 4, x);
    }
  }

  lemma BinHeads(n: nat, x: seq<byte>)
    requires n < U32
    ensures Announces(BinHead(n) + x, Bins, |BinHead(n)|, n)
  {
    Powers();
    if n < U8 {
      HeadAnnounces(0xc4, n, 1, x);
    } else if n < U16 {
      HeadAnnounces(0xc5, n, 2, x);
    } else {
      HeadAnnounces(0xc6, n, 4, x);
    }
  }

  lemma ExtHeads(n: nat, x: seq<byte>)
    requires n < U32
    ensures Announces(ExtHead(n) + x, Exts, |ExtHead(n)|, n)
  {
    Powers();
    if n == 1 || n == 2 || n == 4 || n == 8 || n == 16 {
    } else if n < U8 {
      HeadAnnounces(0xc7, n, 1, x);
    } else if n < U16 {
      HeadAnnounces(0xc8, n, 2, x);
    } else {
      HeadAnnounces(0xc9, n, 4, x);
    }
  }

  lemma NumberParses(m: byte, n: nat, width: nat, x: seq<byte>, depth: nat)
    requires ShapeOf(m).Some? && ShapeOf(m).value.width == width > 0 && n < Pow256(width)
    requires ShapeOf(m).value.kind.Unsigned? || ShapeOf(m).value.kind.Signed?
    ensures Parse(Head(m, n, width) + x, depth) ==
      Done(Int(if ShapeOf(m).value.kind.Signed? then ToSigned(n, width) else n), 1 + width)
  {
    HeadAnnounces(m, n, width, x);
  }

  lemma UnsignedRoundTrip(n: nat, x: seq<byte>, depth: nat)
    requires n < U64
    ensures Parse(EncodeInt(n) + x, depth) == Done(Int(n), |EncodeInt(n)|)
  {
    Powers();
    if n < 0x80 {
    } else if n < U8 {
      NumberParses(0xcc, n, 1, x, depth);
    } else if n < U16 {
      NumberParses(0xcd, n, 2, x, depth);
    } else if n < U32 {
      NumberParses(0xce, n, 4, x, depth);
    } else {
      NumberParses(0xcf, n, 8, x, depth);
    }
  }

  lemma SignedRoundTrip(n: int, x: seq<byte>, depth: nat)
    requires -U64 / 2 <= n < 0
    ensures Parse(EncodeInt(n) + x, depth) == Done(Int(n), |EncodeInt(n)|)
  {
    if n >= -32 {
      FixedParses(n, x, depth);
    } else {
      var m, width := NegativeHead(n);
      SignedParses(EncodeInt(n), m, n, width, x, depth);
    }
  }

  /** The narrowest width that holds `n`. */
  lemma NegativeHead(n: int) returns (m: byte, width: nat)
    requires -U64 / 2 <= n < -32
    ensures width > 0 && ShapeOf(m) == Some(Shape(Signed, width, 0)) && 0 <= 2 * n + Pow256(width)
    ensures EncodeInt(n) == Head(m, n + Pow256(width), width)
  {
    Powers();
    if n >= -0x80 { m, width := 0xd0, 1; }
    else if n >= -0x8000 { m, width := 0xd1, 2; }
    else if n >= -0x8000_0000 { m, width := 0xd2, 4; }
    else { m, width := 0xd3, 8; }
  }

  lemma FixedParses(n: int, x: seq<byte>, depth: nat)
    requires -32 <= n < 0
    ensures Parse([n + 256] + x, depth) == Done(Int(n), 1)
  {
  }

  lemma SignedParses(b: seq<byte>, m: byte, n: int, width: nat, x: seq<byte>, depth: nat)
    requires ShapeOf(m) == Some(Shape(Signed, width, 0)) && width > 0
    requires n < 0 <= 2 * n + Pow256(width) && b == Head(m, n + Pow256(width), width)
    ensures Parse(b + x, depth) == Done(Int(n), |b|)
  {
    var u := n + Pow256(width);
    ToSignedBack(n, u, width);
    NumberParses(m, u, width, x, depth);
  }

  lemma ToSignedBack(n: int, u: nat, width: nat)
    requires n < 0 <= 2 * n + Pow256(width) && u == n + Pow256(width)
    ensures ToSigned(u, width) == n && u < Pow256(width)
  {
  }

  lemma {:induction false} RoundTrip(v: Value, x: seq<byte>, depth: nat)
    requires Encodable(v) && Depth(v) <= depth
    ensures Parse(Encode(v) + x, depth) == Done(v, |Encode(v)|)
    decreases v, 1
  {
    match v
    case Arr(items) => ContainerRoundTrip(v, items, x, depth);
    case Map(items) => ContainerRoundTrip(v, items, x, depth);
    case _ => ScalarRoundTrip(v, x, depth);
  }

  lemma ScalarRoundTrip(v: Value, x: seq<byte>, depth: nat)
    requires Encodable(v) && !v.Arr? && !v.Map?
    ensures Parse(Encode(v) + x, depth) == Done(v, |Encode(v)|)
  {
    match v
    case Int(n) => if n >= 0 { UnsignedRoundTrip(n, x, depth); } else { SignedRoundTrip(n, x, depth); }
    case Float(bytes) => FloatRoundTrip(bytes, x, depth);
    case Str(bytes) => StrRoundTrip(bytes, x, depth);
    case Bin(bytes) => BinRoundTrip(bytes, x, depth);
    case Ext(tag, bytes) =>
      ExtHeads(|bytes|, [tag] + bytes + x);
      ExtRoundTrip(ExtHead(|bytes|), tag, bytes, x, depth);
    case _ => ConstRoundTrip(v, x, depth);
  }

  lemma ConstRoundTrip(v: Value, x: seq<byte>, depth: nat)
    requires v.Nil? || v.Bool?
    ensures Parse(Encode(v) + x, depth) == Done(v, |Encode(v)|)
  {
  }

  lemma StrRoundTrip(bytes: seq<byte>, x: seq<byte>, depth: nat)
    requires |bytes| < U32
    ensures Parse(Encode(Str(bytes)) + x, depth) == Done(Str(bytes), |Encode(Str(bytes))|)
  {
    StrHeads(|bytes|, bytes + x);
    RawRoundTrip(Str(bytes), StrHead(|bytes|), Strs, 0, bytes, x, depth);
  }

  lemma BinRoundTrip(bytes: seq<byte>, x: seq<byte>, depth: nat)
    requires |bytes| < U32
    ensures Parse(Encode(Bin(bytes)) + x, depth) == Done(Bin(bytes), |Encode(Bin(bytes))|)
  {
    BinHeads(|bytes|, bytes + x);
    RawRoundTrip(Bin(bytes), BinHead(|bytes|), Bins, 0, bytes, x, depth);
  }

  lemma FloatRoundTrip(bytes: seq<byte>, x: seq<byte>, depth: nat)
    requires |bytes| == 4 || |bytes| == 8
    ensures Parse(Encode(Float(bytes)) + x, depth) == Done(Float(bytes), |Encode(Float(bytes))|)
  {
    RawRoundTrip(Float(bytes), [if |bytes| == 4 then 0xca else 0xcb], Floats, 0, bytes, x, depth);
  }

  lemma RawRoundTrip(v: Value, head: seq<byte>, kind: Kind, tag: byte, bytes: seq<byte>, x: seq<byte>, depth: nat)
    requires kind.Floats? || kind.Strs? || kind.Bins?
    requires v == Raw(kind, tag, bytes) && Announces(head + (bytes + x), kind, |head|, |bytes|)
    ensures Parse((head + bytes) + x, depth) == Done(v, |head + bytes|)
  {
    var b := (head + bytes) + x;
    assert b == head + (bytes + x);
    assert b[|head|..|head| + |bytes|] == bytes;
  }

  lemma ExtRoundTrip(head: seq<byte>, tag: byte, bytes: seq<byte>, x: seq<byte>, depth: nat)
    requires Announces(head + ([tag] + bytes + x), Exts, |head|, |bytes|)
    ensures Parse((head + [tag] + bytes) + x, depth) == Done(Ext(tag, bytes), |head| + 1 + |bytes|)
  {
    var b := (head + [tag] + bytes) + x;
    assert b == head + ([tag] + bytes + x);
    var start := |head| + 1;
    assert b[start..start + |bytes|] == bytes;
  }

  lemma {:induction false} ContainerRoundTrip(v: Value, items: seq<Value>, x: seq<byte>, depth: nat)
    requires v == Arr(items) || v == Map(items)
    requires Encodable(v) && Depth(v) <= depth
    ensures Parse(Encode(v) + x, depth) == Done(v, |Encode(v)|)
    decreases v, 0
  {
    var body := EncodeAll(items);
    ManyRoundTrip(items, x, depth - 1);
    if v.Arr? {
      ArrHeads(|items|, body + x);
      ContainerParses(v, ArrHead(|items|), Arrs, |items|, items, x, depth);
    } else {
      MapHeads(|items| / 2, body + x);
      ContainerParses(v, MapHead(|items| / 2), Maps, |items| / 2, items, x, depth);
    }
  }

  lemma {:induction false} ContainerParses(
    v: Value, head: seq<byte>, kind: Kind, n: nat, items: seq<Value>, x: seq<byte>, depth: nat)
    requires forall w :: w in items ==> Encodable(w)
    requires (kind == Arrs && v == Arr(items) && n == |items|) || (kind == Maps && v == Map(items) && 2 * n == |items|)
    requires depth > 0 && Announces(head + (EncodeAll(items) + x), kind, |head|, n)
    requires ParseMany(EncodeAll(items) + x, |items|, depth - 1) == Done(items, |EncodeAll(items)|)
    ensures Parse((head + EncodeAll(items)) + x, depth) == Done(v, |head + EncodeAll(items)|)
  {
    ConcatAssoc(head, EncodeAll(items), x);
    AfterPrefix(head, EncodeAll(items) + x);
    NestedParses(head + (EncodeAll(items) + x), |head|, kind, n, EncodeAll(items) + x, items, |EncodeAll(items)|, depth);
  }

  /** A container's head and then its items. */
  lemma NestedParses(
    b: seq<byte>, h: nat, kind: Kind, n: nat, rest: seq<byte>, items: seq<Value>, len: nat, depth: nat)
    requires depth > 0 && Announces(b, kind, h, n) && h <= |b| && b[h..] == rest
    requires (kind == Arrs && n == |items|) || (kind == Maps && 2 * n == |items|)
    requires ParseMany(rest, |items|, depth - 1) == Done(items, len)
    ensures Parse(b, depth) == Done(if kind == Arrs then Arr(items) else Map(items), h + len)
  {
  }

  lemma {:induction false} ManyRoundTrip(vs: seq<Value>, x: seq<byte>, depth: nat)
    requires (forall v :: v in vs ==> Encodable(v)) && DepthAll(vs) <= depth
    ensures ParseMany(EncodeAll(vs) + x, |vs|, depth) == Done(vs, |EncodeAll(vs)|)
    decreases vs, 0
  {
    if vs != [] {
      RoundTrip(vs[0], EncodeAll(vs[1..]) + x, depth);
      ManyRoundTrip(vs[1..], x, depth);
      var first, rest := Encode(vs[0]), EncodeAll(vs[1..]);
      ConcatAssoc(first, rest, x);
      AfterPrefix(first, rest + x);
      ManyParses((first + rest) + x, vs[0], |first|, rest + x, vs[1..], |rest|, depth);
      assert vs == [vs[0]] + vs[1..];
    }
  }

  lemma {:induction false} ManyParses(
    b: seq<byte>, v: Value, len: nat, tail: seq<byte>, vs: seq<Value>, more: nat, depth: nat)
    requires Parse(b, depth) == Done(v, len) && b[len..] == tail
    requires ParseMany(tail, |vs|, depth) == Done(vs, more)
    ensures ParseMany(b, 1 + |vs|, depth) == Done([v] + vs, len + more)
  {
  }

  // ----- no shorter encoding -----

  /** Whatever decodes to `v` has an encoding by `Encode`, and one no longer. */
  ghost predicate NoShorter(v: Value, len: nat) {
    Encodable(v) && |Encode(v)| <= len
  }

  ghost predicate NoneShorter(vs: seq<Value>, len: nat) {
    (forall v :: v in vs ==> Encodable(v)) && |EncodeAll(vs)| <= len
  }

  /** No bytes that decode to a value are fewer than the value's encoding. */
  lemma {:induction false} EncodingIsShortest(b: seq<byte>, depth: nat)
    requires Parse(b, depth).Done?
    ensures NoShorter(Parse(b, depth).value, Parse(b, depth).len)
    decreases depth, 1, 0
  {
    var shape := ShapeOf(b[0]).value;
    var n := Announced(shape, b);
    if shape.width > 0 { FromBytesFits(b[1..1 + shape.width]); }
    match shape.kind
    case Arrs => ContainerIsShortest(b, shape, n, n, depth);
    case Maps => ContainerIsShortest(b, shape, n, 2 * n, depth);
    case Unsigned => UnsignedIsShortest(n, shape.width);
    case Signed => SignedIsShortest(n, shape.width);
    case Const(_) =>
    case _ => RawIsShortest(b, shape, n, depth);
  }

  lemma {:induction false} FromBytesFits(b: seq<byte>)
    ensures FromBytes(b) < Pow256(|b|)
  {
    if b != [] { FromBytesFits(b[..|b| - 1]); }
  }

  lemma UnsignedIsShortest(n: nat, width: nat)
    requires width in {1, 2, 4, 8} && n < Pow256(width)
    ensures NoShorter(Int(n), 1 + width)
  {
    Powers();
  }

  lemma SignedIsShortest(n: nat, width: nat)
    requires width in {1, 2, 4, 8} && n < Pow256(width)
    ensures NoShorter(Int(ToSigned(n, width)), 1 + width)
  {
    Powers();
    SignedMeaning(n, width);
    var k := ToSigned(n, width);
    assert -U64 / 2 <= k < U64;
    if width == 4 { assert -0x8000_0000 <= k < 0x8000_0000; }
  }

  lemma RawIsShortest(b: seq<byte>, shape: Shape, n: nat, depth: nat)
    requires b != [] && ShapeOf(b[0]) == Some(shape) && Parse(b, depth).Done? && |b| >= 1 + shape.width
    requires n == Announced(shape, b) && (shape.width > 0 ==> n < Pow256(shape.width))
    requires shape.kind.Floats? || shape.kind.Strs? || shape.kind.Bins? || shape.kind.Exts?
    ensures NoShorter(Parse(b, depth).value, Parse(b, depth).len)
  {
    Powers();
  }

  /** How many values a head of `width` more bytes can announce. */
  predicate HeadFits(n: nat, width: nat) {
    (width == 0 && n < 16) || (width == 2 && n < U16) || (width == 4 && n < U32)
  }

  lemma HeadsAreShortest(n: nat, width: nat)
    requires HeadFits(n, width)
    ensures n < U32 && |ArrHead(n)| <= 1 + width && |MapHead(n)| <= 1 + width
  {
  }

  lemma ContainersFit(b: seq<byte>, shape: Shape, n: nat)
    requires b != [] && ShapeOf(b[0]) == Some(shape) && |b| >= 1 + shape.width && n == Announced(shape, b)
    requires shape.width > 0 ==> n < Pow256(shape.width)
    requires shape.kind.Arrs? || shape.kind.Maps?
    ensures HeadFits(n, shape.width)
  {
    Powers();
  }

  lemma {:induction false} ContainerIsShortest(b: seq<byte>, shape: Shape, n: nat, count: nat, depth: nat)
    requires b != [] && ShapeOf(b[0]) == Some(shape) && Parse(b, depth).Done? && |b| >= 1 + shape.width
    requires n == Announced(shape, b) && (shape.width > 0 ==> n < Pow256(shape.width))
    requires (shape.kind.Arrs? && count == n) || (shape.kind.Maps? && count == 2 * n)
    ensures NoShorter(Parse(b, depth).value, Parse(b, depth).len)
    decreases depth, 0, 0
  {
    ContainersFit(b, shape, n);
    HeadsAreShortest(n, shape.width);
    ManyAreShortest(b[1 + shape.width..], count, depth - 1);
    var inner := ParseMany(b[1 + shape.width..], count, depth - 1);
    assert Parse(b, depth)
      == Done(if shape.kind.Arrs? then Arr(inner.value) else Map(inner.value), 1 + shape.width + inner.len);
    ListIsShortest(inner.value, inner.len, n, shape.width, shape.kind.Arrs?);
  }

  lemma ListIsShortest(vs: seq<Value>, len: nat, n: nat, width: nat, isArray: bool)
    requires NoneShorter(vs, len) && HeadFits(n, width) && |vs| == if isArray then n else 2 * n
    ensures NoShorter(if isArray then Arr(vs) else Map(vs), 1 + width + len)
  {
    HeadsAreShortest(n, width);
  }

  lemma {:induction false} ManyAreShortest(b: seq<byte>, count: nat, depth: nat)
    requires ParseMany(b, count, depth).Done?
    ensures |ParseMany(b, count, depth).value| == count
    ensures NoneShorter(ParseMany(b, count, depth).value, ParseMany(b, count, depth).len)
    decreases depth, 2, count
  {
    if count > 0 {
      EncodingIsShortest(b, depth);
      var first := Parse(b, depth);
      ManyAreShortest(b[first.len..], count - 1, depth);
      var rest := ParseMany(b[first.len..], count - 1, depth).value;
      assert ([first.value] + rest)[1..] == rest;
    }
  }

  // ----- a stream of messages -----

  function Framed(vs: seq<Value>): seq<Frame>
    requires forall v :: v in vs ==> Encodable(v)
  {
    seq(|vs|, i requires 0 <= i < |vs| => assert vs[i] in vs; Frame(vs[i], Encode(vs[i])))
  }

  /** Messages written one after another come back one by one, and nothing is left over. */
  lemma {:induction false} StreamRoundTrip(vs: seq<Value>, target: Target)
    requires forall v :: v in vs ==> Encodable(v) && Depth(v) <= target.depth && target.accepts(v)
    ensures Greedy(EncodeAll(vs), target) == Batch(Framed(vs), [], false)
  {
    if vs != [] {
      var first, rest := Encode(vs[0]), EncodeAll(vs[1..]);
      RoundTrip(vs[0], rest, target.depth);
      StreamRoundTrip(vs[1..], target);
      assert (first + rest)[|first|..] == rest && (first + rest)[..|first|] == first;
      assert Framed(vs) == [Frame(vs[0], first)] + Framed(vs[1..]);
    }
  }

  /** Whatever the reads, a codec fed the encoding of `vs` yields exactly `vs`. */
  method Receive(vs: seq<Value>, chunks: seq<seq<byte>>, target: Target) returns (frames: seq<Frame>)
    requires forall v :: v in vs ==> Encodable(v) && Depth(v) <= target.depth && target.accepts(v)
    requires Flat(chunks) == EncodeAll(vs)
    ensures frames == Framed(vs)
  {
    var codec := new MsgPackCodec(target);
    var failed, used;
    frames, failed, used := codec.HandleReads(chunks);
    StreamRoundTrip(vs, target);
  }
}
