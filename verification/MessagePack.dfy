/** MessagePack serialisation of an action tree: tools/encoder.cpp `pack_json`.

    Byte layouts are those of the MessagePack specification, sections "nil format",
    "bool format family", "int format family", "str format family", "array format family"
    and "map format family"; integers and headers always take the shortest form. */
module MessagePack {
  import opened JsonTree
  import opened Options

  type Byte = x: int | 0 <= x < 0x100

  // --- big-endian integers ---

  function Pow256(width: nat): (p: int)
    ensures p >= 1
  {
    if width == 0 then 1 else 0x100 * Pow256(width - 1)
  }

  /** The `width` low bytes of the two's complement of n, most significant first. */
  function BigEndian(n: int, width: nat): (bs: seq<Byte>)
    ensures |bs| == width
    decreases width
  {
    if width == 0 then [] else BigEndian(n / 0x100, width - 1) + [n % 0x100]
  }

  function Unsigned(bs: seq<Byte>): nat {
    if bs == [] then 0 else Unsigned(bs[..|bs| - 1]) * 0x100 + bs[|bs| - 1]
  }

  function Signed(bs: seq<Byte>): int {
    var u := Unsigned(bs);
    if 2 * u < Pow256(|bs|) then u else u - Pow256(|bs|)
  }

  lemma {:induction false} UnsignedBound(bs: seq<Byte>)
    ensures Unsigned(bs) < Pow256(|bs|)
  {
    if bs != [] { UnsignedBound(bs[..|bs| - 1]); }
  }

  lemma Pow256Values()
    ensures Pow256(1) == 0x100
    ensures Pow256(2) == 0x1_0000
    ensures Pow256(4) == 0x1_0000_0000
    ensures Pow256(8) == 0x1_0000_0000_0000_0000
  {
    assert Pow256(3) == 0x100_0000;
    assert Pow256(5) == 0x100_0000_0000;
    assert Pow256(6) == 0x1_0000_0000_0000;
    assert Pow256(7) == 0x100_0000_0000_0000;
  }

  lemma {:induction false} UnsignedOfBigEndian(n: int, width: nat)
    ensures 0 <= Unsigned(BigEndian(n, width)) < Pow256(width)
    ensures 0 <= n < Pow256(width) ==> Unsigned(BigEndian(n, width)) == n
    ensures -Pow256(width) <= n < 0 ==> Unsigned(BigEndian(n, width)) == n + Pow256(width)
    decreases width
  {
    if width > 0 {
      var bs := BigEndian(n, width);
      assert bs[..width - 1] == BigEndian(n / 0x100, width - 1);
      UnsignedOfBigEndian(n / 0x100, width - 1);
    }
  }

  lemma SignedOfBigEndian(n: int, width: nat)
    requires -Pow256(width) <= 2 * n < Pow256(width)
    ensures Signed(BigEndian(n, width)) == n
  {
    UnsignedOfBigEndian(n, width);
  }

  // --- tokens: what one packer call writes ---

  datatype Token =
    | TNil
    | TBool(b: bool)
    | TInt(i: int)
    | TStr(size: nat)
    | TArr(size: nat)
    | TMap(size: nat)

  predicate Int64(n: int) { -0x8000_0000_0000_0000 <= n < 0x8000_0000_0000_0000 }

  predicate TokenOk(t: Token) {
    match t
    case TInt(i) => Int64(i)
    case TStr(n) => n < 0x1_0000_0000
    case TArr(n) => n < 0x1_0000_0000
    case TMap(n) => n < 0x1_0000_0000
    case _ => true
  }

  function IntBytes(d: int): seq<Byte> {
    if d < -0x20 then
      if d < -0x8000 then
        if d < -0x8000_0000 then [0xd3] + BigEndian(d, 8) else [0xd2] + BigEndian(d, 4)
      else
        if d < -0x80 then [0xd1] + BigEndian(d, 2) else [0xd0] + BigEndian(d, 1)
    else if d < 0x80 then BigEndian(d, 1)
    else if d < 0x1_0000 then
      if d < 0x100 then [0xcc] + BigEndian(d, 1) else [0xcd] + BigEndian(d, 2)
    else
      if d < 0x1_0000_0000 then [0xce] + BigEndian(d, 4) else [0xcf] + BigEndian(d, 8)
  }

  function TokenBytes(t: Token): seq<Byte>
    requires TokenOk(t)
  {
    match t
    case TNil => [0xc0]
    case TBool(b) => [if b then 0xc3 else 0xc2]
    case TInt(i) => IntBytes(i)
    case TStr(n) =>
      if n < 0x20 then [0xa0 + n]
      else if n < 0x100 then [0xd9] + BigEndian(n, 1)
      else if n < 0x1_0000 then [0xda] + BigEndian(n, 2)
      else [0xdb] + BigEndian(n, 4)
    case TArr(n) =>
      if n < 0x10 then [0x90 + n]
      else if n < 0x1_0000 then [0xdc] + BigEndian(n, 2)
      else [0xdd] + BigEndian(n, 4)
    case TMap(n) =>
      if n < 0x10 then [0x80 + n]
      else if n < 0x1_0000 then [0xde] + BigEndian(n, 2)
      else [0xdf] + BigEndian(n, 4)
  }

  /** A token and how many bytes it took. */
  datatype Head = Head(token: Token, length: nat)

  /** The big-endian payload of `width` bytes behind the first byte. */
  function Payload(b: seq<Byte>, width: nat): Option<seq<Byte>> {
    if 1 + width <= |b| then Some(b[1..1 + width]) else None
  }

  function UnsignedHead(b: seq<Byte>, width: nat, token: nat -> Token): Option<Head> {
    match Payload(b, width)
    case None => None
    case Some(p) => Some(Head(token(Unsigned(p)), 1 + width))
  }

  function SignedHead(b: seq<Byte>, width: nat): Option<Head> {
    match Payload(b, width)
    case None => None
    case Some(p) => Some(Head(TInt(Signed(p)), 1 + width))
  }

  /** Payload widths in the order of the tags of a family. */
  function Width(k: int): (w: nat) {
    if k <= 0 then 1 else if k == 1 then 2 else if k == 2 then 4 else 8
  }

  /** Reads one token: the reader's half of the specification, shortest form not required. */
  function ReadToken(b: seq<Byte>): (r: Option<Head>)
    ensures r.Some? ==> 1 <= r.value.length <= |b|
  {
    if b == [] then None
    else
      var t: int := b[0];
      if t < 0x80 then Some(Head(TInt(t), 1))
      else if t < 0x90 then Some(Head(TMap(t - 0x80), 1))
      else if t < 0xa0 then Some(Head(TArr(t - 0x90), 1))
      else if t < 0xc0 then Some(Head(TStr(t - 0xa0), 1))
      else if t == 0xc0 then Some(Head(TNil, 1))
      else if t == 0xc2 || t == 0xc3 then Some(Head(TBool(t == 0xc3), 1))
      else if 0xcc <= t <= 0xcf then UnsignedHead(b, Width(t - 0xcc), (n: nat) => TInt(n))
      else if 0xd0 <= t <= 0xd3 then SignedHead(b, Width(t - 0xd0))
      else if 0xd9 <= t <= 0xdb then UnsignedHead(b, Width(t - 0xd9), (n: nat) => TStr(n))
      else if 0xdc <= t <= 0xdd then UnsignedHead(b, Width(t - 0xdb), (n: nat) => TArr(n))
      else if 0xde <= t <= 0xdf then UnsignedHead(b, Width(t - 0xdd), (n: nat) => TMap(n))
      else if t >= 0xe0 then Some(Head(TInt(t - 0x100), 1))
      else None
  }

  lemma PayloadOf(t: Byte, n: int, width: nat, rest: seq<Byte>)
    ensures Payload([t] + BigEndian(n, width) + rest, width) == Some(BigEndian(n, width))
    ensures 0 <= n < Pow256(width) ==> Unsigned(BigEndian(n, width)) == n
    ensures -Pow256(width) <= 2 * n < Pow256(width) ==> Signed(BigEndian(n, width)) == n
  {
    var b := [t] + BigEndian(n, width) + rest;
    assert b[1..1 + width] == BigEndian(n, width);
    UnsignedOfBigEndian(n, width);
    if -Pow256(width) <= 2 * n < Pow256(width) { SignedOfBigEndian(n, width); }
  }

  lemma SmallIntByte(d: int)
    requires -0x20 <= d < 0x80
    ensures IntBytes(d) == BigEndian(d, 1)
    ensures IntBytes(d)[0] == if d < 0 then d + 0x100 else d
  {
    assert BigEndian(d / 0x100, 0) == [];
  }

  lemma IntRoundTrip(d: int, rest: seq<Byte>)
    requires Int64(d)
    ensures ReadToken(IntBytes(d) + rest) == Some(Head(TInt(d), |IntBytes(d)|))
  {
    hide IntBytes, BigEndian, Pow256, Unsigned, Signed, Payload;
    if -0x20 <= d < 0x80 {
      SmallIntByte(d);
    } else {
      TaggedInt(d);
      PayloadOf(IntBytes(d)[0], d, |IntBytes(d)| - 1, rest);
      assert (IntBytes(d) + rest)[0] == IntBytes(d)[0];
    }
  }

  /** The tag names the width and the sign, and the integer fits. */
  lemma TaggedInt(d: int)
    requires Int64(d) && !(-0x20 <= d < 0x80)
    ensures var bs, w := IntBytes(d), |IntBytes(d)| - 1;
            && bs == [bs[0]] + BigEndian(d, w)
            && if d >= 0 then 0xcc <= bs[0] <= 0xcf && w == Width(bs[0] - 0xcc) && d < Pow256(w)
               else 0xd0 <= bs[0] <= 0xd3 && w == Width(bs[0] - 0xd0) && -Pow256(w) <= 2 * d
  {
    hide BigEndian;
    Pow256Values();
  }

  /** A sized header: one byte, or a tag and the big-endian size. */
  lemma SizeRoundTrip(t: Token, rest: seq<Byte>)
    requires (t.TStr? || t.TArr? || t.TMap?) && t.size < 0x1_0000_0000
    ensures ReadToken(TokenBytes(t) + rest) == Some(Head(t, |TokenBytes(t)|))
  {
    hide TokenBytes, BigEndian, Pow256, Unsigned, Signed, Payload;
    var bs := TokenBytes(t);
    TaggedSize(t);
    assert (bs + rest)[0] == bs[0];
    if |bs| > 1 { PayloadOf(bs[0], t.size, |bs| - 1, rest); }
  }

  lemma TaggedSize(t: Token)
    requires (t.TStr? || t.TArr? || t.TMap?) && t.size < 0x1_0000_0000
    ensures var bs, w := TokenBytes(t), |TokenBytes(t)| - 1;
            if w == 0 then
              bs == [t.size + if t.TStr? then 0xa0 else if t.TArr? then 0x90 else 0x80]
            else
              && bs == [bs[0]] + BigEndian(t.size, w)
              && t.size < Pow256(w)
              && if t.TStr? then 0xd9 <= bs[0] <= 0xdb && w == Width(bs[0] - 0xd9)
                 else if t.TArr? then 0xdc <= bs[0] <= 0xdd && w == Width(bs[0] - 0xdb)
                 else 0xde <= bs[0] <= 0xdf && w == Width(bs[0] - 0xdd)
    ensures |TokenBytes(t)| == 1 ==> t.size < if t.TStr? then 0x20 else 0x10
  {
    hide BigEndian, IntBytes;
    Pow256Values();
  }

  /** Every token the packer writes is read back as itself, whatever follows it. */
  lemma TokenRoundTrip(t: Token, rest: seq<Byte>)
    requires TokenOk(t)
    ensures ReadToken(TokenBytes(t) + rest) == Some(Head(t, |TokenBytes(t)|))
  {
    match t
    case TNil =>
    case TBool(_) =>
    case TInt(d) => IntRoundTrip(d, rest);
    case _ => SizeRoundTrip(t, rest);
  }

  // --- the shortest form ---

  lemma IntShortest(d: int)
    requires Int64(d)
    ensures |IntBytes(d)| ==
            if -0x20 <= d < 0x80 then 1
            else if -0x80 <= d < 0x100 then 2
            else if -0x8000 <= d < 0x1_0000 then 3
            else if -0x8000_0000 <= d < 0x1_0000_0000 then 5 else 9
  {
    hide BigEndian;
  }

  lemma SizeShortest(t: Token)
    requires TokenOk(t) && (t.TStr? || t.TArr? || t.TMap?)
    ensures |TokenBytes(t)| ==
            if t.size < (if t.TStr? then 0x20 else 0x10) then 1
            else if t.TStr? && t.size < 0x100 then 2
            else if t.size < 0x1_0000 then 3 else 5
  {
    hide BigEndian;
  }

  /** What a reader can find in a payload of `width` bytes. */
  lemma PayloadRange(p: seq<Byte>)
    ensures 0 <= Unsigned(p) < Pow256(|p|) && -Pow256(|p|) <= 2 * Signed(p) < Pow256(|p|)
  {
    UnsignedBound(p);
  }

  /** The range of a token by the number of bytes it was read from. */
  predicate FitsIn(t: Token, length: nat) {
    match t
    case TInt(d) =>
      if length == 1 then -0x20 <= d < 0x80
      else if length == 2 then -0x80 <= d < 0x100
      else if length == 3 then -0x8000 <= d < 0x1_0000
      else if length == 5 then -0x8000_0000 <= d < 0x1_0000_0000
      else length == 9
    case TStr(n) =>
      if length == 1 then n < 0x20
      else if length == 2 then n < 0x100
      else if length == 3 then n < 0x1_0000
      else length == 5
    case TArr(n) => if length == 1 then n < 0x10 else if length == 3 then n < 0x1_0000 else length == 5
    case TMap(n) => if length == 1 then n < 0x10 else if length == 3 then n < 0x1_0000 else length == 5
    case _ => length == 1
  }

  lemma ReadRange(b: seq<Byte>)
    requires ReadToken(b).Some?
    ensures FitsIn(ReadToken(b).value.token, ReadToken(b).value.length)
  {
    Pow256Values();
    var w := ReadToken(b).value.length - 1;
    PayloadRange(b[1..1 + w]);
    hide Unsigned, Signed, Pow256;
  }

  /** No bytes that read as a token are shorter than those the packer writes for it. */
  lemma TokenShortest(b: seq<Byte>)
    requires ReadToken(b).Some? && TokenOk(ReadToken(b).value.token)
    ensures |TokenBytes(ReadToken(b).value.token)| <= ReadToken(b).value.length
  {
    var Head(t, length) := ReadToken(b).value;
    ReadRange(b);
    hide ReadToken, IntBytes;
    match t
    case TInt(d) => IntShortest(d);
    case TNil =>
    case TBool(_) =>
    case _ => hide TokenBytes; SizeShortest(t);
  }

  /** Of the forms of equal length, non-negative integers take the unsigned one. */
  lemma SignOfFamily(d: int)
    requires Int64(d)
    ensures var tag := TokenBytes(TInt(d))[0];
            if d >= 0 then tag == d || 0xcc <= tag <= 0xcf else tag == d + 0x100 || 0xd0 <= tag <= 0xd3
  {
    if -0x20 <= d < 0x80 { SmallIntByte(d); } else { TaggedInt(d); }
  }

  lemma TwoBytes(n: int)
    ensures BigEndian(n, 1) == [n % 0x100]
    ensures BigEndian(n, 2) == [n / 0x100 % 0x100, n % 0x100]
  {
    assert BigEndian(n / 0x100 / 0x100, 0) == [] && BigEndian(n / 0x100, 0) == [];
    assert BigEndian(n / 0x100, 1) == [n / 0x100 % 0x100];
  }

  lemma FourBytes(n: int)
    ensures BigEndian(n, 4) == BigEndian(n / 0x1_0000, 2) + BigEndian(n, 2)
  {
    TwoBytes(n);
    assert n / 0x100 / 0x100 == n / 0x1_0000;
    assert BigEndian(n / 0x100, 3) == BigEndian(n / 0x1_0000, 2) + [n / 0x100 % 0x100];
  }

  /** The formats at the edges of their ranges, byte by byte. */
  lemma IntLiterals()
    ensures TokenBytes(TNil) == [0xc0] && TokenBytes(TBool(false)) == [0xc2] && TokenBytes(TBool(true)) == [0xc3]
    ensures TokenBytes(TInt(0)) == [0x00] && TokenBytes(TInt(127)) == [0x7f]
    ensures TokenBytes(TInt(-1)) == [0xff] && TokenBytes(TInt(-32)) == [0xe0]
    ensures TokenBytes(TInt(128)) == [0xcc, 0x80] && TokenBytes(TInt(255)) == [0xcc, 0xff]
    ensures TokenBytes(TInt(256)) == [0xcd, 0x01, 0x00] && TokenBytes(TInt(65535)) == [0xcd, 0xff, 0xff]
    ensures TokenBytes(TInt(65536)) == [0xce, 0x00, 0x01, 0x00, 0x00]
    ensures TokenBytes(TInt(-33)) == [0xd0, 0xdf] && TokenBytes(TInt(-128)) == [0xd0, 0x80]
    ensures TokenBytes(TInt(-129)) == [0xd1, 0xff, 0x7f] && TokenBytes(TInt(-32768)) == [0xd1, 0x80, 0x00]
    ensures TokenBytes(TInt(-32769)) == [0xd2, 0xff, 0xff, 0x7f, 0xff]
    ensures TokenBytes(TInt(0x1_0000_0000))[0] == 0xcf && TokenBytes(TInt(-0x8000_0001))[0] == 0xd3
  {
    hide BigEndian;
    TwoBytes(0); TwoBytes(127); TwoBytes(-1); TwoBytes(-32);
    TwoBytes(128); TwoBytes(255); TwoBytes(256); TwoBytes(65535);
    TwoBytes(-33); TwoBytes(-128); TwoBytes(-129); TwoBytes(-32768);
    FourBytes(65536); TwoBytes(65536); TwoBytes(1);
    FourBytes(-32769); TwoBytes(-32769);
  }

  lemma SizeLiterals()
    ensures TokenBytes(TStr(0)) == [0xa0] && TokenBytes(TStr(31)) == [0xbf]
    ensures TokenBytes(TStr(32)) == [0xd9, 0x20] && TokenBytes(TStr(256)) == [0xda, 0x01, 0x00]
    ensures TokenBytes(TStr(65536)) == [0xdb, 0x00, 0x01, 0x00, 0x00]
    ensures TokenBytes(TArr(0)) == [0x90] && TokenBytes(TArr(15)) == [0x9f]
    ensures TokenBytes(TArr(16)) == [0xdc, 0x00, 0x10] && TokenBytes(TArr(65536)) == [0xdd, 0x00, 0x01, 0x00, 0x00]
    ensures TokenBytes(TMap(0)) == [0x80] && TokenBytes(TMap(15)) == [0x8f]
    ensures TokenBytes(TMap(16)) == [0xde, 0x00, 0x10] && TokenBytes(TMap(65536)) == [0xdf, 0x00, 0x01, 0x00, 0x00]
  {
    hide BigEndian;
    TwoBytes(32); TwoBytes(256); TwoBytes(16); FourBytes(65536); TwoBytes(65536); TwoBytes(1);
  }

  // --- trees ---

  /** What the types of the source allow: int64 integers, strings of bytes that the packer
      library accepts, and no floating point number (no action holds one). */
  predicate Packable(v: Json)
    decreases v
  {
    match v
    case Int(i) => Int64(i)
    case Real(_) => false
    case Str(s) => TextOk(s)
    case Arr(items) => forall x | x in items :: Packable(x)
    case Obj(members) => forall m | m in members :: TextOk(m.key) && Packable(m.value)
    case _ => true
  }

  predicate TextOk(s: string) {
    |s| < 0x1_0000_0000 && forall i :: 0 <= i < |s| ==> s[i] as int < 0x100
  }

  /** Every array and object fits the 32-bit size of its header. */
  predicate WithinLimits(v: Json)
    decreases v
  {
    match v
    case Arr(items) => |items| < 0x1_0000_0000 && forall x | x in items :: WithinLimits(x)
    case Obj(members) => |members| < 0x1_0000_0000 && forall m | m in members :: WithinLimits(m.value)
    case _ => true
  }

  function Octets(s: string): (bs: seq<Byte>)
    requires TextOk(s)
  {
    seq(|s|, i requires 0 <= i < |s| => s[i] as int)
  }

  function Text(bs: seq<Byte>): string {
    seq(|bs|, i requires 0 <= i < |bs| => bs[i] as char)
  }

  /** `pack_array` and `pack_map` take the size as a 32-bit integer. */
  function Truncated(n: nat): (m: nat)
    ensures m < 0x1_0000_0000
    ensures m == n <==> n < 0x1_0000_0000
  {
    n % 0x1_0000_0000
  }

  function EncodeText(s: string): seq<Byte>
    requires TextOk(s)
  {
    TokenBytes(TStr(|s|)) + Octets(s)
  }

  function Encode(v: Json): (bs: seq<Byte>)
    requires Packable(v)
    decreases v, 1
  {
    match v
    case Null => TokenBytes(TNil)
    case Bool(b) => TokenBytes(TBool(b))
    case Int(i) => TokenBytes(TInt(i))
    case Str(s) => EncodeText(s)
    case Arr(items) => TokenBytes(TArr(Truncated(|items|))) + EncodeItems(items)
    case Obj(members) => TokenBytes(TMap(Truncated(|members|))) + EncodeMembers(members)
  }

  function EncodeItems(items: seq<Json>): seq<Byte>
    requires forall x | x in items :: Packable(x)
    decreases items, 0
  {
    if items == [] then [] else Encode(items[0]) + EncodeItems(items[1..])
  }

  function EncodeMembers(members: seq<Member>): seq<Byte>
    requires forall m | m in members :: TextOk(m.key) && Packable(m.value)
    decreases members, 0
  {
    if members == [] then []
    else EncodeText(members[0].key) + Encode(members[0].value) + EncodeMembers(members[1..])
  }

  /** A decoded value and the bytes behind it. */
  datatype Parsed<+T> = Parsed(value: T, rest: seq<Byte>)

  function DecodeText(b: seq<Byte>): (r: Option<Parsed<string>>)
    ensures r.Some? ==> |r.value.rest| < |b|
  {
    match ReadToken(b)
    case None => None
    case Some(Head(token, length)) =>
      var rest := b[length..];
      if token.TStr? && token.size <= |rest| then
        Some(Parsed(Text(rest[..token.size]), rest[token.size..]))
      else None
  }

  /** A reader written from the specification alone. */
  function Decode(b: seq<Byte>): (r: Option<Parsed<Json>>)
    ensures r.Some? ==> |r.value.rest| < |b|
    decreases |b|, 0
  {
    match ReadToken(b)
    case None => None
    case Some(Head(token, length)) =>
      var rest := b[length..];
      match token
      case TNil => Some(Parsed(Null, rest))
      case TBool(v) => Some(Parsed(Bool(v), rest))
      case TInt(i) => Some(Parsed(Int(i), rest))
      case TStr(_) =>
        (match DecodeText(b)
         case None => None
         case Some(Parsed(s, rest')) => Some(Parsed(Str(s), rest')))
      case TArr(n) =>
        (match DecodeItems(n, rest)
         case None => None
         case Some(Parsed(items, rest')) => Some(Parsed(Arr(items), rest')))
      case TMap(n) =>
        (match DecodeMembers(n, rest)
         case None => None
         case Some(Parsed(members, rest')) => Some(Parsed(Obj(members), rest')))
  }

  function DecodeItems(n: nat, b: seq<Byte>): (r: Option<Parsed<seq<Json>>>)
    ensures r.Some? ==> |r.value.rest| <= |b| && |r.value.value| == n
    decreases |b|, 1
  {
    if n == 0 then Some(Parsed([], b))
    else
      match Decode(b)
      case None => None
      case Some(Parsed(x, rest)) =>
        match DecodeItems(n - 1, rest)
        case None => None
        case Some(Parsed(xs, rest')) => Some(Parsed([x] + xs, rest'))
  }

  function DecodeMembers(n: nat, b: seq<Byte>): (r: Option<Parsed<seq<Member>>>)
    ensures r.Some? ==> |r.value.rest| <= |b| && |r.value.value| == n
    decreases |b|, 1
  {
    if n == 0 then Some(Parsed([], b))
    else
      match DecodeText(b)
      case None => None
      case Some(Parsed(key, b')) =>
        match Decode(b')
        case None => None
        case Some(Parsed(x, rest)) =>
          match DecodeMembers(n - 1, rest)
          case None => None
          case Some(Parsed(ms, rest')) => Some(Parsed([Member(key, x)] + ms, rest'))
  }

  lemma AfterHead(t: Token, tail: seq<Byte>)
    requires TokenOk(t)
    ensures ReadToken(TokenBytes(t) + tail) == Some(Head(t, |TokenBytes(t)|))
    ensures (TokenBytes(t) + tail)[|TokenBytes(t)|..] == tail
  {
    TokenRoundTrip(t, tail);
  }

  lemma TextRoundTrip(s: string, rest: seq<Byte>)
    requires TextOk(s)
    ensures DecodeText(EncodeText(s) + rest) == Some(Parsed(s, rest))
    ensures ReadToken(EncodeText(s) + rest) == Some(Head(TStr(|s|), |TokenBytes(TStr(|s|))|))
  {
    var t := TStr(|s|);
    AfterHead(t, Octets(s) + rest);
    assert EncodeText(s) + rest == TokenBytes(t) + (Octets(s) + rest);
    assert (Octets(s) + rest)[..|s|] == Octets(s);
    assert (Octets(s) + rest)[|s|..] == rest;
    assert Text(Octets(s)) == s;
  }

  /** Decoding a packed tree followed by anything returns the tree and what followed. */
  lemma {:induction false} RoundTrip(v: Json, rest: seq<Byte>)
    requires Packable(v) && WithinLimits(v)
    ensures Decode(Encode(v) + rest) == Some(Parsed(v, rest))
    decreases v, 1
  {
    hide ReadToken, TokenBytes, EncodeItems, EncodeMembers, DecodeItems, DecodeMembers, EncodeText, DecodeText;
    match v
    case Null => AfterHead(TNil, rest);
    case Bool(b) => AfterHead(TBool(b), rest);
    case Int(i) => AfterHead(TInt(i), rest);
    case Str(s) => TextRoundTrip(s, rest);
    case Arr(items) =>
      var t := TArr(|items|);
      AfterHead(t, EncodeItems(items) + rest);
      assert Encode(v) + rest == TokenBytes(t) + (EncodeItems(items) + rest);
      ItemsRoundTrip(items, rest);
    case Obj(members) =>
      var t := TMap(|members|);
      AfterHead(t, EncodeMembers(members) + rest);
      assert Encode(v) + rest == TokenBytes(t) + (EncodeMembers(members) + rest);
      MembersRoundTrip(members, rest);
  }

  lemma {:induction false} ItemsRoundTrip(items: seq<Json>, rest: seq<Byte>)
    requires forall x | x in items :: Packable(x) && WithinLimits(x)
    ensures DecodeItems(|items|, EncodeItems(items) + rest) == Some(Parsed(items, rest))
    decreases items, 0
  {
    hide ReadToken, TokenBytes, Decode, Encode;
    if items == [] {
      assert EncodeItems(items) + rest == rest;
    } else {
      var tail := EncodeItems(items[1..]) + rest;
      RoundTrip(items[0], tail);
      ItemsRoundTrip(items[1..], rest);
      assert EncodeItems(items) + rest == Encode(items[0]) + tail;
      assert [items[0]] + items[1..] == items;
    }
  }

  lemma Joined(a: seq<Byte>, b: seq<Byte>, c: seq<Byte>, rest: seq<Byte>)
    ensures (a + b + c) + rest == a + (b + (c + rest))
  {
  }

  lemma {:induction false} MembersRoundTrip(members: seq<Member>, rest: seq<Byte>)
    requires forall m | m in members :: TextOk(m.key) && Packable(m.value) && WithinLimits(m.value)
    ensures DecodeMembers(|members|, EncodeMembers(members) + rest) == Some(Parsed(members, rest))
    decreases members, 0
  {
    hide ReadToken, TokenBytes, Decode, Encode, DecodeText, EncodeText, TextOk, Packable, WithinLimits;
    if members == [] {
      assert EncodeMembers(members) + rest == rest;
    } else {
      var m, tail := members[0], EncodeMembers(members[1..]) + rest;
      TextRoundTrip(m.key, Encode(m.value) + tail);
      RoundTrip(m.value, tail);
      MembersRoundTrip(members[1..], rest);
      Joined(EncodeText(m.key), Encode(m.value), EncodeMembers(members[1..]), rest);
      assert EncodeMembers(members) == EncodeText(m.key) + Encode(m.value) + EncodeMembers(members[1..]);
      hide DecodeMembers, EncodeMembers;
      DecodeMembersStep(|members|, EncodeMembers(members) + rest, Encode(m.value) + tail, tail, rest, m, members[1..]);
      assert [m] + members[1..] == members;
    }
  }

  lemma DecodeMembersStep(n: nat, b: seq<Byte>, b': seq<Byte>, c: seq<Byte>, d: seq<Byte>, m: Member, ms: seq<Member>)
    requires n > 0 && DecodeText(b) == Some(Parsed(m.key, b')) && Decode(b') == Some(Parsed(m.value, c))
    requires DecodeMembers(n - 1, c) == Some(Parsed(ms, d))
    ensures DecodeMembers(n, b) == Some(Parsed([m] + ms, d))
  {
    hide DecodeText, Decode;
  }

  lemma ReadTokenSize(b: seq<Byte>)
    requires ReadToken(b).Some?
    ensures var t := ReadToken(b).value.token;
            (t.TArr? || t.TMap?) ==> t.size < 0x1_0000_0000
  {
    Pow256Values();
    forall width: nat | 1 + width <= |b|
      ensures Unsigned(b[1..1 + width]) < Pow256(width)
    {
      UnsignedBound(b[1..1 + width]);
    }
  }

  /** A reader never produces a container beyond the 32-bit size. */
  lemma {:induction false} DecodedWithinLimits(b: seq<Byte>)
    requires Decode(b).Some?
    ensures WithinLimits(Decode(b).value.value)
    decreases |b|, 0
  {
    hide ReadToken;
    ReadTokenSize(b);
    var Head(token, length) := ReadToken(b).value;
    match token
    case TArr(n) => DecodedItemsWithinLimits(n, b[length..]);
    case TMap(n) => DecodedMembersWithinLimits(n, b[length..]);
    case _ =>
  }

  lemma {:induction false} DecodedItemsWithinLimits(n: nat, b: seq<Byte>)
    requires DecodeItems(n, b).Some?
    ensures forall x | x in DecodeItems(n, b).value.value :: WithinLimits(x)
    decreases |b|, 1
  {
    hide ReadToken, Decode;
    if n > 0 {
      DecodedWithinLimits(b);
      DecodedItemsWithinLimits(n - 1, Decode(b).value.rest);
    }
  }

  lemma {:induction false} DecodedMembersWithinLimits(n: nat, b: seq<Byte>)
    requires DecodeMembers(n, b).Some?
    ensures forall m | m in DecodeMembers(n, b).value.value :: WithinLimits(m.value)
    decreases |b|, 1
  {
    hide ReadToken, Decode, DecodeText;
    if n > 0 {
      var b' := DecodeText(b).value.rest;
      DecodedWithinLimits(b');
      DecodedMembersWithinLimits(n - 1, Decode(b').value.rest);
    }
  }

  /** The round trip holds exactly for the trees within the specification's size limits: beyond
      them the header is truncated and the reader sees a different tree. */
  lemma RoundTripIff(v: Json, rest: seq<Byte>)
    requires Packable(v)
    ensures Decode(Encode(v) + rest) == Some(Parsed(v, rest)) <==> WithinLimits(v)
  {
    if WithinLimits(v) {
      RoundTrip(v, rest);
    } else if Decode(Encode(v) + rest) == Some(Parsed(v, rest)) {
      DecodedWithinLimits(Encode(v) + rest);
    }
  }

  // --- the shortest form of a tree ---

  lemma TextShortest(b: seq<Byte>)
    requires DecodeText(b).Some? && TextOk(DecodeText(b).value.value)
    ensures |EncodeText(DecodeText(b).value.value)| <= |b| - |DecodeText(b).value.rest|
  {
    hide ReadToken, TokenBytes;
    TokenShortest(b);
  }

  /** No bytes that decode to a tree are shorter than its packed form. */
  lemma {:induction false} Shortest(b: seq<Byte>)
    requires Decode(b).Some? && Packable(Decode(b).value.value)
    ensures |Encode(Decode(b).value.value)| <= |b| - |Decode(b).value.rest|
    decreases |b|, 0
  {
    var Parsed(v, rest) := Decode(b).value;
    var Head(t, length) := ReadToken(b).value;
    DecodedWithinLimits(b);
    hide ReadToken, TokenBytes, DecodeText, EncodeText, WithinLimits;
    match v
    case Null => TokenShortest(b);
    case Bool(_) => TokenShortest(b);
    case Int(_) => TokenShortest(b);
    case Str(_) => TextShortest(b);
    case Arr(items) => SizeKept(b); TokenShortest(b); ItemsShortest(|items|, b[length..]);
    case Obj(members) => SizeKept(b); TokenShortest(b); MembersShortest(|members|, b[length..]);
  }

  lemma SizeKept(b: seq<Byte>)
    requires Decode(b).Some? && Packable(Decode(b).value.value)
    ensures TokenOk(ReadToken(b).value.token)
    ensures var v, t := Decode(b).value.value, ReadToken(b).value.token;
            && (v.Arr? ==> t == TArr(Truncated(|v.items|)) == TArr(|v.items|))
            && (v.Obj? ==> t == TMap(Truncated(|v.members|)) == TMap(|v.members|))
  {
    DecodedWithinLimits(b);
    hide ReadToken;
  }

  lemma {:induction false} ItemsShortest(n: nat, b: seq<Byte>)
    requires DecodeItems(n, b).Some? && forall x | x in DecodeItems(n, b).value.value :: Packable(x)
    ensures |EncodeItems(DecodeItems(n, b).value.value)| <= |b| - |DecodeItems(n, b).value.rest|
    decreases |b|, 1
  {
    hide Decode, Encode, Packable;
    if n > 0 {
      var Parsed(items, rest) := DecodeItems(n, b).value;
      var Parsed(x, b') := Decode(b).value;
      var more := DecodeItems(n - 1, b').value.value;
      assert items == [x] + more && items[0] == x && items[1..] == more;
      assert forall y | y in more :: y in items;
      Shortest(b);
      ItemsShortest(n - 1, b');
    }
  }

  lemma {:induction false} MembersShortest(n: nat, b: seq<Byte>)
    requires DecodeMembers(n, b).Some?
    requires forall m | m in DecodeMembers(n, b).value.value :: TextOk(m.key) && Packable(m.value)
    ensures |EncodeMembers(DecodeMembers(n, b).value.value)| <= |b| - |DecodeMembers(n, b).value.rest|
    decreases |b|, 1
  {
    hide Decode, Encode, Packable, DecodeText, EncodeText, TextOk;
    if n > 0 {
      var Parsed(members, rest) := DecodeMembers(n, b).value;
      var Parsed(key, b') := DecodeText(b).value;
      var Parsed(x, b'') := Decode(b').value;
      var more := DecodeMembers(n - 1, b'').value.value;
      assert members == [Member(key, x)] + more && members[0] == Member(key, x) && members[1..] == more;
      assert forall m | m in more :: m in members;
      TextShortest(b);
      Shortest(b');
      MembersShortest(n - 1, b'');
    }
  }

  function Nulls(n: nat): (items: seq<Json>)
    ensures |items| == n && forall x :: x in items ==> x.Null?
  {
    seq(n, _ => Null)
  }

  /** An array of 2^32 nulls is packed with the header of the empty array, and read back as that. */
  lemma WrapsToEmpty(rest: seq<Byte>)
    ensures var v := Arr(Nulls(0x1_0000_0000));
            Packable(v) && Decode(Encode(v) + rest) == Some(Parsed(Arr([]), EncodeItems(v.items) + rest))
  {
    hide Nulls, EncodeItems, ReadToken, TokenBytes, BigEndian, Pow256;
    var items := Nulls(0x1_0000_0000);
    var tail := EncodeItems(items) + rest;
    AfterHead(TArr(0), tail);
    assert Encode(Arr(items)) + rest == TokenBytes(TArr(0)) + tail;
    assert DecodeItems(0, tail) == Some(Parsed([], tail));
    hide DecodeItems, EncodeMembers, DecodeMembers;
  }

  /** No packed tree is a proper prefix of another: bytes in front of two tails can only be equal
      when trees and tails are. */
  lemma PrefixFree(v: Json, x: seq<Byte>, w: Json, y: seq<Byte>)
    requires Packable(v) && WithinLimits(v) && Packable(w) && WithinLimits(w)
    ensures Encode(v) + x == Encode(w) + y <==> v == w && x == y
  {
    hide Decode, Encode;
    RoundTrip(v, x);
    RoundTrip(w, y);
  }

  lemma ItemsStep(items: seq<Json>, k: nat)
    requires k < |items| && forall x | x in items :: Packable(x)
    ensures EncodeItems(items[k..]) == Encode(items[k]) + EncodeItems(items[k + 1..])
  {
    hide Encode;
    assert items[k..][1..] == items[k + 1..];
  }

  lemma MembersStep(members: seq<Member>, k: nat)
    requires k < |members| && forall m | m in members :: TextOk(m.key) && Packable(m.value)
    ensures EncodeMembers(members[k..])
         == EncodeText(members[k].key) + Encode(members[k].value) + EncodeMembers(members[k + 1..])
  {
    hide Encode, EncodeText;
    assert members[k..][1..] == members[k + 1..];
  }

  // --- the packer: writes into a growing buffer ---

  class Packer {
    var buffer: seq<Byte>

    constructor ()
      ensures buffer == []
    {
      buffer := [];
    }

    method Write(t: Token)
      requires TokenOk(t)
      modifies this
      ensures buffer == old(buffer) + TokenBytes(t)
    {
      buffer := buffer + TokenBytes(t);
    }

    method PackText(s: string)
      requires TextOk(s)
      modifies this
      ensures buffer == old(buffer) + EncodeText(s)
    {
      Write(TStr(|s|));
      buffer := buffer + Octets(s);
    }

    /** The recursive writer appends exactly the encoding that the round trip is about. */
    method PackJson(node: Json)
      requires Packable(node)
      modifies this
      ensures buffer == old(buffer) + Encode(node)
      decreases node, 1
    {
      hide TokenBytes, EncodeText, TextOk, EncodeItems, EncodeMembers;
      match node
      case Null => Write(TNil);
      case Bool(b) => Write(TBool(b));
      case Int(i) => Write(TInt(i));
      case Str(s) => PackText(s);
      case Arr(items) =>
        Write(TArr(Truncated(|items|)));
        PackItems(items);
      case Obj(members) =>
        Write(TMap(Truncated(|members|)));
        PackMembers(members);
    }

    method PackItems(items: seq<Json>)
      requires forall x | x in items :: Packable(x)
      modifies this
      ensures buffer == old(buffer) + EncodeItems(items)
      decreases items, 0
    {
      hide Encode;
      assert items[0..] == items;
      for k := 0 to |items|
        invariant buffer + EncodeItems(items[k..]) == old(buffer) + EncodeItems(items)
      {
        ItemsStep(items, k);
        PackJson(items[k]);
      }
    }

    method PackMembers(members: seq<Member>)
      requires forall m | m in members :: TextOk(m.key) && Packable(m.value)
      modifies this
      ensures buffer == old(buffer) + EncodeMembers(members)
      decreases members, 0
    {
      hide Encode, EncodeText, TextOk;
      assert members[0..] == members;
      for k := 0 to |members|
        invariant buffer + EncodeMembers(members[k..]) == old(buffer) + EncodeMembers(members)
      {
        MembersStep(members, k);
        PackText(members[k].key);
        PackJson(members[k].value);
      }
    }
  }
}
