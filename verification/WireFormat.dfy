/** The binary format the generated bindings use between the host language and Rust, as one codec
    over shapes: every converter of the bindings is a shape built from these constructors. */
module WireFormat {
  import opened Common
  import opened Utf8

  const INT_LIMIT: nat := 0x8000_0000

  // ----- Big-endian integers -----

  function Power256(k: nat): (p: nat)
    ensures p > 0
  {
    if k == 0 then 1 else 256 * Power256(k - 1)
  }

  function PutBE(n: nat, k: nat): (b: seq<Byte>)
    ensures |b| == k
  {
    if k == 0 then [] else PutBE(n / 256, k - 1) + [n % 256]
  }

  function GetBE(b: seq<Byte>): nat {
    if b == [] then 0 else GetBE(b[..|b| - 1]) * 256 + b[|b| - 1]
  }

  lemma {:induction false} GetPut(n: nat, k: nat)
    requires n < Power256(k)
    ensures GetBE(PutBE(n, k)) == n
  {
    if k > 0 {
      GetPut(n / 256, k - 1);
      var b := PutBE(n, k);
      assert b[..k - 1] == PutBE(n / 256, k - 1);
    }
  }

  /** Most significant first: byte `i` of `k` is the digit worth 256 to the power `k - 1 - i`. */
  lemma {:induction false} PutDigits(n: nat, k: nat, i: nat)
    requires i < k
    ensures PutBE(n, k)[i] == n / Power256(k - 1 - i) % 256
  {
    if i < k - 1 {
      PutDigits(n / 256, k - 1, i);
      DivideTwice(n, Power256(k - 2 - i));
    }
  }

  lemma DivideTwice(n: nat, b: nat)
    requires b > 0
    ensures n / 256 / b == n / (256 * b)
  {
    var q, r := n / 256 / b, n / 256 % b;
    assert n / 256 == b * q + r;
    assert (256 * b) * q == 256 * (b * q);
    UniqueQuotient(n, 256 * b, q, 256 * r + n % 256);
  }

  lemma UniqueQuotient(n: nat, d: nat, q: nat, r: nat)
    requires d > 0 && n == d * q + r && r < d
    ensures n / d == q
  {
    if n / d < q { Multiples(d, n / d, q); }
    if q < n / d { Multiples(d, q, n / d); }
  }

  lemma {:induction false} Multiples(d: nat, x: nat, y: nat)
    requires x < y
    ensures d * x + d <= d * y
    decreases y - x
  {
    assert d * y == d * (y - 1) + d;
    if x + 1 < y { Multiples(d, x, y - 1); }
  }

  lemma Powers()
    ensures Power256(2) == 0x1_0000 && Power256(4) == 0x1_0000_0000 && Power256(8) == 0x1_0000_0000_0000_0000
  {
    PowerFigures();
  }

  lemma PowerFigures()
    ensures Power256(0) == 1 && Power256(1) == 0x100 && Power256(2) == 0x1_0000 && Power256(3) == 0x100_0000
    ensures Power256(4) == 0x1_0000_0000 && Power256(5) == 0x100_0000_0000
    ensures Power256(6) == 0x1_0000_0000_0000 && Power256(7) == 0x100_0000_0000_0000
  {
    assert Power256(1) == 256 && Power256(2) == 0x1_0000 && Power256(3) == 0x100_0000;
    assert Power256(4) == 0x1_0000_0000 && Power256(5) == 0x100_0000_0000 && Power256(6) == 0x1_0000_0000_0000;
  }

  // ----- Shapes and values -----

  datatype Shape =
    | UShort | UInt | ULong | Bool | Str | Bytes
    | Optional(of: Shape)
    | Sequence(of: Shape)
    | Nothing
    | Pair(first: Shape, second: Shape)      // a record is a chain of pairs
    | Tagged(cases: seq<Shape>)              // an enum: the number of its variant, from 1, and its fields

  datatype Value =
    | Number(n: nat) | Flag(on: bool) | Text(units: seq<Unit>) | Blob(bytes: seq<Byte>)
    | Absent | Present(it: Value)
    | Items(items: seq<Value>)
    | Empty
    | Both(left: Value, right: Value)
    | Case(index: nat, it: Value)

  predicate Integral(shape: Shape) {
    shape.UShort? || shape.UInt? || shape.ULong?
  }

  function Width(shape: Shape): nat
    requires Integral(shape)
  {
    if shape.UShort? then 2 else if shape.UInt? then 4 else 8
  }

  /** The values a converter accepts: lone surrogates are refused when writing, and the host's
      arrays and lists have fewer than 2^31 elements. */
  predicate Fits(shape: Shape, v: Value) {
    match shape
    case Bool => v.Flag?
    case Str => v.Text? && |v.units| < INT_LIMIT && Encode(v.units).Some?
    case Bytes => v.Blob? && |v.bytes| < INT_LIMIT
    case Optional(of) => v.Absent? || (v.Present? && Fits(of, v.it))
    case Sequence(of) => v.Items? && |v.items| < INT_LIMIT && forall i :: 0 <= i < |v.items| ==> Fits(of, v.items[i])
    case Nothing => v.Empty?
    case Pair(first, second) => v.Both? && Fits(first, v.left) && Fits(second, v.right)
    case Tagged(cases) => v.Case? && v.index < |cases| < INT_LIMIT && Fits(cases[v.index], v.it)
    case _ => v.Number? && v.n < Power256(Width(shape))
  }

  predicate AllFit(of: Shape, items: seq<Value>) {
    forall i :: 0 <= i < |items| ==> Fits(of, items[i])
  }

  function Write(shape: Shape, v: Value): seq<Byte>
    requires Fits(shape, v)
    decreases shape, 0
  {
    match shape
    case Bool => [if v.on then 1 else 0]
    case Str => PutBE(|Encode(v.units).value|, 4) + Encode(v.units).value
    case Bytes => PutBE(|v.bytes|, 4) + v.bytes
    case Optional(of) => if v.Absent? then [0] else [1] + Write(of, v.it)
    case Sequence(of) => PutBE(|v.items|, 4) + WriteAll(of, v.items)
    case Nothing => []
    case Pair(first, second) => Write(first, v.left) + Write(second, v.right)
    case Tagged(cases) => PutBE(v.index + 1, 4) + Write(cases[v.index], v.it)
    case _ => PutBE(v.n, Width(shape))
  }

  function WriteAll(of: Shape, items: seq<Value>): seq<Byte>
    requires AllFit(of, items)
    decreases of, 1, |items|
  {
    if items == [] then [] else Write(of, items[0]) + WriteAll(of, items[1..])
  }

  datatype Parsed<T> = Parsed(value: T, rest: seq<Byte>)

  /** A signed 32-bit length; a negative one has no array. */
  function ReadLength(b: seq<Byte>): Option<Parsed<nat>> {
    if |b| < 4 || GetBE(b[..4]) >= INT_LIMIT then None else Some(Parsed(GetBE(b[..4]), b[4..]))
  }

  function ReadBlock(b: seq<Byte>): Option<Parsed<seq<Byte>>> {
    match ReadLength(b)
    case None => None
    case Some(p) => if |p.rest| < p.value then None else Some(Parsed(p.rest[..p.value], p.rest[p.value..]))
  }

  function Map<T, U>(p: Option<Parsed<T>>, f: T -> U): Option<Parsed<U>> {
    if p.None? then None else Some(Parsed(f(p.value.value), p.value.rest))
  }

  function Read(shape: Shape, b: seq<Byte>): Option<Parsed<Value>>
    decreases shape, 0
  {
    match shape
    case Bool => if b == [] then None else Some(Parsed(Flag(b[0] != 0), b[1..]))
    case Str =>
      var block := ReadBlock(b);
      if block.None? || Decode(block.value.value).None? then None
      else Some(Parsed(Text(Decode(block.value.value).value), block.value.rest))
    case Bytes => Map(ReadBlock(b), bytes => Blob(bytes))
    case Optional(of) =>
      if b == [] then None
      else if b[0] == 0 then Some(Parsed(Absent, b[1..]))
      else Map(Read(of, b[1..]), v => Present(v))
    case Sequence(of) =>
      var count := ReadLength(b);
      if count.None? then None
      else Map(ReadAll(of, count.value.value, count.value.rest), items => Items(items))
    case Nothing => Some(Parsed(Empty, b))
    case Pair(first, second) =>
      var left := Read(first, b);
      if left.None? then None
      else Map(Read(second, left.value.rest), right => Both(left.value.value, right))
    case Tagged(cases) =>
      var tag := ReadLength(b);
      if tag.None? || tag.value.value == 0 || tag.value.value > |cases| then None
      else Map(Read(cases[tag.value.value - 1], tag.value.rest), v => Case(tag.value.value - 1, v))
    case _ => if |b| < Width(shape) then None else Some(Parsed(Number(GetBE(b[..Width(shape)])), b[Width(shape)..]))
  }

  function ReadAll(of: Shape, count: nat, b: seq<Byte>): Option<Parsed<seq<Value>>>
    decreases of, 1, count
  {
    if count == 0 then Some(Parsed([], b))
    else
      var first := Read(of, b);
      if first.None? then None
      else Map(ReadAll(of, count - 1, first.value.rest), others => [first.value.value] + others)
  }

  // ----- The bytes, in figures -----

  function TwoBytes(n: nat): seq<Byte> {
    [n / 0x100 % 256, n % 256]
  }

  function FourBytes(n: nat): seq<Byte> {
    [n / 0x100_0000 % 256, n / 0x1_0000 % 256, n / 0x100 % 256, n % 256]
  }

  function EightBytes(n: nat): seq<Byte> {
    [n / 0x100_0000_0000_0000 % 256, n / 0x1_0000_0000_0000 % 256, n / 0x100_0000_0000 % 256,
     n / 0x1_0000_0000 % 256, n / 0x100_0000 % 256, n / 0x1_0000 % 256, n / 0x100 % 256, n % 256]
  }

  lemma BigEndian(n: nat)
    ensures PutBE(n, 2) == TwoBytes(n) && PutBE(n, 4) == FourBytes(n) && PutBE(n, 8) == EightBytes(n)
  {
    hide PutBE, Power256, TwoBytes, FourBytes, EightBytes;
    InTwoBytes(n);
    InFourBytes(n);
    InEightBytes(n);
  }

  lemma InTwoBytes(n: nat)
    ensures PutBE(n, 2) == TwoBytes(n)
  {
    hide PutBE, Power256;
    PowerFigures();
    PutDigits(n, 2, 0);
    PutDigits(n, 2, 1);
  }

  lemma InFourBytes(n: nat)
    ensures PutBE(n, 4) == FourBytes(n)
  {
    hide PutBE, Power256;
    PowerFigures();
    PutDigits(n, 4, 0);
    PutDigits(n, 4, 1);
    PutDigits(n, 4, 2);
    PutDigits(n, 4, 3);
  }

  lemma InEightBytes(n: nat)
    ensures PutBE(n, 8) == EightBytes(n)
  {
    hide PutBE, Power256;
    PowerFigures();
    PutDigits(n, 8, 0);
    PutDigits(n, 8, 1);
    PutDigits(n, 8, 2);
    PutDigits(n, 8, 3);
    PutDigits(n, 8, 4);
    PutDigits(n, 8, 5);
    PutDigits(n, 8, 6);
    PutDigits(n, 8, 7);
  }

  /** What goes over the wire, one level down: most significant byte first, 1 and 0 for true and false
      and for present and absent, a length before text, bytes and items, a number from 1 before the
      fields of a variant, and nothing around the fields of a record. */
  lemma WireBytes(shape: Shape, v: Value)
    requires Fits(shape, v)
    ensures shape.UShort? ==> Write(shape, v) == TwoBytes(v.n)
    ensures shape.UInt? ==> Write(shape, v) == FourBytes(v.n)
    ensures shape.ULong? ==> Write(shape, v) == EightBytes(v.n)
    ensures shape.Bool? ==> Write(shape, v) == [if v.on then 1 else 0]
    ensures shape.Str? ==> Write(shape, v) == FourBytes(|Encode(v.units).value|) + Encode(v.units).value
    ensures shape.Bytes? ==> Write(shape, v) == FourBytes(|v.bytes|) + v.bytes
    ensures shape.Optional? ==> Write(shape, v) == if v.Absent? then [0] else [1] + Write(shape.of, v.it)
    ensures shape.Sequence? ==> Write(shape, v) == FourBytes(|v.items|) + WriteAll(shape.of, v.items)
    ensures shape.Tagged? ==> Write(shape, v) == FourBytes(v.index + 1) + Write(shape.cases[v.index], v.it)
    ensures shape.Pair? ==> Write(shape, v) == Write(shape.first, v.left) + Write(shape.second, v.right)
  {
    hide PutBE, Encode;
    match shape
    case Str => BigEndian(|Encode(v.units).value|);
    case Bytes => BigEndian(|v.bytes|);
    case Sequence(of) => BigEndian(|v.items|);
    case Tagged(cases) => BigEndian(v.index + 1);
    case UShort => BigEndian(v.n);
    case UInt => BigEndian(v.n);
    case ULong => BigEndian(v.n);
    case _ =>
  }

  // ----- Sizes -----

  /** The bytes a converter asks for, as an unbounded sum: three per UTF-16 unit of a string. */
  function Size(shape: Shape, v: Value): nat
    requires Fits(shape, v)
    decreases shape, 0
  {
    match shape
    case Bool => 1
    case Str => 4 + 3 * |v.units|
    case Bytes => 4 + |v.bytes|
    case Optional(of) => if v.Absent? then 1 else 1 + Size(of, v.it)
    case Sequence(of) => 4 + SizeAll(of, v.items)
    case Nothing => 0
    case Pair(first, second) => Size(first, v.left) + Size(second, v.right)
    case Tagged(cases) => 4 + Size(cases[v.index], v.it)
    case _ => Width(shape)
  }

  function SizeAll(of: Shape, items: seq<Value>): nat
    requires AllFit(of, items)
    decreases of, 1, |items|
  {
    if items == [] then 0 else Size(of, items[0]) + SizeAll(of, items[1..])
  }

  /** What the strings of a value ask for beyond the bytes they come to. */
  function Slack(shape: Shape, v: Value): int
    requires Fits(shape, v)
    decreases shape, 0
  {
    match shape
    case Str => 3 * |v.units| - |Encode(v.units).value|
    case Optional(of) => if v.Absent? then 0 else Slack(of, v.it)
    case Sequence(of) => SlackAll(of, v.items)
    case Pair(first, second) => Slack(first, v.left) + Slack(second, v.right)
    case Tagged(cases) => Slack(cases[v.index], v.it)
    case _ => 0
  }

  function SlackAll(of: Shape, items: seq<Value>): int
    requires AllFit(of, items)
    decreases of, 1, |items|
  {
    if items == [] then 0 else Slack(of, items[0]) + SlackAll(of, items[1..])
  }

  /** The size asked for is the bytes written and the slack of the strings, which is never negative: it
      covers them, and exactly so where there is no string. */
  lemma {:induction false} SizeCoversWrite(shape: Shape, v: Value)
    requires Fits(shape, v)
    ensures Size(shape, v) == |Write(shape, v)| + Slack(shape, v) && Slack(shape, v) >= 0
    decreases shape, 0
  {
    hide Encode, PutBE;
    match shape
    case Str => ThreeBytesPerUnit(v.units);
    case Optional(of) => if v.Present? { SizeCoversWrite(of, v.it); }
    case Sequence(of) => SizeAllCoversWrite(of, v.items);
    case Pair(first, second) =>
      SizeCoversWrite(first, v.left);
      SizeCoversWrite(second, v.right);
    case Tagged(cases) => SizeCoversWrite(cases[v.index], v.it);
    case _ =>
  }

  lemma {:induction false} SizeAllCoversWrite(of: Shape, items: seq<Value>)
    requires AllFit(of, items)
    ensures SizeAll(of, items) == |WriteAll(of, items)| + SlackAll(of, items) && SlackAll(of, items) >= 0
    decreases of, 1, |items|
  {
    hide Write, Size, Slack, Fits;
    if items != [] {
      SizeCoversWrite(of, items[0]);
      SizeAllCoversWrite(of, items[1..]);
    }
  }

  // ----- Round trip -----

  lemma Split(a: seq<Byte>, rest: seq<Byte>)
    ensures (a + rest)[..|a|] == a && (a + rest)[|a|..] == rest
  {
  }

  lemma LengthRoundTrip(n: nat, rest: seq<Byte>)
    requires n < INT_LIMIT
    ensures ReadLength(PutBE(n, 4) + rest) == Some(Parsed(n, rest))
  {
    hide PutBE, GetBE;
    Powers();
    GetPut(n, 4);
    Split(PutBE(n, 4), rest);
  }

  lemma BlockRoundTrip(bytes: seq<Byte>, rest: seq<Byte>)
    requires |bytes| < INT_LIMIT
    ensures ReadBlock(PutBE(|bytes|, 4) + bytes + rest) == Some(Parsed(bytes, rest))
  {
    hide ReadLength;
    assert PutBE(|bytes|, 4) + bytes + rest == PutBE(|bytes|, 4) + (bytes + rest);
    LengthRoundTrip(|bytes|, bytes + rest);
    Split(bytes, rest);
  }

  lemma NumberRoundTrip(n: nat, k: nat, rest: seq<Byte>)
    requires n < Power256(k)
    ensures var b := PutBE(n, k) + rest; |b| >= k && GetBE(b[..k]) == n && b[k..] == rest
  {
    GetPut(n, k);
    Split(PutBE(n, k), rest);
  }

  lemma StringRoundTrip(v: Value, rest: seq<Byte>)
    requires Fits(Str, v) && Size(Str, v) < INT_LIMIT
    ensures Read(Str, Write(Str, v) + rest) == Some(Parsed(v, rest))
  {
    ThreeBytesPerUnit(v.units);
    BlockRoundTrip(Encode(v.units).value, rest);
    DecodeEncode(v.units);
    hide ReadBlock;
  }

  predicate Composite(shape: Shape) {
    shape.Optional? || shape.Sequence? || shape.Pair? || shape.Tagged?
  }

  lemma PlainRoundTrip(shape: Shape, v: Value, rest: seq<Byte>)
    requires Fits(shape, v) && Size(shape, v) < INT_LIMIT && !Composite(shape)
    ensures Read(shape, Write(shape, v) + rest) == Some(Parsed(v, rest))
  {
    hide Encode, Decode, PutBE, GetBE, ReadLength, ReadBlock;
    var b := Write(shape, v) + rest;
    if shape.Str? { StringRoundTrip(v, rest); }
    else if shape.Bytes? { BlockRoundTrip(v.bytes, rest); }
    else if shape.Bool? { assert b[1..] == rest; }
    else if shape.Nothing? { assert b == rest; }
    else { NumberRoundTrip(v.n, Width(shape), rest); }
  }

  // One level of a writer and of a reader, for each shape made of others.

  lemma WritePresent(of: Shape, v: Value)
    requires Fits(Optional(of), v) && v.Present?
    ensures Fits(of, v.it) && Write(Optional(of), v) == [1] + Write(of, v.it)
  {
    hide Encode, Decode, PutBE, GetBE, ReadLength, ReadBlock, ReadAll, WriteAll;
  }

  lemma WriteItems(of: Shape, v: Value)
    requires Fits(Sequence(of), v)
    ensures v.Items? && AllFit(of, v.items) && |v.items| < INT_LIMIT
    ensures Write(Sequence(of), v) == PutBE(|v.items|, 4) + WriteAll(of, v.items)
  {
    hide Encode, Decode, PutBE, GetBE, ReadLength, ReadBlock, ReadAll, WriteAll;
  }

  lemma WritePair(first: Shape, second: Shape, v: Value)
    requires Fits(Pair(first, second), v)
    ensures v.Both? && Fits(first, v.left) && Fits(second, v.right)
    ensures Write(Pair(first, second), v) == Write(first, v.left) + Write(second, v.right)
  {
    hide Encode, Decode, PutBE, GetBE, ReadLength, ReadBlock, ReadAll, WriteAll;
  }

  lemma WriteCase(cases: seq<Shape>, v: Value)
    requires Fits(Tagged(cases), v)
    ensures v.Case? && v.index < |cases| < INT_LIMIT && Fits(cases[v.index], v.it)
    ensures Write(Tagged(cases), v) == PutBE(v.index + 1, 4) + Write(cases[v.index], v.it)
  {
    hide Encode, Decode, PutBE, GetBE, ReadLength, ReadBlock, ReadAll, WriteAll;
  }

  lemma ReadPresent(of: Shape, b: seq<Byte>, v: Value, rest: seq<Byte>)
    requires b != [] && b[0] != 0 && Read(of, b[1..]) == Some(Parsed(v, rest))
    ensures Read(Optional(of), b) == Some(Parsed(Present(v), rest))
  {
    hide Encode, Decode, PutBE, GetBE, ReadLength, ReadBlock, ReadAll, WriteAll;
  }

  lemma ReadItems(of: Shape, b: seq<Byte>, items: seq<Value>, b': seq<Byte>, rest: seq<Byte>)
    requires ReadLength(b) == Some(Parsed(|items|, b')) && ReadAll(of, |items|, b') == Some(Parsed(items, rest))
    ensures Read(Sequence(of), b) == Some(Parsed(Items(items), rest))
  {
    hide Encode, Decode, PutBE, GetBE, ReadLength, ReadBlock, ReadAll, WriteAll;
  }

  lemma ReadPair(first: Shape, second: Shape, b: seq<Byte>, left: Value, b': seq<Byte>, right: Value, rest: seq<Byte>)
    requires Read(first, b) == Some(Parsed(left, b')) && Read(second, b') == Some(Parsed(right, rest))
    ensures Read(Pair(first, second), b) == Some(Parsed(Both(left, right), rest))
  {
    hide Encode, Decode, PutBE, GetBE, ReadLength, ReadBlock, ReadAll, WriteAll;
  }

  lemma ReadCase(cases: seq<Shape>, b: seq<Byte>, index: nat, b': seq<Byte>, v: Value, rest: seq<Byte>)
    requires index < |cases| && ReadLength(b) == Some(Parsed(index + 1, b'))
    requires Read(cases[index], b') == Some(Parsed(v, rest))
    ensures Read(Tagged(cases), b) == Some(Parsed(Case(index, v), rest))
  {
    hide Encode, Decode, PutBE, GetBE, ReadLength, ReadBlock, ReadAll, WriteAll;
  }

  lemma AbsentRoundTrip(of: Shape, rest: seq<Byte>)
    ensures Read(Optional(of), Write(Optional(of), Absent) + rest) == Some(Parsed(Absent, rest))
  {
    hide Encode, Decode, PutBE, GetBE, ReadLength, ReadBlock, ReadAll, WriteAll;
    assert ([0] + rest)[1..] == rest;
  }

  lemma PresentRoundTrip(of: Shape, v: Value, rest: seq<Byte>)
    requires Fits(Optional(of), v) && v.Present? && Read(of, Write(of, v.it) + rest) == Some(Parsed(v.it, rest))
    ensures Read(Optional(of), Write(Optional(of), v) + rest) == Some(Parsed(v, rest))
  {
    hide *;
    WritePresent(of, v);
    var b := [1] + Write(of, v.it) + rest;
    assert b[1..] == Write(of, v.it) + rest;
    ReadPresent(of, b, v.it, rest);
  }

  lemma SequenceRoundTrip(of: Shape, v: Value, rest: seq<Byte>)
    requires Fits(Sequence(of), v)
    requires ReadAll(of, |v.items|, WriteAll(of, v.items) + rest) == Some(Parsed(v.items, rest))
    ensures Read(Sequence(of), Write(Sequence(of), v) + rest) == Some(Parsed(v, rest))
  {
    hide *;
    WriteItems(of, v);
    var length, items := PutBE(|v.items|, 4), WriteAll(of, v.items) + rest;
    assert Write(Sequence(of), v) + rest == length + items;
    LengthRoundTrip(|v.items|, items);
    ReadItems(of, length + items, v.items, items, rest);
  }

  lemma PairRoundTrip(first: Shape, second: Shape, v: Value, rest: seq<Byte>)
    requires Fits(Pair(first, second), v)
    requires Read(first, Write(first, v.left) + (Write(second, v.right) + rest))
          == Some(Parsed(v.left, Write(second, v.right) + rest))
    requires Read(second, Write(second, v.right) + rest) == Some(Parsed(v.right, rest))
    ensures Read(Pair(first, second), Write(Pair(first, second), v) + rest) == Some(Parsed(v, rest))
  {
    hide *;
    WritePair(first, second, v);
    var left, right := Write(first, v.left), Write(second, v.right) + rest;
    assert Write(Pair(first, second), v) + rest == left + right;
    ReadPair(first, second, left + right, v.left, right, v.right, rest);
  }

  lemma TaggedRoundTrip(cases: seq<Shape>, v: Value, rest: seq<Byte>)
    requires Fits(Tagged(cases), v)
    requires Read(cases[v.index], Write(cases[v.index], v.it) + rest) == Some(Parsed(v.it, rest))
    ensures Read(Tagged(cases), Write(Tagged(cases), v) + rest) == Some(Parsed(v, rest))
  {
    hide *;
    WriteCase(cases, v);
    var tag, fields := PutBE(v.index + 1, 4), Write(cases[v.index], v.it) + rest;
    assert Write(Tagged(cases), v) + rest == tag + fields;
    LengthRoundTrip(v.index + 1, fields);
    ReadCase(cases, tag + fields, v.index, fields, v.it, rest);
  }

  /** Reading what was written gives the value back and consumes exactly the bytes written, for every
      shape and every value whose size fits a 32-bit allocation. */
  lemma {:induction false} RoundTrip(shape: Shape, v: Value, rest: seq<Byte>)
    requires Fits(shape, v) && Size(shape, v) < INT_LIMIT
    ensures Read(shape, Write(shape, v) + rest) == Some(Parsed(v, rest))
    decreases shape, 0
  {
    hide Read, Write;
    match shape
    case Optional(of) =>
      if v.Present? {
        RoundTrip(of, v.it, rest);
        PresentRoundTrip(of, v, rest);
      } else {
        AbsentRoundTrip(of, rest);
      }
    case Sequence(of) =>
      RoundTripAll(of, v.items, rest);
      SequenceRoundTrip(of, v, rest);
    case Pair(first, second) =>
      RoundTrip(first, v.left, Write(second, v.right) + rest);
      RoundTrip(second, v.right, rest);
      PairRoundTrip(first, second, v, rest);
    case Tagged(cases) =>
      RoundTrip(cases[v.index], v.it, rest);
      TaggedRoundTrip(cases, v, rest);
    case _ => PlainRoundTrip(shape, v, rest);
  }

  lemma {:induction false} RoundTripAll(of: Shape, items: seq<Value>, rest: seq<Byte>)
    requires AllFit(of, items) && SizeAll(of, items) < INT_LIMIT
    ensures ReadAll(of, |items|, WriteAll(of, items) + rest) == Some(Parsed(items, rest))
    decreases of, 1, |items|
  {
    if items == [] {
      assert WriteAll(of, items) + rest == rest;
    } else {
      var others := WriteAll(of, items[1..]) + rest;
      assert WriteAll(of, items) + rest == Write(of, items[0]) + others;
      hide Read, Write, Size, Fits;
      RoundTrip(of, items[0], others);
      RoundTripAll(of, items[1..], rest);
      assert [items[0]] + items[1..] == items;
    }
  }

  /** No two values of a shape are written alike. */
  lemma WriteIsInjective(shape: Shape, v: Value, w: Value)
    requires Fits(shape, v) && Fits(shape, w) && Size(shape, v) < INT_LIMIT && Size(shape, w) < INT_LIMIT
    requires Write(shape, v) == Write(shape, w)
    ensures v == w
  {
    RoundTrip(shape, v, []);
    RoundTrip(shape, w, []);
  }

  // ----- What is refused -----

  lemma LengthExtends(b: seq<Byte>, more: seq<Byte>)
    requires ReadLength(b).Some?
    ensures ReadLength(b + more) == Some(Parsed(ReadLength(b).value.value, ReadLength(b).value.rest + more))
  {
    hide GetBE;
    assert (b + more)[..4] == b[..4];
    assert (b + more)[4..] == b[4..] + more;
  }

  lemma BlockExtends(b: seq<Byte>, more: seq<Byte>)
    requires ReadBlock(b).Some?
    ensures ReadBlock(b + more) == Some(Parsed(ReadBlock(b).value.value, ReadBlock(b).value.rest + more))
  {
    hide ReadLength;
    LengthExtends(b, more);
    var p := ReadLength(b).value;
    assert (p.rest + more)[..p.value] == p.rest[..p.value];
    assert (p.rest + more)[p.value..] == p.rest[p.value..] + more;
  }

  /** The parse of `longer` is that of `b` with `more` left over at the end. */
  ghost predicate Extends<T(!new)>(p: Option<Parsed<T>>, longer: Option<Parsed<T>>, more: seq<Byte>) {
    p.Some? ==> longer == Some(Parsed(p.value.value, p.value.rest + more))
  }

  lemma Halves(b: seq<Byte>, more: seq<Byte>, n: nat)
    requires n <= |b|
    ensures (b + more)[..n] == b[..n] && (b + more)[n..] == b[n..] + more
  {
  }

  lemma TextExtends(shape: Shape, b: seq<Byte>, more: seq<Byte>)
    requires shape.Str? || shape.Bytes?
    ensures Extends(Read(shape, b), Read(shape, b + more), more)
  {
    hide Decode, ReadBlock;
    if ReadBlock(b).Some? { BlockExtends(b, more); }
  }

  lemma NumberExtends(shape: Shape, b: seq<Byte>, more: seq<Byte>)
    requires Integral(shape)
    ensures Extends(Read(shape, b), Read(shape, b + more), more)
  {
    hide GetBE, Width;
    if |b| >= Width(shape) { Halves(b, more, Width(shape)); }
  }

  lemma FlagExtends(b: seq<Byte>, more: seq<Byte>)
    ensures Extends(Read(Bool, b), Read(Bool, b + more), more)
  {
    if b != [] { Halves(b, more, 1); }
  }

  lemma NothingExtends(b: seq<Byte>, more: seq<Byte>)
    ensures Extends(Read(Nothing, b), Read(Nothing, b + more), more)
  {
  }

  lemma PlainExtends(shape: Shape, b: seq<Byte>, more: seq<Byte>)
    requires !Composite(shape)
    ensures Extends(Read(shape, b), Read(shape, b + more), more)
  {
    hide Read, Extends;
    match shape
    case Bool => FlagExtends(b, more);
    case Nothing => NothingExtends(b, more);
    case Str => TextExtends(shape, b, more);
    case Bytes => TextExtends(shape, b, more);
    case _ => NumberExtends(shape, b, more);
  }

  lemma ReadPresentInverse(of: Shape, b: seq<Byte>)
    requires Read(Optional(of), b).Some? && b[0] != 0
    ensures Read(of, b[1..]).Some?
    ensures Read(Optional(of), b) == Some(Parsed(Present(Read(of, b[1..]).value.value), Read(of, b[1..]).value.rest))
  {
    hide Encode, Decode, PutBE, GetBE, ReadLength, ReadBlock, ReadAll, WriteAll;
  }

  lemma ReadItemsInverse(of: Shape, b: seq<Byte>)
    requires Read(Sequence(of), b).Some?
    ensures ReadLength(b).Some?
    ensures var n := ReadLength(b).value;
            && ReadAll(of, n.value, n.rest).Some?
            && Read(Sequence(of), b)
               == Some(Parsed(Items(ReadAll(of, n.value, n.rest).value.value), ReadAll(of, n.value, n.rest).value.rest))
  {
    hide Encode, Decode, PutBE, GetBE, ReadLength, ReadBlock, ReadAll, WriteAll;
  }

  lemma ReadPairInverse(first: Shape, second: Shape, b: seq<Byte>)
    requires Read(Pair(first, second), b).Some?
    ensures Read(first, b).Some? && Read(second, Read(first, b).value.rest).Some?
    ensures var left, right := Read(first, b).value, Read(second, Read(first, b).value.rest).value;
            Read(Pair(first, second), b) == Some(Parsed(Both(left.value, right.value), right.rest))
  {
    hide Encode, Decode, PutBE, GetBE, ReadLength, ReadBlock, ReadAll, WriteAll;
  }

  lemma ReadCaseInverse(cases: seq<Shape>, b: seq<Byte>)
    requires Read(Tagged(cases), b).Some?
    ensures ReadLength(b).Some? && 1 <= ReadLength(b).value.value <= |cases|
    ensures var tag := ReadLength(b).value;
            && Read(cases[tag.value - 1], tag.rest).Some?
            && var p := Read(cases[tag.value - 1], tag.rest).value;
               Read(Tagged(cases), b) == Some(Parsed(Case(tag.value - 1, p.value), p.rest))
  {
    hide Encode, Decode, PutBE, GetBE, ReadLength, ReadBlock, ReadAll, WriteAll;
  }

  lemma AbsentExtends(of: Shape, b: seq<Byte>, more: seq<Byte>)
    requires b != [] && b[0] == 0
    ensures Extends(Read(Optional(of), b), Read(Optional(of), b + more), more)
  {
    hide Encode, Decode, PutBE, GetBE, ReadLength, ReadBlock, ReadAll, WriteAll;
    assert (b + more)[1..] == b[1..] + more;
  }

  lemma ReadNeedsAByte(of: Shape)
    ensures Read(Optional(of), []).None?
  {
  }

  /** A reader that succeeds does not look past what it consumes. */
  lemma {:induction false} ReadExtends(shape: Shape, b: seq<Byte>, more: seq<Byte>)
    ensures Extends(Read(shape, b), Read(shape, b + more), more)
    decreases shape, 0
  {
    hide Read, ReadAll, ReadLength;
    if Read(shape, b).None? { return; }
    match shape
    case Optional(of) =>
      if b == [] { ReadNeedsAByte(of); }
      else if b[0] == 0 { AbsentExtends(of, b, more); }
      else {
        ReadPresentInverse(of, b);
        ReadExtends(of, b[1..], more);
        assert (b + more)[1..] == b[1..] + more;
        var p := Read(of, b[1..]).value;
        ReadPresent(of, b + more, p.value, p.rest + more);
      }
    case Sequence(of) =>
      ReadItemsInverse(of, b);
      LengthExtends(b, more);
      var n := ReadLength(b).value;
      ReadAllExtends(of, n.value, n.rest, more);
      var p := ReadAll(of, n.value, n.rest).value;
      ReadAllCount(of, n.value, n.rest);
      ReadItems(of, b + more, p.value, n.rest + more, p.rest + more);
    case Pair(first, second) =>
      ReadPairInverse(first, second, b);
      ReadExtends(first, b, more);
      var left := Read(first, b).value;
      ReadExtends(second, left.rest, more);
      var right := Read(second, left.rest).value;
      ReadPair(first, second, b + more, left.value, left.rest + more, right.value, right.rest + more);
    case Tagged(cases) =>
      ReadCaseInverse(cases, b);
      LengthExtends(b, more);
      var tag := ReadLength(b).value;
      ReadExtends(cases[tag.value - 1], tag.rest, more);
      var p := Read(cases[tag.value - 1], tag.rest).value;
      ReadCase(cases, b + more, tag.value - 1, tag.rest + more, p.value, p.rest + more);
    case _ => PlainExtends(shape, b, more);
  }

  lemma {:induction false} ReadAllCount(of: Shape, count: nat, b: seq<Byte>)
    requires ReadAll(of, count, b).Some?
    ensures |ReadAll(of, count, b).value.value| == count
  {
    hide Read;
    if count > 0 { ReadAllCount(of, count - 1, Read(of, b).value.rest); }
  }

  lemma {:induction false} ReadAllExtends(of: Shape, count: nat, b: seq<Byte>, more: seq<Byte>)
    ensures Extends(ReadAll(of, count, b), ReadAll(of, count, b + more), more)
    decreases of, 1, count
  {
    hide Read;
    if count > 0 {
      ReadExtends(of, b, more);
      if Read(of, b).Some? { ReadAllExtends(of, count - 1, Read(of, b).value.rest, more); }
    }
  }

  /** No buffer cut short is read as a value: every proper prefix of what was written is refused. */
  lemma TruncatedIsRefused(shape: Shape, v: Value, n: nat)
    requires Fits(shape, v) && Size(shape, v) < INT_LIMIT && n < |Write(shape, v)|
    ensures Read(shape, Write(shape, v)[..n]).None?
  {
    hide Read, Write, Fits, Size;
    var b := Write(shape, v);
    RoundTrip(shape, v, []);
    assert b + [] == b && b[..n] + b[n..] == b;
    ReadExtends(shape, b[..n], b[n..]);
  }

  /** A variant's number that is 0 or beyond the last is refused. */
  lemma UnknownVariantIsRefused(cases: seq<Shape>, n: nat, rest: seq<Byte>)
    requires n < INT_LIMIT && (n == 0 || n > |cases|)
    ensures Read(Tagged(cases), FourBytes(n) + rest).None?
  {
    hide ReadLength, FourBytes;
    InFourBytes(n);
    LengthRoundTrip(n, rest);
  }

  // ----- The 32-bit allocation size -----

  /** An Int of the host language: 32 bits, wrapping. */
  function Wrap(n: int): int {
    (n + 0x8000_0000) % 0x1_0000_0000 - 0x8000_0000
  }

  /** What allocationSize computes, each addition and product wrapping. */
  function AllocationSize(shape: Shape, v: Value): int
    requires Fits(shape, v)
    decreases shape, 0
  {
    match shape
    case Bool => 1
    case Str => Wrap(4 + Wrap(3 * |v.units|))
    case Bytes => Wrap(4 + |v.bytes|)
    case Optional(of) => if v.Absent? then 1 else Wrap(1 + AllocationSize(of, v.it))
    case Sequence(of) => Wrap(4 + AllocationSum(of, v.items))
    case Nothing => 0
    case Pair(first, second) => Wrap(AllocationSize(first, v.left) + AllocationSize(second, v.right))
    case Tagged(cases) => Wrap(4 + AllocationSize(cases[v.index], v.it))
    case _ => Width(shape)
  }

  function AllocationSum(of: Shape, items: seq<Value>): int
    requires AllFit(of, items)
    decreases of, 1, |items|
  {
    if items == [] then 0 else Wrap(AllocationSize(of, items[0]) + AllocationSum(of, items[1..]))
  }

  lemma WrapSum(a: int, b: int)
    ensures Wrap(Wrap(a) + Wrap(b)) == Wrap(a + b)
    ensures Wrap(a + Wrap(b)) == Wrap(a + b)
  {
    var m := 0x1_0000_0000;
    var ka, kb := (a + 0x8000_0000) / m, (b + 0x8000_0000) / m;
    assert Wrap(a) == a - ka * m && Wrap(b) == b - kb * m;
    WrapPeriod(a + b, -(ka + kb));
    WrapPeriod(a + b, -kb);
  }

  lemma WrapPeriod(n: int, k: int)
    ensures Wrap(n + k * 0x1_0000_0000) == Wrap(n)
  {
    assert (n + 0x8000_0000 + k * 0x1_0000_0000) % 0x1_0000_0000 == (n + 0x8000_0000) % 0x1_0000_0000;
  }

  /** The wrapping computation is the true size wrapped once ... */
  lemma {:induction false} AllocationSizeWraps(shape: Shape, v: Value)
    requires Fits(shape, v)
    ensures AllocationSize(shape, v) == Wrap(Size(shape, v))
    decreases shape, 0
  {
    hide Wrap, Encode;
    SmallWrap(1);
    SmallWrap(0);
    match shape
    case Str => WrapSum(4, 3 * |v.units|);
    case Optional(of) =>
      if v.Present? {
        AllocationSizeWraps(of, v.it);
        WrapSum(1, Size(of, v.it));
      }
    case Sequence(of) =>
      AllocationSumWraps(of, v.items);
      WrapSum(4, SizeAll(of, v.items));
    case Pair(first, second) =>
      AllocationSizeWraps(first, v.left);
      AllocationSizeWraps(second, v.right);
      WrapSum(Size(first, v.left), Size(second, v.right));
    case Tagged(cases) =>
      AllocationSizeWraps(cases[v.index], v.it);
      WrapSum(4, Size(cases[v.index], v.it));
    case Bool =>
    case Nothing =>
    case Bytes =>
    case _ => SmallWrap(Width(shape));
  }

  lemma SmallWrap(n: nat)
    requires n < INT_LIMIT
    ensures Wrap(n) == n
  {
  }

  lemma {:induction false} AllocationSumWraps(of: Shape, items: seq<Value>)
    requires AllFit(of, items)
    ensures AllocationSum(of, items) == Wrap(SizeAll(of, items))
    decreases of, 1, |items|
  {
    hide Wrap, Size, AllocationSize, Fits;
    if items == [] {
      SmallWrap(0);
    } else {
      AllocationSizeWraps(of, items[0]);
      AllocationSumWraps(of, items[1..]);
      WrapSum(Size(of, items[0]), SizeAll(of, items[1..]));
    }
  }

  /** ... so whenever the true size fits 32 bits, the buffer allocated holds what will be written. */
  lemma AllocationSuffices(shape: Shape, v: Value)
    requires Fits(shape, v) && Size(shape, v) < INT_LIMIT
    ensures |Write(shape, v)| <= AllocationSize(shape, v) == Size(shape, v)
  {
    SizeCoversWrite(shape, v);
    AllocationSizeWraps(shape, v);
    SmallWrap(Size(shape, v));
  }

  // ----- Buffers -----

  /** The host language's byte buffer: a fixed array and the position of the next byte. */
  class ByteBuffer {
    var data: array<Byte>
    var position: nat

    ghost predicate Valid()
      reads this
    {
      position <= data.Length
    }

    ghost function Written(): seq<Byte>
      requires Valid()
      reads this, data
    {
      data[..position]
    }

    constructor (capacity: nat)
      ensures Valid() && fresh(data) && data.Length == capacity && position == 0
    {
      data := new Byte[capacity](_ => 0);
      position := 0;
    }

    method Put(bytes: seq<Byte>)
      requires Valid() && position + |bytes| <= data.Length
      modifies this`position, data
      ensures Valid() && data == old(data)
      ensures position == old(position) + |bytes|
      ensures Written() == old(Written()) + bytes
    {
      var i := 0;
      while i < |bytes|
        invariant i <= |bytes| && position == old(position) + i && data == old(data)
        invariant data[..position] == old(data[..position]) + bytes[..i]
      {
        data[position] := bytes[i];
        position := position + 1;
        i := i + 1;
      }
      assert bytes[..i] == bytes;
    }

    /** The bytes not read yet. */
    ghost function Rest(): seq<Byte>
      requires Valid()
      reads this, data
    {
      data[position..]
    }

    /** Reads the next `n` bytes, or none where the buffer ends before them. */
    method Get(n: nat) returns (bytes: Option<seq<Byte>>)
      requires Valid()
      modifies this`position
      ensures Valid() && (bytes.Some? <==> n <= |old(Rest())|)
      ensures bytes.Some? ==> bytes.value == old(Rest())[..n] && Rest() == old(Rest())[n..]
    {
      if n > data.Length - position { return None; }
      bytes := Some(data[position..position + n]);
      position := position + n;
    }
  }

  /** A length and then its bytes. */
  method PutBlock(bytes: seq<Byte>, buf: ByteBuffer)
    requires buf.Valid() && buf.position + 4 + |bytes| <= buf.data.Length
    modifies buf`position, buf.data
    ensures buf.Valid() && buf.data == old(buf.data)
    ensures buf.position == old(buf.position) + 4 + |bytes|
    ensures buf.Written() == old(buf.Written()) + (PutBE(|bytes|, 4) + bytes)
  {
    hide PutBE;
    buf.Put(PutBE(|bytes|, 4));
    buf.Put(bytes);
  }

  method WritePlainInto(shape: Shape, v: Value, buf: ByteBuffer)
    requires !Composite(shape) && Fits(shape, v) && buf.Valid() && buf.position + |Write(shape, v)| <= buf.data.Length
    modifies buf`position, buf.data
    ensures buf.Valid() && buf.data == old(buf.data)
    ensures buf.position == old(buf.position) + |Write(shape, v)|
    ensures buf.Written() == old(buf.Written()) + Write(shape, v)
  {
    hide Encode, PutBE;
    if shape.Str? { PutBlock(Encode(v.units).value, buf); }
    else if shape.Bytes? { PutBlock(v.bytes, buf); }
    else if shape.Bool? { buf.Put([if v.on then 1 else 0]); }
    else if !shape.Nothing? { buf.Put(PutBE(v.n, Width(shape))); }
  }

  /** What a shape made of other shapes writes before their bytes. */
  function Header(shape: Shape, v: Value): seq<Byte>
    requires Fits(shape, v) && Composite(shape) && !shape.Pair?
  {
    if shape.Optional? then [if v.Absent? then 0 else 1]
    else if shape.Sequence? then PutBE(|v.items|, 4)
    else PutBE(v.index + 1, 4)
  }

  /** Writes a value at the buffer's position and advances it, never past the end. */
  method WriteInto(shape: Shape, v: Value, buf: ByteBuffer)
    requires Fits(shape, v) && buf.Valid() && buf.position + |Write(shape, v)| <= buf.data.Length
    modifies buf`position, buf.data
    ensures buf.Valid() && buf.data == old(buf.data)
    ensures buf.position == old(buf.position) + |Write(shape, v)|
    ensures buf.Written() == old(buf.Written()) + Write(shape, v)
    decreases shape, 0
  {
    hide PutBE, Encode;
    if !Composite(shape) {
      WritePlainInto(shape, v, buf);
      return;
    }
    if shape.Pair? {
      ghost var start := buf.Written();
      WriteInto(shape.first, v.left, buf);
      WriteInto(shape.second, v.right, buf);
      assert buf.Written() == start + (Write(shape.first, v.left) + Write(shape.second, v.right));
      return;
    }
    buf.Put(Header(shape, v));
    if shape.Sequence? {
      WriteAllInto(shape.of, v.items, buf);
    } else if shape.Tagged? {
      WriteInto(shape.cases[v.index], v.it, buf);
    } else if v.Present? {
      WriteInto(shape.of, v.it, buf);
    }
  }

  method WriteAllInto(of: Shape, items: seq<Value>, buf: ByteBuffer)
    requires AllFit(of, items) && buf.Valid() && buf.position + |WriteAll(of, items)| <= buf.data.Length
    modifies buf`position, buf.data
    ensures buf.Valid() && buf.data == old(buf.data)
    ensures buf.position == old(buf.position) + |WriteAll(of, items)|
    ensures buf.Written() == old(buf.Written()) + WriteAll(of, items)
    decreases of, 1, |items|
  {
    var i := 0;
    while i < |items|
      invariant i <= |items| && buf.Valid() && buf.data == old(buf.data)
      invariant buf.position + |WriteAll(of, items[i..])| == old(buf.position) + |WriteAll(of, items)|
      invariant buf.Written() + WriteAll(of, items[i..]) == old(buf.Written()) + WriteAll(of, items)
    {
      assert items[i..][1..] == items[i + 1..];
      ghost var before := buf.Written();
      WriteInto(of, items[i], buf);
      ghost var item, others := Write(of, items[i]), WriteAll(of, items[i + 1..]);
      assert before + item + others == before + (item + others);
      i := i + 1;
    }
    assert items[i..] == [];
    assert buf.Written() + [] == buf.Written();
  }

  /** A signed 32-bit number that must not be negative. */
  method LengthFrom(buf: ByteBuffer) returns (n: Option<nat>)
    requires buf.Valid()
    modifies buf`position
    ensures buf.Valid() && Consumes(ReadLength(old(buf.Rest())), n, buf.Rest())
  {
    var b := buf.Get(4);
    n := if b.None? || GetBE(b.value) >= INT_LIMIT then None else Some(GetBE(b.value));
  }

  method BlockFrom(buf: ByteBuffer) returns (bytes: Option<seq<Byte>>)
    requires buf.Valid()
    modifies buf`position
    ensures buf.Valid() && Consumes(ReadBlock(old(buf.Rest())), bytes, buf.Rest())
  {
    var n := LengthFrom(buf);
    if n.None? { return None; }
    bytes := buf.Get(n.value);
  }

  /** A converter's answer and the bytes it left are those of the parse; a failed one has no answer. */
  ghost predicate Consumes<T(!new)>(parse: Option<Parsed<T>>, answer: Option<T>, rest: seq<Byte>) {
    && (answer.Some? <==> parse.Some?)
    && (answer.Some? ==> parse.value == Parsed(answer.value, rest))
  }

  method PlainFrom(shape: Shape, buf: ByteBuffer) returns (v: Option<Value>)
    requires !Composite(shape) && buf.Valid()
    modifies buf`position
    ensures buf.Valid() && Consumes(Read(shape, old(buf.Rest())), v, buf.Rest())
  {
    hide GetBE, Decode, ReadBlock;
    if shape.Str? || shape.Bytes? {
      var bytes := BlockFrom(buf);
      if bytes.None? { return None; }
      if shape.Bytes? { return Some(Blob(bytes.value)); }
      var units := Decode(bytes.value);
      return if units.None? then None else Some(Text(units.value));
    }
    if shape.Nothing? { return Some(Empty); }
    var b := buf.Get(if shape.Bool? then 1 else Width(shape));
    if b.None? { return None; }
    v := Some(if shape.Bool? then Flag(b.value[0] != 0) else Number(GetBE(b.value)));
  }

  method OptionalFrom(of: Shape, buf: ByteBuffer) returns (v: Option<Value>)
    requires buf.Valid()
    modifies buf`position
    ensures buf.Valid() && Consumes(Read(Optional(of), old(buf.Rest())), v, buf.Rest())
    decreases of, 2
  {
    hide Encode, Decode, GetBE, ReadBlock, ReadLength, ReadAll;
    var b := buf.Get(1);
    if b.None? { return None; }
    if b.value[0] == 0 { return Some(Absent); }
    var it := ReadFrom(of, buf);
    v := if it.None? then None else Some(Present(it.value));
  }

  method SequenceFrom(of: Shape, buf: ByteBuffer) returns (v: Option<Value>)
    requires buf.Valid()
    modifies buf`position
    ensures buf.Valid() && Consumes(Read(Sequence(of), old(buf.Rest())), v, buf.Rest())
    decreases of, 3
  {
    hide Encode, Decode, GetBE, ReadBlock, ReadLength, ReadAll;
    var count := LengthFrom(buf);
    if count.None? { return None; }
    var items := ReadAllFrom(of, count.value, buf);
    v := if items.None? then None else Some(Items(items.value));
  }

  method PairFrom(first: Shape, second: Shape, buf: ByteBuffer) returns (v: Option<Value>)
    requires buf.Valid()
    modifies buf`position
    ensures buf.Valid() && Consumes(Read(Pair(first, second), old(buf.Rest())), v, buf.Rest())
    decreases Pair(first, second), 0
  {
    hide Encode, Decode, GetBE, ReadBlock, ReadLength, ReadAll;
    var left := ReadFrom(first, buf);
    if left.None? { return None; }
    var right := ReadFrom(second, buf);
    v := if right.None? then None else Some(Both(left.value, right.value));
  }

  method TaggedFrom(cases: seq<Shape>, buf: ByteBuffer) returns (v: Option<Value>)
    requires buf.Valid()
    modifies buf`position
    ensures buf.Valid() && Consumes(Read(Tagged(cases), old(buf.Rest())), v, buf.Rest())
    decreases Tagged(cases), 0
  {
    hide Encode, Decode, GetBE, ReadBlock, ReadLength, ReadAll;
    var tag := LengthFrom(buf);
    if tag.None? || tag.value == 0 || tag.value > |cases| { return None; }
    var it := ReadFrom(cases[tag.value - 1], buf);
    v := if it.None? then None else Some(Case(tag.value - 1, it.value));
  }

  /** Reads a value at the buffer's position and advances it past exactly the value's bytes. */
  method ReadFrom(shape: Shape, buf: ByteBuffer) returns (v: Option<Value>)
    requires buf.Valid()
    modifies buf`position
    ensures buf.Valid() && Consumes(Read(shape, old(buf.Rest())), v, buf.Rest())
    decreases shape, 1
  {
    hide Read, Consumes;
    match shape {
      case Optional(of) => v := OptionalFrom(of, buf);
      case Sequence(of) => v := SequenceFrom(of, buf);
      case Pair(first, second) => v := PairFrom(first, second, buf);
      case Tagged(cases) => v := TaggedFrom(cases, buf);
      case _ => v := PlainFrom(shape, buf);
    }
  }

  /** The whole parse is what is done followed by what is left to parse. */
  ghost predicate Completes(whole: Option<Parsed<seq<Value>>>, done: seq<Value>, left: Option<Parsed<seq<Value>>>) {
    && (whole.Some? <==> left.Some?)
    && (left.Some? ==> whole.value == Parsed(done + left.value.value, left.value.rest))
  }

  lemma NothingDone(whole: Option<Parsed<seq<Value>>>)
    ensures Completes(whole, [], whole)
  {
    assert whole.Some? ==> [] + whole.value.value == whole.value.value;
  }

  lemma AllDone(of: Shape, b: seq<Byte>, whole: Option<Parsed<seq<Value>>>, done: seq<Value>)
    requires Completes(whole, done, ReadAll(of, 0, b))
    ensures Consumes(whole, Some(done), b)
  {
    assert done + [] == done;
  }

  lemma OneItemDone(of: Shape, n: nat, b: seq<Byte>, whole: Option<Parsed<seq<Value>>>, done: seq<Value>)
    requires n > 0 && Completes(whole, done, ReadAll(of, n, b))
    ensures var p := Read(of, b);
            if p.None? then whole.None?
            else Completes(whole, done + [p.value.value], ReadAll(of, n - 1, p.value.rest))
  {
    hide Read;
    var p := Read(of, b);
    if p.Some? {
      var others := ReadAll(of, n - 1, p.value.rest);
      assert others.Some? ==>
          done + ([p.value.value] + others.value.value) == done + [p.value.value] + others.value.value;
    }
  }

  /** Appending to what has been read so far, one item after the other. */
  method ReadAllFrom(of: Shape, count: nat, buf: ByteBuffer) returns (items: Option<seq<Value>>)
    requires buf.Valid()
    modifies buf`position
    ensures buf.Valid() && Consumes(ReadAll(of, count, old(buf.Rest())), items, buf.Rest())
    decreases of, 2, count
  {
    hide Read, ReadAll, Completes;
    var done: seq<Value> := [];
    ghost var whole := ReadAll(of, count, buf.Rest());
    NothingDone(whole);
    while |done| < count
      invariant |done| <= count && buf.Valid()
      invariant Completes(whole, done, ReadAll(of, count - |done|, buf.Rest()))
    {
      OneItemDone(of, count - |done|, buf.Rest(), whole, done);
      var item := ReadFrom(of, buf);
      if item.None? { return None; }
      done := done + [item.value];
    }
    AllDone(of, buf.Rest(), whole, done);
    return Some(done);
  }

  /** Lowering a value: the buffer asked for is large enough, and holds the value's bytes after. */
  method LowerIntoRustBuffer(shape: Shape, v: Value) returns (bytes: seq<Byte>)
    requires Fits(shape, v) && Size(shape, v) < INT_LIMIT
    ensures bytes == Write(shape, v)
    ensures LiftFromRustBuffer(shape, bytes) == Some(v)
    ensures shape.Str? ==> bytes == FourBytes(|Encode(v.units).value|) + Encode(v.units).value
    ensures shape.Sequence? ==> bytes == FourBytes(|v.items|) + WriteAll(shape.of, v.items)
    ensures shape.Tagged? ==> bytes == FourBytes(v.index + 1) + Write(shape.cases[v.index], v.it)
  {
    hide Write, Read, PutBE, Encode;
    WireBytes(shape, v);
    AllocationSuffices(shape, v);
    var buf := new ByteBuffer(AllocationSize(shape, v));
    WriteInto(shape, v, buf);
    bytes := buf.data[..buf.position];
    LiftLowered(shape, v);
  }

  /** Lifting: read one value and refuse bytes left over. */
  function LiftFromRustBuffer(shape: Shape, b: seq<Byte>): Option<Value> {
    var p := Read(shape, b);
    if p.None? || p.value.rest != [] then None else Some(p.value.value)
  }

  /** The same on a buffer: what was lowered into it is lifted out of it, and nothing is left. */
  method LiftFrom(shape: Shape, buf: ByteBuffer) returns (v: Option<Value>)
    requires buf.Valid()
    modifies buf`position
    ensures v == LiftFromRustBuffer(shape, old(buf.Rest()))
    ensures v.Some? ==> buf.Valid() && buf.Rest() == []
  {
    v := ReadFrom(shape, buf);
    if v.Some? && buf.position < buf.data.Length { v := None; }
  }

  lemma LiftLowered(shape: Shape, v: Value)
    requires Fits(shape, v) && Size(shape, v) < INT_LIMIT
    ensures LiftFromRustBuffer(shape, Write(shape, v)) == Some(v)
  {
    RoundTrip(shape, v, []);
    assert Write(shape, v) + [] == Write(shape, v);
  }

  // ----- The converters of the bindings, as shapes -----

  function Record(fields: seq<Shape>): Shape {
    if fields == [] then Nothing else Pair(fields[0], Record(fields[1..]))
  }

  const CAPABILITY := Record([Str, Str])
  const CUSTOM_GRANT_PROOF := Record([Str, Str])
  const EVENT_STREAM_USER := Record([Str, Optional(ULong)])
  const EVENT_STREAM_CONFIG := Record([
    Sequence(EVENT_STREAM_USER), Optional(Str), Sequence(Str), Optional(UShort), Optional(ULong), Bool, Bool,
    Optional(Str)])
  const GRANT_APPROVAL_MODE := Tagged([Nothing, Nothing])
  const GRANT_AUTH_FLOW_CONFIG := Record([
    Str, Str, Optional(Str), Optional(Str), Optional(Str), Optional(Bytes), Optional(Bytes),
    Optional(GRANT_APPROVAL_MODE), Optional(Str), Optional(Str), Optional(Str), Optional(Str)])
  const GRANT_AUTH_FLOW_STATE := Record([Str, Bytes, Optional(Bytes)])
  const CLIENT_CONFIG := Record([
    Bool, Optional(Str), Optional(ULong), Optional(ULong), Optional(ULong), Optional(ULong), Optional(Str)])
  const STORAGE_EVENT := Record([Str, Str, ULong, Optional(Str)])
  const STORAGE_LIST_OPTIONS := Record([Bool, Bool, Optional(UShort), Optional(Str)])
  const STORAGE_LIST_PAGE := Record([Sequence(Str), Optional(Str)])
  const STORAGE_LOCK_INFO := Record([Str, Str, ULong])
  const STORAGE_RESOURCE_STATS := Record([Optional(ULong), Optional(Str), Optional(ULong), Optional(Str)])
  const VERIFIED_CUSTOM_GRANT_PROOF := Record([
    Str, Str, Str, Str, Sequence(CAPABILITY), ULong, ULong, ULong, Str, Str])
  const PUBKY_CORE_ERROR := Tagged([
    Str, Record([UShort, Str]), Str, Str, Record([Str, Bool]), Str, Record([Str, Bool]), Str, Str])

  /** The records of the bindings. */
  const RECORDS := [
    CAPABILITY, CUSTOM_GRANT_PROOF, EVENT_STREAM_CONFIG, EVENT_STREAM_USER, GRANT_AUTH_FLOW_CONFIG,
    GRANT_AUTH_FLOW_STATE, CLIENT_CONFIG, STORAGE_EVENT, STORAGE_LIST_OPTIONS, STORAGE_LIST_PAGE,
    STORAGE_LOCK_INFO, STORAGE_RESOURCE_STATS, VERIFIED_CUSTOM_GRANT_PROOF]

  /** A record's value, field by field. */
  function Fields(values: seq<Value>): Value {
    if values == [] then Empty else Both(values[0], Fields(values[1..]))
  }

  predicate EachFits(fields: seq<Shape>, values: seq<Value>) {
    |fields| == |values| && forall i :: 0 <= i < |fields| ==> Fits(fields[i], values[i])
  }

  function WriteEach(fields: seq<Shape>, values: seq<Value>): seq<Byte>
    requires EachFits(fields, values)
  {
    if fields == [] then [] else Write(fields[0], values[0]) + WriteEach(fields[1..], values[1..])
  }

  /** A record is written as its fields one after the other, with nothing in between. */
  lemma {:induction false} RecordWritesItsFields(fields: seq<Shape>, values: seq<Value>)
    requires EachFits(fields, values)
    ensures Fits(Record(fields), Fields(values)) && Write(Record(fields), Fields(values)) == WriteEach(fields, values)
    decreases |fields|
  {
    hide Encode, PutBE;
    if fields != [] { RecordWritesItsFields(fields[1..], values[1..]); }
  }

  /** Every record of the bindings survives the trip, in a buffer that holds its fields in order. */
  lemma RecordsRoundTrip(index: nat, v: Value)
    requires index < |RECORDS| && Fits(RECORDS[index], v) && Size(RECORDS[index], v) < INT_LIMIT
    ensures LiftFromRustBuffer(RECORDS[index], Write(RECORDS[index], v)) == Some(v)
    ensures |Write(RECORDS[index], v)| <= AllocationSize(RECORDS[index], v)
  {
    hide *;
    LiftLowered(RECORDS[index], v);
    AllocationSuffices(RECORDS[index], v);
  }

  /** Every error variant survives the trip, with its own number. */
  lemma ErrorsRoundTrip(index: nat, fields: Value)
    requires index < 9 && Fits(PUBKY_CORE_ERROR, Case(index, fields))
    requires Size(PUBKY_CORE_ERROR, Case(index, fields)) < INT_LIMIT
    ensures var b := Write(PUBKY_CORE_ERROR, Case(index, fields));
            && LiftFromRustBuffer(PUBKY_CORE_ERROR, b) == Some(Case(index, fields))
            && b == [0, 0, 0, index + 1] + Write(PUBKY_CORE_ERROR.cases[index], fields)
  {
    hide Write, Read, Fits, Size, Encode, PutBE;
    LiftLowered(PUBKY_CORE_ERROR, Case(index, fields));
    WireBytes(PUBKY_CORE_ERROR, Case(index, fields));
  }
}
