/** CacheKeyBuilder: typed fields, each with a tag byte, streamed into the hasher. */
module CacheKey {
  import opened Bytes
  import Sha256Spec
  import opened Sha256Stream

  /** One builder call. Floats and doubles are their raw bits. */
  datatype Field =
    | Str(s: seq<byte>)
    | Int32(i: i32)
    | Int64(l: i64)
    | Float(f: u32)
    | Double(d: u64)
    | Bool(b: bool)
    | OpHash(h: u64)

  const TAG_STRING: byte := 's' as int
  const TAG_INT32: byte := 'i' as int
  const TAG_INT64: byte := 'I' as int
  const TAG_FLOAT: byte := 'f' as int
  const TAG_DOUBLE: byte := 'd' as int
  const TAG_BOOL: byte := 'b' as int
  const TAG_OP_HASH: byte := 'h' as int

  /** Two words, low word first. */
  function LE64(v: u64): (r: seq<byte>)
    ensures |r| == 8
  {
    LE32(v % TWO_32) + LE32(v / TWO_32)
  }

  function FromLE64(b: seq<byte>): u64
    requires |b| == 8
  {
    FromLE32(b[..4]) + TWO_32 * FromLE32(b[4..])
  }

  function Encode(f: Field): seq<byte> {
    match f
    case Str(s) => [TAG_STRING] + LE32(|s| % TWO_32) + s
    case Int32(i) => [TAG_INT32] + LE32(i % TWO_32)
    case Int64(l) => [TAG_INT64] + LE64(l % TWO_64)
    case Float(f) => [TAG_FLOAT] + LE32(f)
    case Double(d) => [TAG_DOUBLE] + LE64(d)
    case Bool(b) => [TAG_BOOL, if b then 1 else 0]
    case OpHash(h) => [TAG_OP_HASH] + LE64(h)
  }

  /** The pre-hash stream of a list of builder calls. */
  function Stream(fields: seq<Field>): seq<byte> {
    if fields == [] then [] else Encode(fields[0]) + Stream(fields[1..])
  }

  /** The string length survives the cast to uint32_t. */
  predicate Fits(f: Field) {
    f.Str? ==> |f.s| < TWO_32
  }

  predicate AllFit(fields: seq<Field>) {
    forall i :: 0 <= i < |fields| ==> Fits(fields[i])
  }

  /** The value of four bytes, least significant first. */
  function Low(b: seq<byte>): int
    requires |b| == 4
  {
    b[0] as int + 0x100 * b[1] as int + 0x1_0000 * b[2] as int + 0x100_0000 * b[3] as int
  }

  /** What each call puts into the stream, byte by byte: its letter, then the length and bytes of a string, or the two's
      complement value in four or eight bytes, low byte first, or one byte for a bool. */
  lemma EncodedAs(f: Field)
    ensures
      var e := Encode(f);
      match f
      case Str(s) => |e| == 5 + |s| && e[0] == 115 && Low(e[1..5]) == |s| % TWO_32 && e[5..] == s
      case Int32(i) => |e| == 5 && e[0] == 105 && Low(e[1..5]) == i % TWO_32
      case Int64(l) => |e| == 9 && e[0] == 73 && Low(e[1..5]) + TWO_32 * Low(e[5..9]) == l % TWO_64
      case Float(w) => |e| == 5 && e[0] == 102 && Low(e[1..5]) == w
      case Double(d) => |e| == 9 && e[0] == 100 && Low(e[1..5]) + TWO_32 * Low(e[5..9]) == d
      case Bool(b) => |e| == 2 && e[0] == 98 && e[1] == if b then 1 else 0
      case OpHash(h) => |e| == 9 && e[0] == 104 && Low(e[1..5]) + TWO_32 * Low(e[5..9]) == h
  {
    hide LE32, LE64;
    match f {
      case Str(s) => LE32Value(|s| % TWO_32); assert Encode(f)[1..5] == LE32(|s| % TWO_32);
      case Int32(i) => LE32Value(i % TWO_32); assert Encode(f)[1..5] == LE32(i % TWO_32);
      case Int64(l) => LongValue(f, l % TWO_64);
      case Float(w) => LE32Value(w); assert Encode(f)[1..5] == LE32(w);
      case Double(d) => LongValue(f, d);
      case Bool(_) =>
      case OpHash(h) => LongValue(f, h);
    }
  }

  lemma LongValue(f: Field, v: u64)
    requires |Encode(f)| == 9 && Encode(f)[1..] == LE64(v)
    ensures Low(Encode(f)[1..5]) + TWO_32 * Low(Encode(f)[5..9]) == v
  {
    hide LE32, Encode;
    LE32Value(v % TWO_32);
    LE32Value(v / TWO_32);
    assert Encode(f)[1..5] == Encode(f)[1..][..4] && Encode(f)[5..9] == Encode(f)[1..][4..];
    assert LE64(v)[..4] == LE32(v % TWO_32) && LE64(v)[4..] == LE32(v / TWO_32);
  }

  // ---- A decoder for the stream ----

  function Signed(v: int, modulus: int): int
    requires 0 <= v < modulus
  {
    if v < modulus / 2 then v else v - modulus
  }

  /** The first field of a stream and the bytes after it, if the stream starts with one. */
  function DecodeOne(b: seq<byte>): (r: Option<(Field, seq<byte>)>)
    ensures r.Some? ==> |r.value.1| < |b| && r.value.1 == b[|b| - |r.value.1|..]
  {
    if b == [] then None
    else if b[0] == TAG_STRING then
      if |b| < 5 || |b| - 5 < FromLE32(b[1..5]) then None
      else var n := FromLE32(b[1..5]); Some((Str(b[5..5 + n]), b[5 + n..]))
    else if b[0] == TAG_INT32 then
      if |b| < 5 then None else Some((Int32(Signed(FromLE32(b[1..5]), TWO_32)), b[5..]))
    else if b[0] == TAG_INT64 then
      if |b| < 9 then None else Some((Int64(Signed(FromLE64(b[1..9]), TWO_64)), b[9..]))
    else if b[0] == TAG_FLOAT then
      if |b| < 5 then None else Some((Float(FromLE32(b[1..5])), b[5..]))
    else if b[0] == TAG_DOUBLE then
      if |b| < 9 then None else Some((Double(FromLE64(b[1..9])), b[9..]))
    else if b[0] == TAG_BOOL then
      if |b| < 2 || b[1] > 1 then None else Some((Bool(b[1] == 1), b[2..]))
    else if b[0] == TAG_OP_HASH then
      if |b| < 9 then None else Some((OpHash(FromLE64(b[1..9])), b[9..]))
    else None
  }

  function Decode(b: seq<byte>): Option<seq<Field>>
    decreases |b|
  {
    if b == [] then Some([])
    else match DecodeOne(b)
      case None => None
      case Some((f, rest)) =>
        match Decode(rest)
        case None => None
        case Some(fs) => Some([f] + fs)
  }

  lemma LE64RoundTrip(v: u64)
    ensures FromLE64(LE64(v)) == v
  {
    LE32RoundTrip(v % TWO_32);
    LE32RoundTrip(v / TWO_32);
    assert LE64(v)[..4] == LE32(v % TWO_32) && LE64(v)[4..] == LE32(v / TWO_32);
  }

  lemma LE64OfFromLE64(b: seq<byte>)
    requires |b| == 8
    ensures LE64(FromLE64(b)) == b
  {
    hide LE32, FromLE32;
    var lo, hi := FromLE32(b[..4]), FromLE32(b[4..]);
    assert FromLE64(b) % TWO_32 == lo && FromLE64(b) / TWO_32 == hi;
    LE32OfFromLE32(b[..4]);
    LE32OfFromLE32(b[4..]);
    assert b == b[..4] + b[4..];
  }

  lemma DecodeEncode(f: Field, rest: seq<byte>)
    requires Fits(f)
    ensures DecodeOne(Encode(f) + rest) == Some((f, rest))
  {
    hide LE32, FromLE32, LE64, FromLE64;
    var b := Encode(f) + rest;
    match f {
      case Str(s) => assert b[1..5] == LE32(|s|); LE32RoundTrip(|s|);
      case Int32(i) => assert b[1..5] == LE32(i % TWO_32); LE32RoundTrip(i % TWO_32);
      case Int64(l) => assert b[1..9] == LE64(l % TWO_64); LE64RoundTrip(l % TWO_64);
      case Float(w) => assert b[1..5] == LE32(w); LE32RoundTrip(w);
      case Double(d) => assert b[1..9] == LE64(d); LE64RoundTrip(d);
      case Bool(_) =>
      case OpHash(h) => assert b[1..9] == LE64(h); LE64RoundTrip(h);
    }
    assert b[|Encode(f)|..] == rest;
  }

  lemma EncodeDecode(b: seq<byte>)
    requires DecodeOne(b).Some?
    ensures var (f, rest) := DecodeOne(b).value; Fits(f) && Encode(f) + rest == b
  {
    hide DecodeOne, Encode;
    match DecodeOne(b).value.0 {
      case Str(_) => StrDecoded(b);
      case Int32(_) => WordDecoded(b);
      case Float(_) => WordDecoded(b);
      case Bool(_) => BoolDecoded(b);
      case _ => LongDecoded(b);
    }
  }

  lemma StrDecoded(b: seq<byte>)
    requires DecodeOne(b).Some? && DecodeOne(b).value.0.Str?
    ensures var (f, rest) := DecodeOne(b).value; Fits(f) && Encode(f) + rest == b
  {
    hide LE32, FromLE32, LE64, FromLE64;
    var (f, rest) := DecodeOne(b).value;
    LE32OfFromLE32(b[1..5]);
    assert b == b[..1] + b[1..5] + f.s + rest;
  }

  lemma WordDecoded(b: seq<byte>)
    requires DecodeOne(b).Some? && (DecodeOne(b).value.0.Int32? || DecodeOne(b).value.0.Float?)
    ensures var (f, rest) := DecodeOne(b).value; Fits(f) && Encode(f) + rest == b
  {
    hide LE32, FromLE32, LE64, FromLE64;
    LE32OfFromLE32(b[1..5]);
    assert b == b[..1] + b[1..5] + b[5..];
  }

  lemma LongDecoded(b: seq<byte>)
    requires DecodeOne(b).Some?
    requires
      var f := DecodeOne(b).value.0;
      f.Int64? || f.Double? || f.OpHash?
    ensures var (f, rest) := DecodeOne(b).value; Fits(f) && Encode(f) + rest == b
  {
    hide LE32, FromLE32, LE64, FromLE64;
    LE64OfFromLE64(b[1..9]);
    assert b == b[..1] + b[1..9] + b[9..];
  }

  lemma BoolDecoded(b: seq<byte>)
    requires DecodeOne(b).Some? && DecodeOne(b).value.0.Bool?
    ensures var (f, rest) := DecodeOne(b).value; Fits(f) && Encode(f) + rest == b
  {
    hide LE32, FromLE32, LE64, FromLE64;
    assert b == b[..1] + b[1..2] + b[2..];
  }

  /** Streams whose strings have 32-bit lengths decode to exactly the calls that produced them. */
  lemma {:induction false} StreamDecodes(fields: seq<Field>)
    requires AllFit(fields)
    ensures Decode(Stream(fields)) == Some(fields)
  {
    if fields != [] {
      DecodeEncode(fields[0], Stream(fields[1..]));
      StreamDecodes(fields[1..]);
      assert fields == [fields[0]] + fields[1..];
    }
  }

  /** The decoder accepts nothing but streams. */
  lemma {:induction false} DecodedIsStream(b: seq<byte>)
    requires Decode(b).Some?
    ensures AllFit(Decode(b).value) && Stream(Decode(b).value) == b
    decreases |b|
  {
    if b != [] {
      var (f, rest) := DecodeOne(b).value;
      EncodeDecode(b);
      DecodedIsStream(rest);
      var fs := Decode(rest).value;
      assert ([f] + fs)[1..] == fs;
    }
  }

  /** Decoding recovers the calls if and only if every string length fits its 32-bit prefix. */
  lemma DecodesIffFits(fields: seq<Field>)
    ensures Decode(Stream(fields)) == Some(fields) <==> AllFit(fields)
  {
    if AllFit(fields) {
      StreamDecodes(fields);
    }
    if Decode(Stream(fields)) == Some(fields) {
      DecodedIsStream(Stream(fields));
    }
  }

  lemma StreamInjective(xs: seq<Field>, ys: seq<Field>)
    requires AllFit(xs) && AllFit(ys)
    requires Stream(xs) == Stream(ys)
    ensures xs == ys
  {
    StreamDecodes(xs);
    StreamDecodes(ys);
  }

  lemma {:induction false} StreamAppend(xs: seq<Field>, ys: seq<Field>)
    ensures Stream(xs + ys) == Stream(xs) + Stream(ys)
  {
    if xs == [] {
      assert xs + ys == ys;
    } else {
      assert (xs + ys)[1..] == xs[1..] + ys;
      StreamAppend(xs[1..], ys);
    }
  }

  // ---- Beyond the range: a string of 2^32 bytes is not told apart from other calls ----

  function FalseFields(n: nat): (fs: seq<Field>)
    ensures |fs| == n
  {
    seq(n, i => Bool(false))
  }

  function FalseBytes(n: nat): (b: seq<byte>)
    ensures |b| == 2 * n
  {
    seq(2 * n, i => if i % 2 == 0 then TAG_BOOL else 0)
  }

  lemma {:induction false} StreamOfFalseFields(n: nat)
    ensures Stream(FalseFields(n)) == FalseBytes(n)
  {
    if n > 0 {
      hide FalseFields, FalseBytes, Encode;
      StreamOfFalseFields(n - 1);
      FirstFalse(n);
    }
  }

  lemma FirstFalse(n: nat)
    requires n > 0
    ensures FalseFields(n)[0] == Bool(false) && FalseFields(n)[1..] == FalseFields(n - 1)
    ensures FalseBytes(n) == Encode(Bool(false)) + FalseBytes(n - 1)
  {
    assert FalseBytes(n)[2..] == FalseBytes(n - 1);
    assert FalseBytes(n) == FalseBytes(n)[..2] + FalseBytes(n)[2..];
  }

  /** One string of 2^32 bytes gives the stream of an empty string followed by 2^31 bools. */
  lemma LongStringCollides()
    ensures
      var s := FalseBytes(TWO_32 / 2);
      var other := [Str([])] + FalseFields(TWO_32 / 2);
      [Str(s)] != other && Stream([Str(s)]) == Stream(other)
  {
    hide LE32, FalseFields, FalseBytes;
    var n := TWO_32 / 2;
    var s := FalseBytes(n);
    StreamOfFalseFields(n);
    assert ([Str([])] + FalseFields(n))[1..] == FalseFields(n);
    assert [Str(s)][1..] == [];
    assert Encode(Str(s)) == [TAG_STRING] + LE32(0) + s;
    assert Encode(Str([])) == [TAG_STRING] + LE32(0);
  }

  // ---- The builder ----

  lemma NoCalls()
    ensures Stream([]) == []
  {
  }

  lemma StrBytes(b: seq<byte>, s: seq<byte>)
    ensures b + [TAG_STRING] + LE32(|s| % TWO_32) + s == b + Encode(Str(s))
  {
    hide LE32;
  }

  lemma WordBytes(b: seq<byte>, f: Field)
    ensures f.Int32? ==> b + [TAG_INT32] + LE32(f.i % TWO_32) == b + Encode(f)
    ensures f.Float? ==> b + [TAG_FLOAT] + LE32(f.f) == b + Encode(f)
  {
    hide LE32;
  }

  lemma LongBytes(b: seq<byte>, f: Field)
    ensures f.Int64? ==>
      b + [TAG_INT64] + LE32(f.l % TWO_32) + LE32(f.l / TWO_32 % TWO_32) == b + Encode(f)
    ensures f.Double? ==> b + [TAG_DOUBLE] + LE32(f.d % TWO_32) + LE32(f.d / TWO_32 % TWO_32) == b + Encode(f)
    ensures f.OpHash? ==> b + [TAG_OP_HASH] + LE32(f.h % TWO_32) + LE32(f.h / TWO_32 % TWO_32) == b + Encode(f)
  {
    hide LE32;
    if f.Int64? {
      HalvesOfSigned(f.l);
    }
  }

  lemma BoolBytes(b: seq<byte>, v: bool)
    ensures b + [TAG_BOOL] + [if v then 1 else 0] == b + Encode(Bool(v))
  {
  }

  class CacheKeyBuilder {
    const hasher: Sha256

    /** The calls made since construction or the last finalize. */
    ghost var fields: seq<Field>

    ghost predicate Valid()
      reads this, hasher, hasher.state, hasher.buffer
    {
      hasher.Valid() && hasher.absorbed == Stream(fields)
    }

    constructor ()
      ensures Valid() && fields == []
      ensures fresh(hasher) && fresh(hasher.state) && fresh(hasher.buffer)
    {
      hide Sha256.Valid, Stream;
      hasher := new Sha256();
      fields := [];
      NoCalls();
    }

    /** The bytes of one field have all been fed. */
    ghost method Record(f: Field)
      requires hasher.Valid() && hasher.absorbed == Stream(fields) + Encode(f)
      modifies this`fields
      ensures Valid() && fields == old(fields) + [f]
    {
      StreamAppend(fields, [f]);
      assert [f][1..] == [];
      fields := fields + [f];
    }

    method PutTag(t: byte)
      requires hasher.Valid()
      modifies hasher`bitLength, hasher`bufferLen, hasher`absorbed, hasher.state, hasher.buffer
      ensures hasher.Valid() && hasher.absorbed == old(hasher.absorbed) + [t]
    {
      hide *;
      hasher.Update([t]);
    }

    method PutU32(v: u32)
      requires hasher.Valid()
      modifies hasher`bitLength, hasher`bufferLen, hasher`absorbed, hasher.state, hasher.buffer
      ensures hasher.Valid() && hasher.absorbed == old(hasher.absorbed) + LE32(v)
    {
      hide Sha256.Valid;
      hasher.Update([v % 256, v / 256 % 256, v / 256 / 256 % 256, v / 256 / 256 / 256 % 256]);
    }

    method AddString(s: seq<byte>)
      requires Valid()
      modifies this`fields, hasher`bitLength, hasher`bufferLen, hasher`absorbed, hasher.state, hasher.buffer
      ensures Valid() && fields == old(fields) + [Str(s)]
    {
      hide Sha256.Valid, Stream, LE32, Encode;
      ghost var b := hasher.absorbed;
      PutTag(TAG_STRING);
      PutU32(|s| % TWO_32);
      hasher.Update(s);
      StrBytes(b, s);
      Record(Str(s));
    }

    /** The const char* overload: a null pointer counts as the empty string. */
    method AddCString(s: Option<seq<byte>>)
      requires Valid()
      modifies this`fields, hasher`bitLength, hasher`bufferLen, hasher`absorbed, hasher.state, hasher.buffer
      ensures Valid() && fields == old(fields) + [Str(if s.Some? then s.value else [])]
    {
      hide *;
      AddString(if s.Some? then s.value else []);
    }

    method AddInt32(v: i32)
      requires Valid()
      modifies this`fields, hasher`bitLength, hasher`bufferLen, hasher`absorbed, hasher.state, hasher.buffer
      ensures Valid() && fields == old(fields) + [Int32(v)]
    {
      hide Sha256.Valid, Stream, LE32, Encode;
      ghost var b := hasher.absorbed;
      PutTag(TAG_INT32);
      PutU32(v % TWO_32);
      WordBytes(b, Int32(v));
      Record(Int32(v));
    }

    method AddInt64(v: i64)
      requires Valid()
      modifies this`fields, hasher`bitLength, hasher`bufferLen, hasher`absorbed, hasher.state, hasher.buffer
      ensures Valid() && fields == old(fields) + [Int64(v)]
    {
      hide Sha256.Valid, Stream, LE32, Encode;
      ghost var b := hasher.absorbed;
      PutTag(TAG_INT64);
      PutU32(v % TWO_32);
      PutU32(v / TWO_32 % TWO_32);
      LongBytes(b, Int64(v));
      Record(Int64(v));
    }

    method AddFloat(bits: u32)
      requires Valid()
      modifies this`fields, hasher`bitLength, hasher`bufferLen, hasher`absorbed, hasher.state, hasher.buffer
      ensures Valid() && fields == old(fields) + [Float(bits)]
    {
      hide Sha256.Valid, Stream, LE32, Encode;
      ghost var b := hasher.absorbed;
      PutTag(TAG_FLOAT);
      PutU32(bits);
      WordBytes(b, Float(bits));
      Record(Float(bits));
    }

    method AddDouble(bits: u64)
      requires Valid()
      modifies this`fields, hasher`bitLength, hasher`bufferLen, hasher`absorbed, hasher.state, hasher.buffer
      ensures Valid() && fields == old(fields) + [Double(bits)]
    {
      hide Sha256.Valid, Stream, LE32, Encode;
      ghost var b := hasher.absorbed;
      PutTag(TAG_DOUBLE);
      PutU32(bits % TWO_32);
      PutU32(bits / TWO_32 % TWO_32);
      LongBytes(b, Double(bits));
      Record(Double(bits));
    }

    method AddBool(v: bool)
      requires Valid()
      modifies this`fields, hasher`bitLength, hasher`bufferLen, hasher`absorbed, hasher.state, hasher.buffer
      ensures Valid() && fields == old(fields) + [Bool(v)]
    {
      hide Sha256.Valid, Stream, LE32, Encode;
      ghost var b := hasher.absorbed;
      PutTag(TAG_BOOL);
      hasher.Update([if v then 1 else 0]);
      BoolBytes(b, v);
      Record(Bool(v));
    }

    method AddOpHash(h: u64)
      requires Valid()
      modifies this`fields, hasher`bitLength, hasher`bufferLen, hasher`absorbed, hasher.state, hasher.buffer
      ensures Valid() && fields == old(fields) + [OpHash(h)]
    {
      hide Sha256.Valid, Stream, LE32, Encode;
      ghost var b := hasher.absorbed;
      PutTag(TAG_OP_HASH);
      PutU32(h % TWO_32);
      PutU32(h / TWO_32 % TWO_32);
      LongBytes(b, OpHash(h));
      Record(OpHash(h));
    }

    /** The key is the hexadecimal digest of the stream, and the builder is ready for another. */
    method Finalize() returns (key: string)
      requires Valid()
      modifies this`fields, hasher`bitLength, hasher`bufferLen, hasher`absorbed, hasher.state, hasher.buffer
      ensures key == KeyOf(old(fields)) && HexKey(key)
      ensures Valid() && fields == []
    {
      hide Sha256.Valid, Sha256Spec.Sha256, Hex, HexKey;
      var digest := hasher.Finalize();
      key := Sha256.ToHex(digest);
      HexRoundTrip(digest);
      fields := [];
    }
  }

  function KeyOf(fields: seq<Field>): string {
    Hex(Sha256Spec.Sha256(Stream(fields)))
  }

  /** Shifting a two's complement value arithmetically and masking gives the halves of its unsigned form. */
  lemma HalvesOfSigned(v: i64)
    ensures v % TWO_64 % TWO_32 == v % TWO_32
    ensures v % TWO_64 / TWO_32 == v / TWO_32 % TWO_32
  {
  }

  /** The cache's own test of a key name. */
  method IsHexKey(s: string) returns (ok: bool)
    ensures ok <==> HexKey(s)
  {
    if |s| != 64 {
      return false;
    }
    for i := 0 to |s|
      invariant forall j :: 0 <= j < i ==> IsHexDigit(s[j])
    {
      if !(('0' <= s[i] <= '9') || ('a' <= s[i] <= 'f')) {
        assert !IsHexDigit(s[i]);
        return false;
      }
    }
    return true;
  }

  /** Every key the builder can produce is accepted by the cache, and equal keys mean equal digests. */
  lemma KeysAreHexKeys(xs: seq<Field>, ys: seq<Field>)
    ensures HexKey(KeyOf(xs))
    ensures KeyOf(xs) == KeyOf(ys) ==> Sha256Spec.Sha256(Stream(xs)) == Sha256Spec.Sha256(Stream(ys))
  {
    HexRoundTrip(Sha256Spec.Sha256(Stream(xs)));
    HexRoundTrip(Sha256Spec.Sha256(Stream(ys)));
  }
}
