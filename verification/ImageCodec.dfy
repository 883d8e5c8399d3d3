/** The .aifill file: a 28-byte header and the raw bits of the pixels, and the reader that checks them. */
module ImageCodec {
  import opened Bytes

  const MAGIC: seq<byte> := [65, 73, 70, 73, 76, 76, 0, 0]
  const VERSION: u32 := 1
  const HEADER_SIZE := 28
  const MAX_DIM := 32768
  const MAX_CHANNELS := 8

  /** An HWC image; each float32 is its 32 bits. */
  datatype Image = Image(width: int, height: int, channels: int, pixels: seq<u32>)

  predicate DimsInRange(width: int, height: int, channels: int) {
    0 < width <= MAX_DIM && 0 < height <= MAX_DIM && 0 < channels <= MAX_CHANNELS
  }

  function PixelCount(width: int, height: int, channels: int): int {
    width * height * channels
  }

  predicate Wellformed(img: Image) {
    DimsInRange(img.width, img.height, img.channels) && |img.pixels| == PixelCount(img.width, img.height, img.channels)
  }

  function Header(width: u32, height: u32, channels: u32, reserved: u32): (h: seq<byte>)
    ensures |h| == HEADER_SIZE
  {
    MAGIC + LE32(VERSION) + LE32(width) + LE32(height) + LE32(channels) + LE32(reserved)
  }

  function PixelBytes(pixels: seq<u32>): (b: seq<byte>)
    ensures |b| == 4 * |pixels|
  {
    seq(4 * |pixels|, i requires 0 <= i < 4 * |pixels| => LE32(pixels[i / 4])[i % 4])
  }

  function PixelsOf(b: seq<byte>, n: nat): (p: seq<u32>)
    requires 4 * n <= |b|
    ensures |p| == n
  {
    seq(n, i requires 0 <= i < n => FromLE32(b[4 * i..4 * i + 4]))
  }

  /** The bytes image_cache_write puts out. */
  function Encode(img: Image): seq<byte>
    requires Wellformed(img)
  {
    Header(img.width, img.height, img.channels, 0) + PixelBytes(img.pixels)
  }

  datatype ReadError =
    | CannotOpen | ShortMagic | BadMagic | ShortHeader | BadVersion(version: u32) | BadDimensions | ShortPixels

  datatype ReadResult = Ok(img: Image) | Fail(error: ReadError)

  datatype HeaderResult = Dims(width: u32, height: u32, channels: u32) | Bad(error: ReadError)

  function ParseHeader(b: seq<byte>): HeaderResult {
    if |b| < 8 then Bad(ShortMagic)
    else if b[..8] != MAGIC then Bad(BadMagic)
    else if |b| < HEADER_SIZE then Bad(ShortHeader)
    else
      var version, width := FromLE32(b[8..12]), FromLE32(b[12..16]);
      var height, channels := FromLE32(b[16..20]), FromLE32(b[20..24]);
      if version != VERSION then Bad(BadVersion(version))
      else if !DimsInRange(width, height, channels) then Bad(BadDimensions)
      else Dims(width, height, channels)
  }

  function Parse(b: seq<byte>): ReadResult {
    match ParseHeader(b)
    case Bad(e) => Fail(e)
    case Dims(w, h, c) =>
      var n := PixelCount(w, h, c);
      if n < 0 || |b| - HEADER_SIZE < 4 * n then Fail(ShortPixels)
      else Ok(Image(w, h, c, PixelsOf(b[HEADER_SIZE..], n)))
  }

  // ---- What the reader accepts ----

  lemma PixelRoundTrip(pixels: seq<u32>, tail: seq<byte>)
    ensures PixelsOf(PixelBytes(pixels) + tail, |pixels|) == pixels
  {
    var b := PixelBytes(pixels) + tail;
    forall i | 0 <= i < |pixels|
      ensures FromLE32(b[4 * i..4 * i + 4]) == pixels[i]
    {
      hide LE32, FromLE32;
      assert b[4 * i..4 * i + 4] == LE32(pixels[i]);
      LE32RoundTrip(pixels[i]);
    }
  }

  lemma BytesOfPixels(b: seq<byte>, n: nat)
    requires 4 * n <= |b|
    ensures PixelBytes(PixelsOf(b, n)) == b[..4 * n]
  {
    forall i | 0 <= i < 4 * n
      ensures PixelBytes(PixelsOf(b, n))[i] == b[i]
    {
      hide LE32, FromLE32;
      var k := i / 4;
      LE32OfFromLE32(b[4 * k..4 * k + 4]);
      assert b[4 * k..4 * k + 4][i % 4] == b[i];
    }
  }

  lemma CountPositive(width: int, height: int, channels: int)
    requires DimsInRange(width, height, channels)
    ensures PixelCount(width, height, channels) > 0
  {
  }

  lemma HeaderReads(w: u32, h: u32, c: u32, reserved: u32, rest: seq<byte>)
    requires DimsInRange(w, h, c)
    ensures ParseHeader(Header(w, h, c, reserved) + rest) == Dims(w, h, c)
  {
    hide LE32, FromLE32;
    var b := Header(w, h, c, reserved) + rest;
    LE32RoundTrip(VERSION);
    LE32RoundTrip(w);
    LE32RoundTrip(h);
    LE32RoundTrip(c);
    assert b[..8] == MAGIC && b[8..12] == LE32(VERSION);
    assert b[12..16] == LE32(w) && b[16..20] == LE32(h) && b[20..24] == LE32(c);
  }

  lemma HeaderOfRead(b: seq<byte>)
    requires ParseHeader(b).Dims?
    ensures var d := ParseHeader(b); b[..HEADER_SIZE] == Header(d.width, d.height, d.channels, FromLE32(b[24..28]))
  {
    hide LE32, FromLE32;
    LE32OfFromLE32(b[8..12]);
    LE32OfFromLE32(b[12..16]);
    LE32OfFromLE32(b[16..20]);
    LE32OfFromLE32(b[20..24]);
    LE32OfFromLE32(b[24..28]);
    assert b[..12] == b[..8] + b[8..12] && b[..16] == b[..12] + b[12..16];
    assert b[..20] == b[..16] + b[16..20] && b[..24] == b[..20] + b[20..24];
    assert b[..28] == b[..24] + b[24..28];
  }

  lemma ReadsBack(img: Image, reserved: u32, tail: seq<byte>)
    requires Wellformed(img)
    ensures Parse(Header(img.width, img.height, img.channels, reserved) + PixelBytes(img.pixels) + tail) == Ok(img)
  {
    hide LE32, FromLE32, Header, ParseHeader, PixelBytes, PixelsOf;
    var h := Header(img.width, img.height, img.channels, reserved);
    var b := h + PixelBytes(img.pixels) + tail;
    assert b == h + (PixelBytes(img.pixels) + tail);
    HeaderReads(img.width, img.height, img.channels, reserved, PixelBytes(img.pixels) + tail);
    assert b[HEADER_SIZE..] == PixelBytes(img.pixels) + tail;
    PixelRoundTrip(img.pixels, tail);
  }

  /** Reading succeeds with img exactly on the files that hold img: its header with any reserved word,
      all its pixel bytes, and anything after them. */
  lemma ReadAcceptsExactly(b: seq<byte>, img: Image)
    ensures Parse(b) == Ok(img) <==>
      Wellformed(img) && exists reserved: u32, tail: seq<byte> ::
        b == Header(img.width, img.height, img.channels, reserved) + PixelBytes(img.pixels) + tail
  {
    hide LE32, FromLE32, Header, PixelBytes, PixelsOf;
    if Parse(b) == Ok(img) {
      HeaderOfRead(b);
      CountPositive(img.width, img.height, img.channels);
      var n := PixelCount(img.width, img.height, img.channels);
      BytesOfPixels(b[HEADER_SIZE..], n);
      var reserved, tail := FromLE32(b[24..28]), b[HEADER_SIZE + 4 * n..];
      assert b == b[..HEADER_SIZE] + b[HEADER_SIZE..][..4 * n] + tail;
      assert b == Header(img.width, img.height, img.channels, reserved) + PixelBytes(img.pixels) + tail;
    }
    if Wellformed(img) {
      forall reserved: u32, tail: seq<byte> |
        b == Header(img.width, img.height, img.channels, reserved) + PixelBytes(img.pixels) + tail
        ensures Parse(b) == Ok(img)
      {
        ReadsBack(img, reserved, tail);
      }
    }
  }

  lemma WriteThenRead(img: Image)
    requires Wellformed(img)
    ensures Parse(Encode(img)) == Ok(img)
  {
    ReadsBack(img, 0, []);
    assert Encode(img) + [] == Encode(img);
  }

  /** A written file cut anywhere before its end is rejected. */
  lemma TruncatedFails(img: Image, n: nat)
    requires Wellformed(img) && n < |Encode(img)|
    ensures Parse(Encode(img)[..n]).Fail?
  {
    hide LE32, FromLE32, PixelBytes, PixelsOf;
    var b := Encode(img)[..n];
    if n >= HEADER_SIZE {
      var h := Header(img.width, img.height, img.channels, 0);
      assert b == h + b[HEADER_SIZE..];
      HeaderReads(img.width, img.height, img.channels, 0, b[HEADER_SIZE..]);
    }
  }

  /** A prefix of a written file reads as nothing or as that image. */
  lemma PrefixReadsWhole(img: Image, b: seq<byte>)
    requires Wellformed(img) && b <= Encode(img)
    ensures Parse(b).Fail? || Parse(b) == Ok(img)
    ensures Parse(b).Ok? <==> b == Encode(img)
  {
    hide Parse, Encode;
    WriteThenRead(img);
    if |b| < |Encode(img)| {
      TruncatedFails(img, |b|);
      assert b == Encode(img)[..|b|];
    } else {
      assert b == Encode(img);
    }
  }

  lemma EncodeInjective(i1: Image, i2: Image)
    requires Wellformed(i1) && Wellformed(i2) && Encode(i1) <= Encode(i2)
    ensures i1 == i2
  {
    hide Parse, Encode;
    PrefixReadsWhole(i2, Encode(i1));
    WriteThenRead(i1);
  }

  /** Inspecting tells the dimensions of every readable file, and the only unreadable files it passes are short of
      pixels. */
  lemma InspectAgrees(b: seq<byte>)
    ensures Parse(b).Ok? ==> ParseHeader(b) == Dims(Parse(b).img.width, Parse(b).img.height, Parse(b).img.channels)
    ensures Parse(b).Fail? && ParseHeader(b).Dims? ==> Parse(b).error == ShortPixels
  {
  }

  // ---- The stream reader ----

  /** std::ifstream over the bytes of a file. */
  class InStream {
    const data: seq<byte>
    var pos: nat
    var good: bool
    var gcount: nat

    ghost predicate Valid()
      reads this
    {
      pos <= |data|
    }

    constructor (data: seq<byte>)
      ensures Valid() && pos == 0 && good && this.data == data
    {
      this.data := data;
      pos, good, gcount := 0, true, 0;
    }

    /** in.read: takes what there is; a short read or an already failed stream leaves the stream failed. */
    method Read(n: nat) returns (chunk: seq<byte>)
      requires Valid()
      modifies this
      ensures Valid()
      ensures good <==> old(good) && old(pos) + n <= |data|
      ensures good ==> pos == old(pos) + n && gcount == n && chunk == data[old(pos)..pos]
      ensures gcount == |chunk| <= n
      ensures old(good) && !good ==> gcount == |data| - old(pos)
    {
      if !good {
        gcount := 0;
        return [];
      }
      var take := if pos + n <= |data| then n else |data| - pos;
      chunk := data[pos..pos + take];
      good := take == n;
      pos := pos + take;
      gcount := take;
    }

    method ReadU32() returns (ok: bool, v: u32)
      requires Valid()
      modifies this
      ensures Valid() && ok == good
      ensures ok <==> old(good) && old(pos) + 4 <= |data|
      ensures ok ==> pos == old(pos) + 4 && v == FromLE32(data[old(pos)..pos])
    {
      var b := Read(4);
      if !good {
        return false, 0;
      }
      return true, FromLE32(b);
    }

    method ReadHeader() returns (r: HeaderResult)
      requires Valid() && pos == 0 && good
      modifies this
      ensures Valid() && r == ParseHeader(data)
      ensures r.Dims? ==> good && pos == HEADER_SIZE
    {
      hide FromLE32;
      var magic := Read(8);
      if !good {
        return Bad(ShortMagic);
      }
      if magic != MAGIC {
        return Bad(BadMagic);
      }
      var ok, version, width, height, channels, reserved;
      ok, version := ReadU32();
      if ok { ok, width := ReadU32(); } else { width := 0; }
      if ok { ok, height := ReadU32(); } else { height := 0; }
      if ok { ok, channels := ReadU32(); } else { channels := 0; }
      if ok { ok, reserved := ReadU32(); }
      if !ok {
        return Bad(ShortHeader);
      }
      if version != VERSION {
        return Bad(BadVersion(version));
      }
      if width == 0 || height == 0 || channels == 0 || width > MAX_DIM || height > MAX_DIM || channels > MAX_CHANNELS {
        return Bad(BadDimensions);
      }
      return Dims(width, height, channels);
    }
  }

  /** image_cache_read; None is a file that cannot be opened. */
  method ImageCacheRead(file: Option<seq<byte>>) returns (r: ReadResult)
    ensures r == if file.Some? then Parse(file.value) else Fail(CannotOpen)
  {
    if file.None? {
      return Fail(CannotOpen);
    }
    hide FromLE32, ParseHeader, LE32;
    var in_ := new InStream(file.value);
    var h := in_.ReadHeader();
    match h {
      case Bad(e) =>
        return Fail(e);
      case Dims(w, ht, c) =>
        HeaderInRange(file.value);
        CountPositive(w, ht, c);
        var n := PixelCount(w, ht, c);
        var raw := in_.Read(4 * n);
        if in_.gcount != 4 * n {
          return Fail(ShortPixels);
        }
        var pixels := PixelsOf(raw, n);
        assert file.value[HEADER_SIZE..][..4 * n] == raw;
        PixelsOfPrefix(file.value[HEADER_SIZE..], n);
        return Ok(Image(w, ht, c, pixels));
    }
  }

  lemma HeaderInRange(b: seq<byte>)
    requires ParseHeader(b).Dims?
    ensures DimsInRange(ParseHeader(b).width, ParseHeader(b).height, ParseHeader(b).channels)
  {
  }

  lemma PixelsOfPrefix(b: seq<byte>, n: nat)
    requires 4 * n <= |b|
    ensures PixelsOf(b[..4 * n], n) == PixelsOf(b, n)
  {
    forall i | 0 <= i < n
      ensures PixelsOf(b[..4 * n], n)[i] == PixelsOf(b, n)[i]
    {
      assert b[..4 * n][4 * i..4 * i + 4] == b[4 * i..4 * i + 4];
    }
  }

  /** image_cache_inspect. */
  method ImageCacheInspect(file: Option<seq<byte>>) returns (r: HeaderResult)
    ensures r == if file.Some? then ParseHeader(file.value) else Bad(CannotOpen)
  {
    if file.None? {
      return Bad(CannotOpen);
    }
    var in_ := new InStream(file.value);
    r := in_.ReadHeader();
  }

  // ---- The layout of a file ----

  /** Four bytes of the file as a number, least significant first. */
  function WordAt(b: seq<byte>, k: nat): int
    requires k + 4 <= |b|
  {
    b[k] as int + 0x100 * b[k + 1] as int + 0x1_0000 * b[k + 2] as int + 0x100_0000 * b[k + 3] as int
  }

  lemma WordOf(b: seq<byte>, k: nat, v: u32)
    requires k + 4 <= |b| && b[k..k + 4] == LE32(v)
    ensures WordAt(b, k) == v
  {
    hide LE32;
    LE32Value(v);
    assert b[k] == b[k..k + 4][0] && b[k + 1] == b[k..k + 4][1];
    assert b[k + 2] == b[k..k + 4][2] && b[k + 3] == b[k..k + 4][3];
  }

  /** "AIFILL" and two zeros, the version 1, width, height and channels, a zero, and then every pixel's bits. */
  lemma FileLayout(img: Image)
    requires Wellformed(img)
    ensures
      var b := Encode(img);
      && |b| == 28 + 4 * |img.pixels| && b[..8] == [65, 73, 70, 73, 76, 76, 0, 0]
      && WordAt(b, 8) == 1 && WordAt(b, 12) == img.width && WordAt(b, 16) == img.height
      && WordAt(b, 20) == img.channels && WordAt(b, 24) == 0
      && forall i :: 0 <= i < |img.pixels| ==> WordAt(b, 28 + 4 * i) == img.pixels[i]
  {
    hide LE32, PixelBytes, WordAt;
    var b := Encode(img);
    assert b[..28] == Header(img.width, img.height, img.channels, 0);
    HeaderWords(b, img.width, img.height, img.channels);
    forall i | 0 <= i < |img.pixels|
      ensures WordAt(b, 28 + 4 * i) == img.pixels[i]
    {
      PixelWord(img, i);
    }
  }

  lemma HeaderWords(b: seq<byte>, width: u32, height: u32, channels: u32)
    requires |b| >= 28 && b[..28] == Header(width, height, channels, 0)
    ensures b[..8] == [65, 73, 70, 73, 76, 76, 0, 0]
    ensures WordAt(b, 8) == 1 && WordAt(b, 12) == width && WordAt(b, 16) == height
    ensures WordAt(b, 20) == channels && WordAt(b, 24) == 0
  {
    hide LE32, WordAt;
    var h := Header(width, height, channels, 0);
    assert h[..8] == MAGIC && h[8..12] == LE32(1) && h[12..16] == LE32(width) && h[16..20] == LE32(height);
    assert h[20..24] == LE32(channels) && h[24..28] == LE32(0);
    assert b[..8] == h[..8] && b[8..12] == h[8..12] && b[12..16] == h[12..16];
    assert b[16..20] == h[16..20] && b[20..24] == h[20..24] && b[24..28] == h[24..28];
    WordOf(b, 8, 1);
    WordOf(b, 12, width);
    WordOf(b, 16, height);
    WordOf(b, 20, channels);
    WordOf(b, 24, 0);
  }

  lemma PixelWord(img: Image, i: nat)
    requires Wellformed(img) && i < |img.pixels|
    ensures 32 + 4 * i <= |Encode(img)| && WordAt(Encode(img), 28 + 4 * i) == img.pixels[i]
  {
    hide LE32, WordAt, Header, PixelBytes;
    var x := PixelBytes(img.pixels);
    SliceAfter(Header(img.width, img.height, img.channels, 0), x, 4 * i, 4 * i + 4);
    PixelSlice(img.pixels, i);
    WordOf(Encode(img), 28 + 4 * i, img.pixels[i]);
  }

  lemma SliceAfter(h: seq<byte>, x: seq<byte>, i: nat, j: nat)
    requires i <= j <= |x|
    ensures (h + x)[|h| + i..|h| + j] == x[i..j]
  {
  }

  lemma PixelSlice(pixels: seq<u32>, i: nat)
    requires i < |pixels|
    ensures PixelBytes(pixels)[4 * i..4 * i + 4] == LE32(pixels[i])
  {
    hide LE32;
    assert 4 * i / 4 == (4 * i + 1) / 4 == (4 * i + 2) / 4 == (4 * i + 3) / 4 == i;
    assert 4 * i % 4 == 0 && (4 * i + 1) % 4 == 1 && (4 * i + 2) % 4 == 2 && (4 * i + 3) % 4 == 3;
  }

  lemma FromLE32IsWordAt(b: seq<byte>, k: nat)
    requires k + 4 <= |b|
    ensures FromLE32(b[k..k + 4]) == WordAt(b, k)
  {
  }

  /** Sizes of 1 to 32768 by 1 to 32768 by 1 to 8. */
  predicate Accepted(width: int, height: int, channels: int) {
    1 <= width <= 32768 && 1 <= height <= 32768 && 1 <= channels <= 8
  }

  /** Every file fails with the first of these that applies, or reads. */
  lemma ReadFailures(b: seq<byte>)
    ensures
      if |b| < 8 then Parse(b) == Fail(ShortMagic)
      else if b[..8] != [65, 73, 70, 73, 76, 76, 0, 0] then Parse(b) == Fail(BadMagic)
      else if |b| < 28 then Parse(b) == Fail(ShortHeader)
      else if WordAt(b, 8) != 1 then Parse(b) == Fail(BadVersion(FromLE32(b[8..12])))
      else if !Accepted(WordAt(b, 12), WordAt(b, 16), WordAt(b, 20)) then Parse(b) == Fail(BadDimensions)
      else if |b| - 28 < 4 * (WordAt(b, 12) * WordAt(b, 16) * WordAt(b, 20)) then Parse(b) == Fail(ShortPixels)
      else
        Parse(b).Ok? && Parse(b).img.width == WordAt(b, 12) && Parse(b).img.height == WordAt(b, 16)
        && Parse(b).img.channels == WordAt(b, 20) && Wellformed(Parse(b).img)
  {
    hide FromLE32, WordAt, PixelsOf;
    if |b| >= 28 {
      FromLE32IsWordAt(b, 8);
      FromLE32IsWordAt(b, 12);
      FromLE32IsWordAt(b, 16);
      FromLE32IsWordAt(b, 20);
      if Accepted(WordAt(b, 12), WordAt(b, 16), WordAt(b, 20)) {
        CountPositive(WordAt(b, 12), WordAt(b, 16), WordAt(b, 20));
      }
    }
  }
}
