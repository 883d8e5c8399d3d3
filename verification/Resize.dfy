/** The bilinear resize of the LaMa tiler, over the reals: images are flat HWC sequences. */
module Resize {
  import opened Arithmetic

  // ---- Flat indices ----

  /** Row y, column x, channel c of an image of the given width and channel count. */
  function Index(y: nat, x: nat, c: nat, w: nat, channels: nat): nat {
    MulNatural(y, w);
    MulNatural(y * w + x, channels);
    (y * w + x) * channels + c
  }

  lemma IndexInside(y: nat, x: nat, c: nat, h: nat, w: nat, channels: nat)
    requires y < h && x < w && c < channels
    ensures Index(y, x, c, w, channels) < h * w * channels
    ensures y * w + x < h * w
  {
    MulMonotone(y, h, w);
    MulMonotone(y * w + x, h * w, channels);
  }

  /** The row, column and channel of a flat index. */
  function RowOf(k: nat, w: nat, channels: nat): nat
    requires w > 0 && channels > 0
  {
    k / channels / w
  }

  function ColumnOf(k: nat, w: nat, channels: nat): nat
    requires w > 0 && channels > 0
  {
    k / channels % w
  }

  lemma IndexParts(y: nat, x: nat, c: nat, w: nat, channels: nat)
    requires x < w && c < channels
    ensures var k := Index(y, x, c, w, channels);
      RowOf(k, w, channels) == y && ColumnOf(k, w, channels) == x && k % channels == c
  {
    DivModUnique(y * w + x, channels, c);
    DivModUnique(y, w, x);
  }

  lemma PartsIndex(k: nat, h: nat, w: nat, channels: nat)
    requires w > 0 && channels > 0 && k < h * w * channels
    ensures RowOf(k, w, channels) < h && ColumnOf(k, w, channels) < w && k % channels < channels
    ensures Index(RowOf(k, w, channels), ColumnOf(k, w, channels), k % channels, w, channels) == k
  {
    var p := k / channels;
    assert k == p * channels + k % channels;
    if p >= h * w {
      if p > h * w { MulMonotone(h * w, p, channels); }
    }
    assert p < h * w;
    assert p == (p / w) * w + p % w;
    if p / w >= h {
      if p / w > h { MulMonotone(h, p / w, w); }
    }
  }

  // ---- Sampling ----

  function Clamp(v: int, lo: int, hi: int): int {
    if v < lo then lo else if v > hi then hi else v
  }

  /** The source coordinate of output sample o when s samples become d. */
  function Coord(o: nat, s: nat, d: nat): real
    requires d > 0
  {
    (o as real + 0.5) * (s as real / d as real) - 0.5
  }

  /** The two neighbours in the source and the weight of the upper one. */
  datatype Taps = Taps(lo: nat, hi: nat, frac: real)

  function TapsAt(t: real, s: nat): (p: Taps)
    requires s > 0
    ensures p.lo < s && p.hi < s && 0.0 <= p.frac < 1.0
  {
    Taps(Clamp(t.Floor, 0, s - 1), Clamp(t.Floor + 1, 0, s - 1), t - t.Floor as real)
  }

  function Blend(v00: real, v01: real, v10: real, v11: real, dx: real, dy: real): real {
    v00 * ((1.0 - dx) * (1.0 - dy)) + v01 * (dx * (1.0 - dy)) + v10 * ((1.0 - dx) * dy) + v11 * (dx * dy)
  }

  /** Pixel access by position. */
  function At(img: seq<real>, h: nat, w: nat, channels: nat, y: nat, x: nat, c: nat): real
    requires |img| == h * w * channels && y < h && x < w && c < channels
  {
    IndexInside(y, x, c, h, w, channels);
    img[Index(y, x, c, w, channels)]
  }

  function Sample(src: seq<real>, sh: nat, sw: nat, channels: nat, ty: Taps, tx: Taps, c: nat): real
    requires |src| == sh * sw * channels && c < channels
    requires ty.lo < sh && ty.hi < sh && tx.lo < sw && tx.hi < sw
  {
    Blend(At(src, sh, sw, channels, ty.lo, tx.lo, c), At(src, sh, sw, channels, ty.lo, tx.hi, c),
          At(src, sh, sw, channels, ty.hi, tx.lo, c), At(src, sh, sw, channels, ty.hi, tx.hi, c), tx.frac, ty.frac)
  }

  /** One sample of the resized image. */
  function ResizedAt(src: seq<real>, sh: nat, sw: nat, channels: nat, dh: nat, dw: nat, y: nat, x: nat, c: nat): real
    requires |src| == sh * sw * channels && sh > 0 && sw > 0 && dh > 0 && dw > 0 && c < channels
  {
    Sample(src, sh, sw, channels, TapsAt(Coord(y, sh, dh), sh), TapsAt(Coord(x, sw, dw), sw), c)
  }

  /** The resized image. */
  function Resized(src: seq<real>, sh: nat, sw: nat, channels: nat, dh: nat, dw: nat): (img: seq<real>)
    requires |src| == sh * sw * channels && sh > 0 && sw > 0 && dh > 0 && dw > 0 && channels > 0
    ensures |img| == dh * dw * channels
  {
    seq(dh * dw * channels, k requires 0 <= k < dh * dw * channels =>
      ResizedAt(src, sh, sw, channels, dh, dw, RowOf(k, dw, channels), ColumnOf(k, dw, channels), k % channels))
  }

  lemma ResizedPixel(src: seq<real>, sh: nat, sw: nat, channels: nat, dh: nat, dw: nat, y: nat, x: nat, c: nat)
    requires |src| == sh * sw * channels && sh > 0 && sw > 0 && y < dh && x < dw && c < channels
    ensures At(Resized(src, sh, sw, channels, dh, dw), dh, dw, channels, y, x, c) ==
      ResizedAt(src, sh, sw, channels, dh, dw, y, x, c)
  {
    hide ResizedAt, RowOf, ColumnOf;
    IndexInside(y, x, c, dh, dw, channels);
    IndexParts(y, x, c, dw, channels);
  }

  // ---- The loops ----

  /** bilinear_resize_impl<channels>: the output array is filled in order; nothing happens for an empty size. */
  method BilinearResize(channels: nat, src: seq<real>, sw: int, sh: int, dst: array<real>, dw: int, dh: int)
    requires channels > 0
    requires sw > 0 && sh > 0 && dw > 0 && dh > 0 ==> |src| == sh * sw * channels && dst.Length == dh * dw * channels
    modifies dst
    ensures sw > 0 && sh > 0 && dw > 0 && dh > 0 ==> dst[..] == Resized(src, sh, sw, channels, dh, dw)
    ensures !(sw > 0 && sh > 0 && dw > 0 && dh > 0) ==> dst[..] == old(dst[..])
  {
    hide Filled, Resized;
    if sw <= 0 || sh <= 0 || dw <= 0 || dh <= 0 {
      return;
    }
    NothingFilled(src, sh, sw, channels, dst[..], dh, dw);
    for y := 0 to dh
      invariant Filled(src, sh, sw, channels, dst[..], dh, dw, y * dw * channels)
    {
      ResizeRow(channels, src, sw, sh, dst, dw, dh, y);
      assert (y * dw + dw) * channels == (y + 1) * dw * channels;
    }
    FilledIsResized(src, sh, sw, channels, dst[..], dh, dw);
  }

  /** The source position of an output sample: floor, fraction and the two clamped neighbours. */
  method Neighbours(o: nat, s: nat, d: nat) returns (p: Taps)
    requires s > 0 && d > 0
    ensures p == TapsAt(Coord(o, s, d), s)
  {
    var scale := s as real / d as real;
    var t := (o as real + 0.5) * scale - 0.5;
    assert t == Coord(o, s, d);
    var t0 := t.Floor;
    p := Taps(Clamp(t0, 0, s - 1), Clamp(t0 + 1, 0, s - 1), t - t0 as real);
  }

  /** One output row: the vertical neighbours are fixed, the horizontal ones move. */
  method ResizeRow(channels: nat, src: seq<real>, sw: nat, sh: nat, dst: array<real>, dw: nat, dh: nat, y: nat)
    requires channels > 0 && sw > 0 && sh > 0 && dw > 0 && y < dh
    requires |src| == sh * sw * channels && dst.Length == dh * dw * channels
    requires Filled(src, sh, sw, channels, dst[..], dh, dw, y * dw * channels)
    modifies dst
    ensures Filled(src, sh, sw, channels, dst[..], dh, dw, (y * dw + dw) * channels)
  {
    hide Filled, Coord, TapsAt;
    var ty := Neighbours(y, sh, dh);
    for x := 0 to dw
      invariant Filled(src, sh, sw, channels, dst[..], dh, dw, (y * dw + x) * channels)
    {
      var tx := Neighbours(x, sw, dw);
      ResizePixel(channels, src, sw, sh, dst, dw, dh, y, x, ty, tx);
      assert (y * dw + x) * channels + channels == (y * dw + (x + 1)) * channels;
    }
  }

  /** The channel loop of one output pixel. */
  method ResizePixel(channels: nat, src: seq<real>, sw: nat, sh: nat, dst: array<real>, dw: nat, dh: nat,
                     y: nat, x: nat, ty: Taps, tx: Taps)
    requires channels > 0 && sw > 0 && sh > 0 && y < dh && x < dw
    requires |src| == sh * sw * channels && dst.Length == dh * dw * channels
    requires ty == TapsAt(Coord(y, sh, dh), sh) && tx == TapsAt(Coord(x, sw, dw), sw)
    requires Filled(src, sh, sw, channels, dst[..], dh, dw, Index(y, x, 0, dw, channels))
    modifies dst
    ensures Filled(src, sh, sw, channels, dst[..], dh, dw, Index(y, x, channels, dw, channels))
  {
    hide Filled, Blend, Coord, TapsAt;
    for c := 0 to channels
      invariant Filled(src, sh, sw, channels, dst[..], dh, dw, (y * dw + x) * channels + c)
    {
      IndexInside(ty.lo, tx.lo, c, sh, sw, channels);
      IndexInside(ty.lo, tx.hi, c, sh, sw, channels);
      IndexInside(ty.hi, tx.lo, c, sh, sw, channels);
      IndexInside(ty.hi, tx.hi, c, sh, sw, channels);
      IndexInside(y, x, c, dh, dw, channels);
      var v00, v01 := src[(ty.lo * sw + tx.lo) * channels + c], src[(ty.lo * sw + tx.hi) * channels + c];
      var v10, v11 := src[(ty.hi * sw + tx.lo) * channels + c], src[(ty.hi * sw + tx.hi) * channels + c];
      ghost var before := dst[..];
      var k := (y * dw + x) * channels + c;
      dst[k] := Blend(v00, v01, v10, v11, tx.frac, ty.frac);
      assert dst[..] == before[k := ResizedAt(src, sh, sw, channels, dh, dw, y, x, c)];
      FillOne(src, sh, sw, channels, before, dst[..], dh, dw, y, x, c);
    }
  }

  lemma NothingFilled(src: seq<real>, sh: nat, sw: nat, channels: nat, dst: seq<real>, dh: nat, dw: nat)
    requires |src| == sh * sw * channels && |dst| == dh * dw * channels
    requires sh > 0 && sw > 0 && dw > 0 && dh > 0 && channels > 0
    ensures Filled(src, sh, sw, channels, dst, dh, dw, 0)
  {
  }

  /** The first n entries of the output are done. */
  predicate Filled(src: seq<real>, sh: nat, sw: nat, channels: nat, dst: seq<real>, dh: nat, dw: nat, n: nat)
    requires |src| == sh * sw * channels && |dst| == dh * dw * channels
    requires sh > 0 && sw > 0 && dw > 0 && dh > 0 && channels > 0
  {
    n <= |dst| && forall k: nat :: k < n ==>
      dst[k] ==
      ResizedAt(src, sh, sw, channels, dh, dw, RowOf(k, dw, channels), ColumnOf(k, dw, channels), k % channels)
  }

  lemma FillOne(src: seq<real>, sh: nat, sw: nat, channels: nat, before: seq<real>, after: seq<real>, dh: nat, dw: nat,
                y: nat, x: nat, c: nat)
    requires |src| == sh * sw * channels && |before| == |after| == dh * dw * channels
    requires sh > 0 && sw > 0 && dw > 0 && dh > 0 && channels > 0
    requires y < dh && x < dw && c < channels
    requires var k := Index(y, x, c, dw, channels);
      && k < |before| && Filled(src, sh, sw, channels, before, dh, dw, k)
      && after == before[k := ResizedAt(src, sh, sw, channels, dh, dw, y, x, c)]
    ensures Filled(src, sh, sw, channels, after, dh, dw, Index(y, x, c, dw, channels) + 1)
  {
    hide ResizedAt, RowOf, ColumnOf;
    IndexParts(y, x, c, dw, channels);
  }

  lemma FilledIsResized(src: seq<real>, sh: nat, sw: nat, channels: nat, dst: seq<real>, dh: nat, dw: nat)
    requires |src| == sh * sw * channels && |dst| == dh * dw * channels
    requires sh > 0 && sw > 0 && dw > 0 && dh > 0 && channels > 0
    requires Filled(src, sh, sw, channels, dst, dh, dw, |dst|)
    ensures dst == Resized(src, sh, sw, channels, dh, dw)
  {
    hide ResizedAt, RowOf, ColumnOf;
  }

  // ---- Mirror images ----

  lemma ScaleBack(s: nat, d: nat)
    requires d > 0
    ensures d as real * (s as real / d as real) == s as real
  {
  }

  lemma CoordMirror(o: nat, s: nat, d: nat)
    requires o < d
    ensures Coord(d - 1 - o, s, d) == (s - 1) as real - Coord(o, s, d)
  {
    var q := s as real / d as real;
    ScaleBack(s, d);
    var a, b := o as real + 0.5, d as real;
    assert (d - 1 - o) as real + 0.5 == b - a;
    assert (b - a) * q == b * q - a * q;
  }

  lemma FloorMirror(t: real, n: int)
    ensures t == t.Floor as real ==> (n as real - t).Floor == n - t.Floor
    ensures t != t.Floor as real ==> (n as real - t).Floor == n - 1 - t.Floor
  {
  }

  /** The neighbours of the mirrored sample are the mirrored neighbours, with the weights exchanged. */
  lemma TapsMirror(o: nat, s: nat, d: nat)
    requires o < d && s > 0
    ensures
      var p, q := TapsAt(Coord(o, s, d), s), TapsAt(Coord(d - 1 - o, s, d), s);
      || (p.frac == 0.0 && q.frac == 0.0 && q.lo == s - 1 - p.lo)
      || (q.lo == s - 1 - p.hi && q.hi == s - 1 - p.lo && q.frac == 1.0 - p.frac)
  {
    hide Coord;
    CoordMirror(o, s, d);
    FloorMirror(Coord(o, s, d), s - 1);
  }

  /** m is img with its columns in the opposite order. */
  predicate MirrorX(img: seq<real>, m: seq<real>, h: nat, w: nat, channels: nat)
    requires |img| == |m| == h * w * channels
  {
    forall y: nat, x: nat, c: nat :: y < h && x < w && c < channels ==>
      At(m, h, w, channels, y, x, c) == At(img, h, w, channels, y, w - 1 - x, c)
  }

  predicate MirrorY(img: seq<real>, m: seq<real>, h: nat, w: nat, channels: nat)
    requires |img| == |m| == h * w * channels
  {
    forall y: nat, x: nat, c: nat :: y < h && x < w && c < channels ==>
      At(m, h, w, channels, y, x, c) == At(img, h, w, channels, h - 1 - y, x, c)
  }

  lemma BlendSwap(v00: real, v01: real, v10: real, v11: real, dx: real, dy: real)
    ensures Blend(v01, v00, v11, v10, 1.0 - dx, dy) == Blend(v00, v01, v10, v11, dx, dy)
    ensures Blend(v10, v11, v00, v01, dx, 1.0 - dy) == Blend(v00, v01, v10, v11, dx, dy)
    ensures dx == 0.0 ==> Blend(v00, v01, v10, v11, dx, dy) == Blend(v00, v00, v10, v10, 0.0, dy)
    ensures dy == 0.0 ==> Blend(v00, v01, v10, v11, dx, dy) == Blend(v00, v01, v00, v01, dx, 0.0)
  {
  }

  /** Resizing the mirror image is mirroring the resized image, left to right. */
  lemma ResizeMirrorX(src: seq<real>, msrc: seq<real>, sh: nat, sw: nat, channels: nat, dh: nat, dw: nat)
    requires |src| == |msrc| == sh * sw * channels && sh > 0 && sw > 0 && dh > 0 && dw > 0 && channels > 0
    requires MirrorX(src, msrc, sh, sw, channels)
    ensures MirrorX(Resized(src, sh, sw, channels, dh, dw), Resized(msrc, sh, sw, channels, dh, dw), dh, dw, channels)
  {
    hide Blend, Coord, TapsAt, At, Resized;
    var dst, mdst := Resized(src, sh, sw, channels, dh, dw), Resized(msrc, sh, sw, channels, dh, dw);
    forall y: nat, x: nat, c: nat | y < dh && x < dw && c < channels
      ensures At(mdst, dh, dw, channels, y, x, c) == At(dst, dh, dw, channels, y, dw - 1 - x, c)
    {
      ResizedPixel(src, sh, sw, channels, dh, dw, y, dw - 1 - x, c);
      ResizedPixel(msrc, sh, sw, channels, dh, dw, y, x, c);
      var ty := TapsAt(Coord(y, sh, dh), sh);
      var p, q := TapsAt(Coord(dw - 1 - x, sw, dw), sw), TapsAt(Coord(x, sw, dw), sw);
      TapsMirror(dw - 1 - x, sw, dw);
      assert At(msrc, sh, sw, channels, ty.lo, q.lo, c) == At(src, sh, sw, channels, ty.lo, sw - 1 - q.lo, c);
      assert At(msrc, sh, sw, channels, ty.lo, q.hi, c) == At(src, sh, sw, channels, ty.lo, sw - 1 - q.hi, c);
      assert At(msrc, sh, sw, channels, ty.hi, q.lo, c) == At(src, sh, sw, channels, ty.hi, sw - 1 - q.lo, c);
      assert At(msrc, sh, sw, channels, ty.hi, q.hi, c) == At(src, sh, sw, channels, ty.hi, sw - 1 - q.hi, c);
      BlendSwap(At(src, sh, sw, channels, ty.lo, p.lo, c), At(src, sh, sw, channels, ty.lo, p.hi, c),
                At(src, sh, sw, channels, ty.hi, p.lo, c), At(src, sh, sw, channels, ty.hi, p.hi, c), p.frac, ty.frac);
      BlendSwap(At(msrc, sh, sw, channels, ty.lo, q.lo, c), At(msrc, sh, sw, channels, ty.lo, q.hi, c),
                At(msrc, sh, sw, channels, ty.hi, q.lo, c), At(msrc, sh, sw, channels, ty.hi, q.hi, c),
                q.frac, ty.frac);
    }
  }

  /** And top to bottom. */
  lemma ResizeMirrorY(src: seq<real>, msrc: seq<real>, sh: nat, sw: nat, channels: nat, dh: nat, dw: nat)
    requires |src| == |msrc| == sh * sw * channels && sh > 0 && sw > 0 && dh > 0 && dw > 0 && channels > 0
    requires MirrorY(src, msrc, sh, sw, channels)
    ensures MirrorY(Resized(src, sh, sw, channels, dh, dw), Resized(msrc, sh, sw, channels, dh, dw), dh, dw, channels)
  {
    hide Blend, Coord, TapsAt, At, Resized;
    var dst, mdst := Resized(src, sh, sw, channels, dh, dw), Resized(msrc, sh, sw, channels, dh, dw);
    forall y: nat, x: nat, c: nat | y < dh && x < dw && c < channels
      ensures At(mdst, dh, dw, channels, y, x, c) == At(dst, dh, dw, channels, dh - 1 - y, x, c)
    {
      ResizedPixel(src, sh, sw, channels, dh, dw, dh - 1 - y, x, c);
      ResizedPixel(msrc, sh, sw, channels, dh, dw, y, x, c);
      var tx := TapsAt(Coord(x, sw, dw), sw);
      var p, q := TapsAt(Coord(dh - 1 - y, sh, dh), sh), TapsAt(Coord(y, sh, dh), sh);
      TapsMirror(dh - 1 - y, sh, dh);
      assert At(msrc, sh, sw, channels, q.lo, tx.lo, c) == At(src, sh, sw, channels, sh - 1 - q.lo, tx.lo, c);
      assert At(msrc, sh, sw, channels, q.lo, tx.hi, c) == At(src, sh, sw, channels, sh - 1 - q.lo, tx.hi, c);
      assert At(msrc, sh, sw, channels, q.hi, tx.lo, c) == At(src, sh, sw, channels, sh - 1 - q.hi, tx.lo, c);
      assert At(msrc, sh, sw, channels, q.hi, tx.hi, c) == At(src, sh, sw, channels, sh - 1 - q.hi, tx.hi, c);
      BlendSwap(At(src, sh, sw, channels, p.lo, tx.lo, c), At(src, sh, sw, channels, p.lo, tx.hi, c),
                At(src, sh, sw, channels, p.hi, tx.lo, c), At(src, sh, sw, channels, p.hi, tx.hi, c), tx.frac, p.frac);
      BlendSwap(At(msrc, sh, sw, channels, q.lo, tx.lo, c), At(msrc, sh, sw, channels, q.lo, tx.hi, c),
                At(msrc, sh, sw, channels, q.hi, tx.lo, c), At(msrc, sh, sw, channels, q.hi, tx.hi, c),
                tx.frac, q.frac);
    }
  }

  // ---- Identity and range ----

  lemma CoordIdentity(o: nat, s: nat)
    requires o < s
    ensures TapsAt(Coord(o, s, s), s).lo == o && TapsAt(Coord(o, s, s), s).frac == 0.0
  {
    assert s as real / s as real == 1.0;
    assert Coord(o, s, s) == o as real;
  }

  /** Resizing to the same size changes nothing. */
  lemma ResizeIdentity(src: seq<real>, h: nat, w: nat, channels: nat)
    requires |src| == h * w * channels && h > 0 && w > 0 && channels > 0
    ensures Resized(src, h, w, channels, h, w) == src
  {
    hide Coord, TapsAt, Index;
    forall k | 0 <= k < |src|
      ensures Resized(src, h, w, channels, h, w)[k] == src[k]
    {
      PartsIndex(k, h, w, channels);
      CoordIdentity(RowOf(k, w, channels), h);
      CoordIdentity(ColumnOf(k, w, channels), w);
    }
  }

  lemma ProductNonNegative(a: real, b: real)
    requires a >= 0.0 && b >= 0.0
    ensures a * b >= 0.0
  {
  }

  function Lerp(a: real, b: real, t: real): real {
    a * (1.0 - t) + b * t
  }

  lemma LerpBounds(a: real, b: real, t: real, lo: real, hi: real)
    requires 0.0 <= t <= 1.0 && lo <= a <= hi && lo <= b <= hi
    ensures lo <= Lerp(a, b, t) <= hi
  {
    ProductNonNegative(a - lo, 1.0 - t);
    ProductNonNegative(b - lo, t);
    ProductNonNegative(hi - a, 1.0 - t);
    ProductNonNegative(hi - b, t);
  }

  lemma BlendIsLerp(v00: real, v01: real, v10: real, v11: real, dx: real, dy: real)
    ensures Blend(v00, v01, v10, v11, dx, dy) == Lerp(Lerp(v00, v01, dx), Lerp(v10, v11, dx), dy)
  {
  }

  lemma BlendBounds(v00: real, v01: real, v10: real, v11: real, dx: real, dy: real, lo: real, hi: real)
    requires 0.0 <= dx <= 1.0 && 0.0 <= dy <= 1.0
    requires lo <= v00 <= hi && lo <= v01 <= hi && lo <= v10 <= hi && lo <= v11 <= hi
    ensures lo <= Blend(v00, v01, v10, v11, dx, dy) <= hi
  {
    hide Blend, Lerp;
    BlendIsLerp(v00, v01, v10, v11, dx, dy);
    LerpBounds(v00, v01, dx, lo, hi);
    LerpBounds(v10, v11, dx, lo, hi);
    LerpBounds(Lerp(v00, v01, dx), Lerp(v10, v11, dx), dy, lo, hi);
  }

  predicate ChannelWithin(img: seq<real>, h: nat, w: nat, channels: nat, c: nat, lo: real, hi: real)
    requires |img| == h * w * channels && c < channels
  {
    forall y: nat, x: nat :: y < h && x < w ==> lo <= At(img, h, w, channels, y, x, c) <= hi
  }

  /** Whatever bounds a source channel, its minimum and maximum among them, bounds the resized channel. */
  lemma ResizeKeepsBounds(src: seq<real>, sh: nat, sw: nat, channels: nat, dh: nat, dw: nat, c: nat, lo: real, hi: real)
    requires |src| == sh * sw * channels && sh > 0 && sw > 0 && dh > 0 && dw > 0 && c < channels
    requires ChannelWithin(src, sh, sw, channels, c, lo, hi)
    ensures ChannelWithin(Resized(src, sh, sw, channels, dh, dw), dh, dw, channels, c, lo, hi)
  {
    hide Blend, Coord, TapsAt, At, Resized;
    var dst := Resized(src, sh, sw, channels, dh, dw);
    forall y: nat, x: nat | y < dh && x < dw
      ensures lo <= At(dst, dh, dw, channels, y, x, c) <= hi
    {
      ResizedPixel(src, sh, sw, channels, dh, dw, y, x, c);
      var ty, tx := TapsAt(Coord(y, sh, dh), sh), TapsAt(Coord(x, sw, dw), sw);
      BlendBounds(At(src, sh, sw, channels, ty.lo, tx.lo, c), At(src, sh, sw, channels, ty.lo, tx.hi, c),
                  At(src, sh, sw, channels, ty.hi, tx.lo, c), At(src, sh, sw, channels, ty.hi, tx.hi, c),
                  tx.frac, ty.frac, lo, hi);
    }
  }

  // ---- Precision ----

  function ClampReal(v: real, lo: real, hi: real): real {
    if v < lo then lo else if v > hi then hi else v
  }

  /** The two taps, weighted, are the position itself, held at the borders. */
  lemma TapsArePosition(t: real, s: nat)
    requires s > 0
    ensures
      var p := TapsAt(t, s);
      Lerp(p.lo as real, p.hi as real, p.frac) == ClampReal(t, 0.0, (s - 1) as real)
  {
    var p := TapsAt(t, s);
    if 0 <= t.Floor < s - 1 {
      assert p.hi as real == p.lo as real + 1.0;
    } else {
      assert p.lo == p.hi;
    }
  }

  lemma LerpAffine(a: real, b: real, x0: real, x1: real, t: real)
    ensures Lerp(a * x0 + b, a * x1 + b, t) == a * Lerp(x0, x1, t) + b
  {
    assert (a * x0) * (1.0 - t) == a * (x0 * (1.0 - t)) && (a * x1) * t == a * (x1 * t);
  }

  function Surface(p: real, q: real, r: real, g: real, y: real, x: real): real {
    p * x + q * y + r * x * y + g
  }

  lemma SurfaceInX(p: real, q: real, r: real, g: real, y: real, x0: real, x1: real, t: real)
    ensures Lerp(Surface(p, q, r, g, y, x0), Surface(p, q, r, g, y, x1), t) == Surface(p, q, r, g, y, Lerp(x0, x1, t))
  {
    var a, b := p + r * y, q * y + g;
    assert forall x :: Surface(p, q, r, g, y, x) == a * x + b by { SurfaceByX(p, q, r, g, y); }
    hide Surface, Lerp;
    LerpAffine(a, b, x0, x1, t);
  }

  lemma SurfaceByX(p: real, q: real, r: real, g: real, y: real)
    ensures forall x :: Surface(p, q, r, g, y, x) == (p + r * y) * x + (q * y + g)
  {
    forall x
      ensures Surface(p, q, r, g, y, x) == (p + r * y) * x + (q * y + g)
    {
      assert (p + r * y) * x == p * x + r * y * x;
      assert r * y * x == r * x * y;
    }
  }

  lemma SurfaceInY(p: real, q: real, r: real, g: real, x: real, y0: real, y1: real, t: real)
    ensures Lerp(Surface(p, q, r, g, y0, x), Surface(p, q, r, g, y1, x), t) == Surface(p, q, r, g, Lerp(y0, y1, t), x)
  {
    hide Surface, Lerp;
    SurfaceSwaps(p, q, r, g, y0, x);
    SurfaceSwaps(p, q, r, g, y1, x);
    SurfaceSwaps(p, q, r, g, Lerp(y0, y1, t), x);
    SurfaceInX(q, p, r, g, x, y0, y1, t);
  }

  lemma SurfaceSwaps(p: real, q: real, r: real, g: real, y: real, x: real)
    ensures Surface(p, q, r, g, y, x) == Surface(q, p, r, g, x, y)
  {
    assert r * x * y == r * y * x;
  }

  lemma BlendOfSurface(p: real, q: real, r: real, g: real, y0: real, y1: real, x0: real, x1: real, dx: real, dy: real)
    ensures Blend(Surface(p, q, r, g, y0, x0), Surface(p, q, r, g, y0, x1),
                  Surface(p, q, r, g, y1, x0), Surface(p, q, r, g, y1, x1), dx, dy)
         == Surface(p, q, r, g, Lerp(y0, y1, dy), Lerp(x0, x1, dx))
  {
    BlendIsLerp(Surface(p, q, r, g, y0, x0), Surface(p, q, r, g, y0, x1),
                Surface(p, q, r, g, y1, x0), Surface(p, q, r, g, y1, x1), dx, dy);
    hide Blend, Lerp, Surface;
    SurfaceInX(p, q, r, g, y0, x0, x1, dx);
    SurfaceInX(p, q, r, g, y1, x0, x1, dx);
    SurfaceInY(p, q, r, g, Lerp(x0, x1, dx), y0, y1, dy);
  }

  /** Resizing is exact on every image whose channel is a surface p * x + q * y + r * x * y + g: each output sample is
      that surface at the source position of the sample's centre, held at the borders. */
  lemma ResizeIsExact(src: seq<real>, sh: nat, sw: nat, channels: nat, dh: nat, dw: nat, y: nat, x: nat, c: nat,
                      p: real, q: real, r: real, g: real)
    requires |src| == sh * sw * channels && sh > 0 && sw > 0 && y < dh && x < dw && c < channels
    requires forall i: nat, j: nat :: i < sh && j < sw ==>
        At(src, sh, sw, channels, i, j, c) == Surface(p, q, r, g, i as real, j as real)
    ensures
      var u := ClampReal((x as real + 0.5) * (sw as real / dw as real) - 0.5, 0.0, (sw - 1) as real);
      var v := ClampReal((y as real + 0.5) * (sh as real / dh as real) - 0.5, 0.0, (sh - 1) as real);
      At(Resized(src, sh, sw, channels, dh, dw), dh, dw, channels, y, x, c) == Surface(p, q, r, g, v, u)
  {
    hide Blend, TapsAt, At, Resized, Lerp, ClampReal, Surface;
    ResizedPixel(src, sh, sw, channels, dh, dw, y, x, c);
    var ty, tx := TapsAt(Coord(y, sh, dh), sh), TapsAt(Coord(x, sw, dw), sw);
    TapsArePosition(Coord(y, sh, dh), sh);
    TapsArePosition(Coord(x, sw, dw), sw);
    BlendOfSurface(p, q, r, g, ty.lo as real, ty.hi as real, tx.lo as real, tx.hi as real, tx.frac, ty.frac);
  }
}
