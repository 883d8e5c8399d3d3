/**
 inpaint_image around a network of fixed 512 by 512 input, over the reals: pad or downsample, transpose, run,
 transpose back, crop, upsample, and composite under the mask. The network is an arbitrary function.
 */
module Inpaint {
  import opened Bytes
  import opened Arithmetic
  import opened Resize

  const N := 512
  const NN := 262144

  /** The ONNX session: planar image and mask in, planar image out. */
  type Network = (seq<real>, seq<real>) -> seq<real>

  function Zeros(n: nat): (z: seq<real>)
    ensures |z| == n
  {
    seq(n, i => 0.0)
  }

  // ---- Pasting and cropping ----

  /** The image base with src pasted over its top left corner, as far as both reach. */
  function Placed(src: seq<real>, sh: nat, sw: nat, channels: nat, base: seq<real>, dh: nat, dw: nat): (img: seq<real>)
    requires channels > 0 && |src| == sh * sw * channels && |base| == dh * dw * channels
    ensures |img| == |base|
  {
    if dw == 0 then base
    else seq(|base|, k requires 0 <= k < |base| => PlacedAt(src, sh, sw, channels, base, dh, dw, k))
  }

  function PlacedAt(src: seq<real>, sh: nat, sw: nat, channels: nat, base: seq<real>, dh: nat, dw: nat, k: nat): real
    requires channels > 0 && |src| == sh * sw * channels && |base| == dh * dw * channels && dw > 0 && k < |base|
  {
    var y, x, c := RowOf(k, dw, channels), ColumnOf(k, dw, channels), k % channels;
    if y < sh && x < sw then At(src, sh, sw, channels, y, x, c) else base[k]
  }

  lemma PlacedPixel(src: seq<real>, sh: nat, sw: nat, channels: nat, base: seq<real>, dh: nat, dw: nat, y: nat, x: nat,
                    c: nat)
    requires channels > 0 && |src| == sh * sw * channels && |base| == dh * dw * channels
    requires y < dh && x < dw && c < channels
    ensures At(Placed(src, sh, sw, channels, base, dh, dw), dh, dw, channels, y, x, c) ==
      if y < sh && x < sw then At(src, sh, sw, channels, y, x, c) else At(base, dh, dw, channels, y, x, c)
  {
    hide RowOf, ColumnOf;
    IndexInside(y, x, c, dh, dw, channels);
    IndexParts(y, x, c, dw, channels);
  }

  function Min(a: nat, b: nat): nat {
    if a < b then a else b
  }

  /** memcpy of one row. */
  method CopyRow(src: seq<real>, from: nat, dst: array<real>, to: nat, count: nat)
    requires from + count <= |src| && to + count <= dst.Length
    modifies dst
    ensures forall k :: 0 <= k < dst.Length ==>
      dst[k] == if to <= k < to + count then src[from + (k - to)] else old(dst[k])
  {
    forall i | 0 <= i < count {
      dst[to + i] := src[from + i];
    }
  }

  /** copy_into_canvas_rgb and copy_into_canvas_mask, for three channels and one. */
  method CopyIntoCanvas(channels: nat, src: seq<real>, sw: nat, sh: nat, dst: array<real>, dw: nat, dh: nat)
    requires channels > 0 && |src| == sh * sw * channels && dst.Length == dh * dw * channels
    modifies dst
    ensures dst[..] == Placed(src, sh, sw, channels, old(dst[..]), dh, dw)
  {
    hide Placed, RowsPlaced;
    ghost var base := dst[..];
    var rows := Min(sh, dh);
    NoRowsPlaced(src, sh, sw, channels, base, dh, dw);
    for y := 0 to rows
      invariant RowsPlaced(src, sh, sw, channels, base, dst[..], dh, dw, y)
    {
      CopyCanvasRow(channels, src, sw, sh, dst, dw, dh, y, base);
    }
    AllRowsPlaced(src, sh, sw, channels, base, dst[..], dh, dw);
  }

  /** One turn of the loop. */
  method CopyCanvasRow(channels: nat, src: seq<real>, sw: nat, sh: nat, dst: array<real>, dw: nat, dh: nat, y: nat,
                       ghost base: seq<real>)
    requires channels > 0 && |src| == sh * sw * channels && |base| == dh * dw * channels && y < sh && y < dh
    requires RowsPlaced(src, sh, sw, channels, base, dst[..], dh, dw, y)
    modifies dst
    ensures RowsPlaced(src, sh, sw, channels, base, dst[..], dh, dw, y + 1)
  {
    SameCount(src, sh, sw, channels, base, dst[..], dh, dw, y);
    hide RowsPlaced;
    ghost var before := dst[..];
    RowFits(y, sh, sw, dh, dw, channels);
    var cols, from, to := Min(sw, dw) * channels, y * sw * channels, y * dw * channels;
    CopyRow(src, from, dst, to, cols);
    RowPlaced(src, sh, sw, channels, base, before, dst[..], dh, dw, y, from, to, cols);
  }

  lemma SameCount(src: seq<real>, sh: nat, sw: nat, channels: nat, base: seq<real>, img: seq<real>, dh: nat, dw: nat,
                  n: nat)
    requires channels > 0 && |src| == sh * sw * channels && |base| == dh * dw * channels
    requires RowsPlaced(src, sh, sw, channels, base, img, dh, dw, n)
    ensures |img| == dh * dw * channels
  {
  }

  lemma RowFits(y: nat, sh: nat, sw: nat, dh: nat, dw: nat, channels: nat)
    requires y < sh && y < dh
    ensures
      var cols, from, to := Min(sw, dw) * channels, y * sw * channels, y * dw * channels;
      && 0 <= cols && 0 <= from && 0 <= to
      && from + cols <= sh * sw * channels && to + cols <= dh * dw * channels
  {
    RowInside(y, sh, sw, channels, Min(sw, dw));
    RowInside(y, dh, dw, channels, Min(sw, dw));
    MulNatural(Min(sw, dw), channels);
    MulNatural(y, sw);
    MulNatural(y, dw);
    MulNatural(y * sw, channels);
    MulNatural(y * dw, channels);
  }

  /** The first n rows are as in the pasted image, the others as they were. */
  ghost predicate RowsPlaced(src: seq<real>, sh: nat, sw: nat, channels: nat, base: seq<real>, img: seq<real>, dh: nat,
                             dw: nat, n: nat)
    requires channels > 0 && |src| == sh * sw * channels && |base| == dh * dw * channels
  {
    && |img| == |base|
    && (dw > 0 ==> forall k: nat :: k < |img| ==>
         img[k] == if RowOf(k, dw, channels) < n then PlacedAt(src, sh, sw, channels, base, dh, dw, k) else base[k])
  }

  lemma Associate(a: nat, b: nat, c: nat)
    ensures a * b * c == a * (b * c)
  {
  }

  lemma RowInside(y: nat, h: nat, w: nat, channels: nat, m: nat)
    requires y < h && m <= w
    ensures y * w * channels + m * channels <= h * w * channels && m * channels <= w * channels
  {
    if m < w { MulMonotone(m, w, channels); }
    MulMonotone(y, h, w * channels);
    Associate(y, w, channels);
    Associate(h, w, channels);
  }

  /** A pixel's place within its row. */
  lemma IndexAsRow(y: nat, x: nat, c: nat, w: nat, channels: nat)
    requires x < w && c < channels
    ensures Index(y, x, c, w, channels) == y * (w * channels) + (x * channels + c)
    ensures x * channels + c < w * channels
  {
    Associate(y, w, channels);
    assert (y * w + x) * channels == y * w * channels + x * channels;
    MulMonotone(x, w, channels);
  }

  lemma RowsApart(y: nat, y': nat, stride: nat, off: nat, count: nat)
    requires off < stride && count <= stride
    ensures y' < y ==> y' * stride + off < y * stride
    ensures y' > y ==> y' * stride + off >= y * stride + count
  {
    if y' < y {
      MulMonotone(y', y, stride);
    } else if y' > y {
      MulMonotone(y, y', stride);
    }
  }

  lemma ColumnInside(x: nat, c: nat, m: nat, channels: nat)
    requires c < channels
    ensures x * channels + c < m * channels <==> x < m
  {
    if x < m {
      MulMonotone(x, m, channels);
    } else if m < x {
      MulMonotone(m, x, channels);
    }
  }

  lemma NoRowsPlaced(src: seq<real>, sh: nat, sw: nat, channels: nat, base: seq<real>, dh: nat, dw: nat)
    requires channels > 0 && |src| == sh * sw * channels && |base| == dh * dw * channels
    ensures RowsPlaced(src, sh, sw, channels, base, base, dh, dw, 0)
  {
  }

  /** Where pixel (y', x', c) lies relative to the copied stretch of row y. */
  lemma RowPosition(y: nat, y': nat, x': nat, c: nat, w: nat, channels: nat, m: nat)
    requires x' < w && c < channels && m <= w
    ensures
      var k, to := Index(y', x', c, w, channels), y * w * channels;
      && (y' < y ==> k < to)
      && (y' > y ==> k >= to + m * channels)
      && (y' == y ==> k - to == x' * channels + c && (k < to + m * channels <==> x' < m))
  {
    IndexAsRow(y', x', c, w, channels);
    Associate(y, w, channels);
    if m < w { MulMonotone(m, w, channels); }
    RowsApart(y, y', w * channels, x' * channels + c, m * channels);
    ColumnInside(x', c, m, channels);
  }

  lemma RowPlaced(src: seq<real>, sh: nat, sw: nat, channels: nat, base: seq<real>, before: seq<real>, after: seq<real>,
                  dh: nat, dw: nat, y: nat, from: nat, to: nat, count: nat)
    requires channels > 0 && |src| == sh * sw * channels && |base| == dh * dw * channels
    requires RowsPlaced(src, sh, sw, channels, base, before, dh, dw, y) && y < sh && y < dh
    requires from == y * sw * channels && to == y * dw * channels && count == Min(sw, dw) * channels
    requires |after| == |before| && from + count <= |src|
    requires forall k: nat :: k < |after| ==>
      after[k] == if to <= k < to + count then src[from + (k - to)] else before[k]
    ensures RowsPlaced(src, sh, sw, channels, base, after, dh, dw, y + 1)
  {
    if dw > 0 {
      hide Index, RowOf, ColumnOf;
      forall k: nat | k < |after|
        ensures after[k] ==
          if RowOf(k, dw, channels) < y + 1 then PlacedAt(src, sh, sw, channels, base, dh, dw, k) else base[k]
      {
        PartsIndex(k, dh, dw, channels);
        var y', x', c := RowOf(k, dw, channels), ColumnOf(k, dw, channels), k % channels;
        RowPosition(y, y', x', c, dw, channels, Min(sw, dw));
        if y' == y && x' < sw {
          IndexAsRow(y, x', c, sw, channels);
          Associate(y, sw, channels);
        }
      }
    }
  }

  lemma AllRowsPlaced(src: seq<real>, sh: nat, sw: nat, channels: nat, base: seq<real>, img: seq<real>, dh: nat,
                      dw: nat)
    requires channels > 0 && |src| == sh * sw * channels && |base| == dh * dw * channels
    requires RowsPlaced(src, sh, sw, channels, base, img, dh, dw, Min(sh, dh))
    ensures img == Placed(src, sh, sw, channels, base, dh, dw)
  {
    if dw > 0 {
      forall k: nat | k < |img|
        ensures img[k] == PlacedAt(src, sh, sw, channels, base, dh, dw, k)
      {
        PartsIndex(k, dh, dw, channels);
      }
    }
  }

  // ---- Compositing ----

  function Composite(base: seq<real>, inpainted: seq<real>, mask: seq<real>, threshold: real): (img: seq<real>)
    requires |base| == |inpainted| == 3 * |mask|
    ensures |img| == |base|
  {
    seq(|base|, k requires 0 <= k < |base| => if mask[k / 3] >= threshold then inpainted[k] else base[k])
  }

  method CompositeMasked(base: seq<real>, inpainted: seq<real>, mask: seq<real>, width: nat, height: nat,
                         threshold: real, dst: array<real>)
    requires |mask| == width * height && |base| == |inpainted| == dst.Length == 3 * |mask|
    modifies dst
    ensures dst[..] == Composite(base, inpainted, mask, threshold)
  {
    var n := width * height;
    for i := 0 to n
      invariant forall k :: 0 <= k < 3 * i ==> dst[k] == if mask[k / 3] >= threshold then inpainted[k] else base[k]
    {
      if mask[i] >= threshold {
        dst[i * 3 + 0] := inpainted[i * 3 + 0];
        dst[i * 3 + 1] := inpainted[i * 3 + 1];
        dst[i * 3 + 2] := inpainted[i * 3 + 2];
      } else {
        dst[i * 3 + 0] := base[i * 3 + 0];
        dst[i * 3 + 1] := base[i * 3 + 1];
        dst[i * 3 + 2] := base[i * 3 + 2];
      }
    }
  }

  // ---- LamaSession::run ----

  /** Interleaved to planar. */
  function Planar(hwc: seq<real>): (chw: seq<real>)
    requires |hwc| == 3 * NN
    ensures |chw| == 3 * NN
  {
    seq(3 * NN, k requires 0 <= k < 3 * NN => hwc[k % NN * 3 + k / NN])
  }

  /** Planar to interleaved, scaled from [0, 255] to [0, 1]. */
  function Interleaved(chw: seq<real>): (hwc: seq<real>)
    requires |chw| == 3 * NN
    ensures |hwc| == 3 * NN
  {
    seq(3 * NN, k requires 0 <= k < 3 * NN => chw[k % 3 * NN + k / 3] * (1.0 / 255.0))
  }

  /** What the session writes, or None when the network's output has the wrong shape. */
  function SessionOutput(net: Network, rgb: seq<real>, mask: seq<real>): (r: Option<seq<real>>)
    requires |rgb| == 3 * NN && |mask| == NN
    ensures r.Some? ==> |r.value| == 3 * NN
  {
    var chw := net(Planar(rgb), mask);
    if |chw| == 3 * NN then Some(Interleaved(chw)) else None
  }

  method SessionRun(net: Network, rgb: seq<real>, mask: seq<real>, rgbOut: array<real>) returns (ok: bool)
    requires |rgb| == 3 * NN && |mask| == NN && rgbOut.Length == 3 * NN
    modifies rgbOut
    ensures ok <==> SessionOutput(net, rgb, mask).Some?
    ensures ok ==> rgbOut[..] == SessionOutput(net, rgb, mask).value
    ensures !ok ==> rgbOut[..] == old(rgbOut[..])
  {
    var imgChw := Transpose(rgb);
    var outChw := net(imgChw, mask);
    if |outChw| != 3 * NN {
      return false;
    }
    Interleave(outChw, rgbOut);
    return true;
  }

  method Interleave(chw: seq<real>, rgbOut: array<real>)
    requires |chw| == 3 * NN && rgbOut.Length == 3 * NN
    modifies rgbOut
    ensures rgbOut[..] == Interleaved(chw)
  {
    for c := 0 to 3
      invariant forall k :: 0 <= k < 3 * NN && k % 3 < c ==> rgbOut[k] == Interleaved(chw)[k]
    {
      InterleaveChannel(chw, rgbOut, c);
    }
  }

  method InterleaveChannel(chw: seq<real>, rgbOut: array<real>, c: nat)
    requires |chw| == 3 * NN && rgbOut.Length == 3 * NN && c < 3
    modifies rgbOut
    ensures forall k :: 0 <= k < 3 * NN ==> rgbOut[k] == if k % 3 == c then Interleaved(chw)[k] else old(rgbOut[k])
  {
    for i := 0 to NN
      invariant forall k :: 0 <= k < 3 * NN ==>
        rgbOut[k] == if k % 3 == c && k / 3 < i then Interleaved(chw)[k] else old(rgbOut[k])
    {
      DivModUnique(i, 3, c);
      rgbOut[i * 3 + c] := chw[c * NN + i] * (1.0 / 255.0);
    }
  }

  method Transpose(rgb: seq<real>) returns (chw: seq<real>)
    requires |rgb| == 3 * NN
    ensures chw == Planar(rgb)
  {
    var imgChw := new real[3 * NN];
    for c := 0 to 3
      invariant forall k :: 0 <= k < c * NN ==> imgChw[k] == Planar(rgb)[k]
    {
      for i := 0 to NN
        invariant forall k :: 0 <= k < c * NN + i ==> imgChw[k] == Planar(rgb)[k]
      {
        imgChw[c * NN + i] := rgb[i * 3 + c];
        DivModUnique(c, NN, i);
      }
    }
    chw := imgChw[..];
  }

  /** The two transposes undo each other up to the output scale. */
  lemma TransposesCancel(rgb: seq<real>)
    requires |rgb| == 3 * NN
    ensures Interleaved(Planar(rgb)) == seq(3 * NN, k requires 0 <= k < 3 * NN => rgb[k] * (1.0 / 255.0))
  {
    forall k | 0 <= k < 3 * NN
      ensures Interleaved(Planar(rgb))[k] == rgb[k] * (1.0 / 255.0)
    {
      DivModUnique(k % 3, NN, k / 3);
      assert k / 3 * 3 + k % 3 == k;
    }
  }

  // ---- Sizes ----

  /** std::round of a non-negative number. */
  function Round(x: real): int {
    (x + 0.5).Floor
  }

  predicate NeedsResize(width: nat, height: nat) {
    width > N || height > N
  }

  /** The working size, as (width, height): the longer side becomes 512. */
  function ScaledSize(width: nat, height: nat): (int, int)
    requires width > 0 && height > 0
  {
    if !NeedsResize(width, height) then (width, height)
    else if width >= height then (N, Max(1, Round(height as real * N as real / width as real)))
    else (Max(1, Round(width as real * N as real / height as real)), N)
  }

  function Max(a: int, b: int): int {
    if a > b then a else b
  }

  lemma ShorterSide(short: nat, long: nat)
    requires 0 < short <= long && long > N
    ensures
      var exact := short as real * N as real / long as real;
      var scaled := Max(1, Round(exact));
      && 1 <= scaled <= N
      && (-0.5 <= scaled as real - exact <= 0.5 || (scaled == 1 && exact < 0.5))
  {
    var exact := short as real * N as real / long as real;
    assert exact * long as real == short as real * N as real;
    QuotientBounds(short as real, long as real, N as real, exact);
  }

  lemma QuotientBounds(short: real, long: real, n: real, exact: real)
    requires 0.0 < short <= long && n > 0.0 && exact * long == short * n
    ensures 0.0 < exact <= n
  {
    ProductNonNegative(long - short, n);
    if exact <= 0.0 {
      ProductNonNegative(-exact, long);
      ProductPositive(short, n);
    }
    if exact > n {
      ProductPositive(exact - n, long);
    }
  }

  lemma ProductPositive(a: real, b: real)
    requires a > 0.0 && b > 0.0
    ensures a * b > 0.0
  {
  }

  /** For every size the working size fits the canvas; when something is resized the longer side is exactly 512 and the
      shorter one within one half of the exact aspect, or 1. */
  lemma ScaledSizeFits(width: nat, height: nat)
    requires width > 0 && height > 0
    ensures
      var (sw, sh) := ScaledSize(width, height);
      && 1 <= sw <= N && 1 <= sh <= N
      && (NeedsResize(width, height) && width >= height ==>
            sw == N && (-0.5 <= sh as real - height as real * N as real / width as real <= 0.5
                        || (sh == 1 && height as real * N as real / width as real < 0.5)))
      && (NeedsResize(width, height) && width < height ==>
            sh == N && (-0.5 <= sw as real - width as real * N as real / height as real <= 0.5
                        || (sw == 1 && width as real * N as real / height as real < 0.5)))
  {
    if NeedsResize(width, height) {
      if width >= height {
        ShorterSide(height, width);
      } else {
        ShorterSide(width, height);
      }
    }
  }

  lemma SquareBound(a: nat, b: nat)
    requires a <= N && b <= N
    ensures a * b * 3 <= N * N * 3
  {
    if a < N { MulMonotone(a, N, b); }
  }

  /** Every flat index the loops form on the image, the resized image or the canvas is a C++ int. */
  lemma IndicesAreInts(width: nat, height: nat, y: nat, x: nat, c: nat)
    requires width > 0 && height > 0 && 3 * width * height < 0x8000_0000
    ensures y < height && x < width && c < 3 ==> Index(y, x, c, width, 3) < 0x8000_0000
    ensures var (sw, sh) := ScaledSize(width, height);
      1 <= sw && 1 <= sh && (y < sh && x < sw && c < 3 ==> Index(y, x, c, sw, 3) < 0x8000_0000)
    ensures y < N && x < N && c < 3 ==> Index(y, x, c, N, 3) < 0x8000_0000
  {
    hide ScaledSize, Index;
    ScaledSizeFits(width, height);
    var (sw, sh) := ScaledSize(width, height);
    if y < height && x < width && c < 3 {
      IndexInside(y, x, c, height, width, 3);
      assert height * width * 3 == 3 * width * height;
    }
    if y < sh && x < sw && c < 3 {
      IndexInside(y, x, c, sh, sw, 3);
      SquareBound(sh, sw);
    }
    if y < N && x < N && c < 3 {
      IndexInside(y, x, c, N, N, 3);
    }
  }

  // ---- inpaint_image ----

  /** The 512 by 512 input made of an image or mask. */
  function Canvas(src: seq<real>, h: nat, w: nat, channels: nat): (img: seq<real>)
    requires h > 0 && w > 0 && channels > 0 && |src| == h * w * channels
    ensures |img| == N * N * channels
  {
    var (sw, sh) := ScaledSize(w, h);
    ScaledSizeFits(w, h);
    var fitted := if NeedsResize(w, h) then Resized(src, h, w, channels, sh, sw) else src;
    Placed(fitted, sh, sw, channels, Zeros(N * N * channels), N, N)
  }

  /** The network's picture at the original size. */
  function Fill(out: seq<real>, h: nat, w: nat): (img: seq<real>)
    requires h > 0 && w > 0 && |out| == N * N * 3
    ensures |img| == h * w * 3
  {
    var (sw, sh) := ScaledSize(w, h);
    ScaledSizeFits(w, h);
    var crop := Placed(out, N, N, 3, Zeros(sh * sw * 3), sh, sw);
    if NeedsResize(w, h) then Resized(crop, sh, sw, 3, h, w) else crop
  }

  function Inpainted(net: Network, rgb: seq<real>, mask: seq<real>, h: nat, w: nat): (r: Option<seq<real>>)
    requires h > 0 && w > 0 && |rgb| == h * w * 3 && |mask| == h * w
    ensures r.Some? ==> |r.value| == |rgb|
  {
    assert h * w * 1 == h * w;
    match SessionOutput(net, Canvas(rgb, h, w, 3), Canvas(mask, h, w, 1))
    case None => None
    case Some(out) => Some(Composite(rgb, Fill(out, h, w), mask, 0.5))
  }

  datatype Ending = Finished | NullPointer | BadSize | Cancelled | BadShape

  predicate Continues(progress: Option<real -> bool>, f: real) {
    progress.Some? ==> progress.value(f)
  }

  /** How a call ends. */
  function EndingOf(net: Network, rgb: Option<seq<real>>, mask: Option<seq<real>>, w: int, h: int, hasOut: bool,
                    progress: Option<real -> bool>): Ending
    requires rgb.Some? && mask.Some? && w > 0 && h > 0 ==> |rgb.value| == h * w * 3 && |mask.value| == h * w
  {
    if rgb.None? || mask.None? || !hasOut then NullPointer
    else if w <= 0 || h <= 0 then BadSize
    else if !Continues(progress, 0.0) || !Continues(progress, 0.2) then Cancelled
    else if Inpainted(net, rgb.value, mask.value, h, w).None? then BadShape
    else if !Continues(progress, 0.8) || !Continues(progress, 1.0) then Cancelled
    else Finished
  }

  /** The output holds the result when the call finishes, and also when only the last progress report cancels it. */
  method InpaintImage(net: Network, rgb: Option<seq<real>>, mask: Option<seq<real>>, width: int, height: int,
                      rgbOut: array?<real>, progress: Option<real -> bool>)
    returns (e: Ending)
    requires rgb.Some? && mask.Some? && rgbOut != null && width > 0 && height > 0 ==>
      |rgb.value| == rgbOut.Length == height * width * 3 && |mask.value| == height * width
    requires rgb.Some? && mask.Some? && width > 0 && height > 0 ==>
      |rgb.value| == height * width * 3 && |mask.value| == height * width
    modifies rgbOut
    ensures e == EndingOf(net, rgb, mask, width, height, rgbOut != null, progress)
    ensures e.Finished? ==> rgbOut[..] == Inpainted(net, rgb.value, mask.value, height, width).value
    ensures !e.Finished? && rgbOut != null ==>
      rgbOut[..] == old(rgbOut[..])
      || (e.Cancelled? && Inpainted(net, rgb.value, mask.value, height, width) == Some(rgbOut[..]))
  {
    hide Canvas, Fill, SessionOutput, Composite;
    if rgb.None? || mask.None? || rgbOut == null {
      return NullPointer;
    }
    if width <= 0 || height <= 0 {
      return BadSize;
    }
    if !Continues(progress, 0.0) {
      return Cancelled;
    }
    assert height * width * 1 == height * width;
    var img512 := MakeCanvas(rgb.value, height, width, 3);
    var msk512 := MakeCanvas(mask.value, height, width, 1);
    if !Continues(progress, 0.2) {
      return Cancelled;
    }
    var out512 := new real[3 * NN](i => 0.0);
    var ok := SessionRun(net, img512[..], msk512[..], out512);
    if !ok {
      return BadShape;
    }
    if !Continues(progress, 0.8) {
      return Cancelled;
    }
    var picture := MakeFill(out512[..], height, width);
    CompositeMasked(rgb.value, picture, mask.value, width, height, 0.5, rgbOut);
    if !Continues(progress, 1.0) {
      return Cancelled;
    }
    return Finished;
  }

  /** Downsampling when needed, and pasting into the zeroed canvas. */
  method MakeCanvas(src: seq<real>, h: nat, w: nat, channels: nat) returns (canvas: array<real>)
    requires h > 0 && w > 0 && channels > 0 && |src| == h * w * channels
    ensures fresh(canvas) && canvas.Length == N * N * channels && canvas[..] == Canvas(src, h, w, channels)
  {
    hide Placed, Resized, ScaledSize;
    ScaledSizeFits(w, h);
    var (sw, sh) := ScaledSize(w, h);
    canvas := new real[N * N * channels](i => 0.0);
    assert canvas[..] == Zeros(N * N * channels);
    if NeedsResize(w, h) {
      MulNatural(sh, sw);
      MulNatural(sh * sw, channels);
      var tmp := new real[sh * sw * channels];
      BilinearResize(channels, src, w, h, tmp, sw, sh);
      CopyIntoCanvas(channels, tmp[..], sw, sh, canvas, N, N);
    } else {
      SameSize(w, h);
      CopyIntoCanvas(channels, src, w, h, canvas, N, N);
    }
  }

  lemma SameSize(w: nat, h: nat)
    requires w > 0 && h > 0 && !NeedsResize(w, h)
    ensures ScaledSize(w, h) == (w, h)
  {
  }

  /** Cropping the active region, and upsampling it back when needed. */
  method MakeFill(out: seq<real>, h: nat, w: nat) returns (img: seq<real>)
    requires h > 0 && w > 0 && |out| == N * N * 3
    ensures img == Fill(out, h, w)
  {
    hide Placed, Resized, ScaledSize;
    ScaledSizeFits(w, h);
    var (sw, sh) := ScaledSize(w, h);
    MulNatural(sh, sw);
    MulNatural(sh * sw, 3);
    var crop := new real[sh * sw * 3](i => 0.0);
    assert crop[..] == Zeros(sh * sw * 3);
    CopyIntoCanvas(3, out, N, N, crop, sw, sh);
    if NeedsResize(w, h) {
      MulNatural(h, w);
      var upsampled := new real[h * w * 3];
      BilinearResize(3, crop[..], sw, sh, upsampled, w, h);
      img := upsampled[..];
    } else {
      img := crop[..];
      SameSize(w, h);
    }
  }

  // ---- What inpainting does to a pixel ----

  /** A canvas pixel is the source's own pixel (small images), the resampled one (large images), or zero outside. */
  lemma CanvasPixel(src: seq<real>, h: nat, w: nat, channels: nat, y: nat, x: nat, c: nat)
    requires h > 0 && w > 0 && channels > 0 && |src| == h * w * channels
    requires y < N && x < N && c < channels
    ensures
      var (sw, sh) := ScaledSize(w, h);
      At(Canvas(src, h, w, channels), N, N, channels, y, x, c) ==
        if y >= sh || x >= sw then 0.0
        else if NeedsResize(w, h) then ResizedAt(src, h, w, channels, sh, sw, y, x, c)
        else At(src, h, w, channels, y, x, c)
  {
    hide Placed, Resized, ResizedAt, ScaledSize, Index;
    var (sw, sh) := ScaledSize(w, h);
    ScaledSizeFits(w, h);
    var fitted := if NeedsResize(w, h) then Resized(src, h, w, channels, sh, sw) else src;
    if !NeedsResize(w, h) { SameSize(w, h); }
    IndexInside(y, x, c, N, N, channels);
    PlacedPixel(fitted, sh, sw, channels, Zeros(N * N * channels), N, N, y, x, c);
    if NeedsResize(w, h) && y < sh && x < sw {
      ResizedPixel(src, h, w, channels, sh, sw, y, x, c);
    }
  }

  /** The active region of the network's picture. */
  function Crop(out: seq<real>, h: nat, w: nat): (img: seq<real>)
    requires h > 0 && w > 0 && |out| == N * N * 3
    ensures var (sw, sh) := ScaledSize(w, h); sw > 0 && sh > 0 && |img| == sh * sw * 3
  {
    var (sw, sh) := ScaledSize(w, h);
    ScaledSizeFits(w, h);
    Placed(out, N, N, 3, Zeros(sh * sw * 3), sh, sw)
  }

  /** The crop shows the network's pixel at its own coordinate. */
  lemma CropPixel(out: seq<real>, h: nat, w: nat, y: nat, x: nat, c: nat)
    requires h > 0 && w > 0 && |out| == N * N * 3 && c < 3
    requires var (sw, sh) := ScaledSize(w, h); y < sh && x < sw
    ensures var (sw, sh) := ScaledSize(w, h);
      y < N && x < N && At(Crop(out, h, w), sh, sw, 3, y, x, c) == At(out, N, N, 3, y, x, c)
  {
    hide Placed, ScaledSize, Index;
    var (sw, sh) := ScaledSize(w, h);
    ScaledSizeFits(w, h);
    PlacedPixel(out, N, N, 3, Zeros(sh * sw * 3), sh, sw, y, x, c);
  }

  lemma CompositePixel(base: seq<real>, inpainted: seq<real>, mask: seq<real>, h: nat, w: nat, y: nat, x: nat, c: nat)
    requires |base| == |inpainted| == h * w * 3 && |mask| == h * w && y < h && x < w && c < 3
    ensures y * w + x < |mask|
    ensures At(Composite(base, inpainted, mask, 0.5), h, w, 3, y, x, c) ==
      if mask[y * w + x] < 0.5 then At(base, h, w, 3, y, x, c) else At(inpainted, h, w, 3, y, x, c)
  {
    IndexInside(y, x, c, h, w, 3);
    DivModUnique(y * w + x, 3, c);
  }

  /** For every size, network and mask: a pixel with mask below 0.5 is the source pixel; any other is the network's
      pixel at the same coordinate when the image fits, and the resampled crop at it when it does not. */
  lemma InpaintedPixel(net: Network, rgb: seq<real>, mask: seq<real>, h: nat, w: nat, y: nat, x: nat, c: nat)
    requires |rgb| == h * w * 3 && |mask| == h * w && y < h && x < w && c < 3
    requires Inpainted(net, rgb, mask, h, w).Some?
    ensures |mask| == h * w * 1
    ensures
      var img := Inpainted(net, rgb, mask, h, w).value;
      var out := SessionOutput(net, Canvas(rgb, h, w, 3), Canvas(mask, h, w, 1)).value;
      var (sw, sh) := ScaledSize(w, h);
      && y * w + x < |mask|
      && (mask[y * w + x] < 0.5 ==> At(img, h, w, 3, y, x, c) == At(rgb, h, w, 3, y, x, c))
      && (mask[y * w + x] >= 0.5 && !NeedsResize(w, h) ==>
            y < N && x < N && At(img, h, w, 3, y, x, c) == At(out, N, N, 3, y, x, c))
      && (mask[y * w + x] >= 0.5 && NeedsResize(w, h) ==>
            At(img, h, w, 3, y, x, c) == ResizedAt(Crop(out, h, w), sh, sw, 3, h, w, y, x, c))
  {
    hide Placed, Resized, ResizedAt, ScaledSize, Index, Canvas, SessionOutput, Composite;
    assert h * w * 1 == h * w;
    var out := SessionOutput(net, Canvas(rgb, h, w, 3), Canvas(mask, h, w, 1)).value;
    var fill := Fill(out, h, w);
    CompositePixel(rgb, fill, mask, h, w, y, x, c);
    var (sw, sh) := ScaledSize(w, h);
    ScaledSizeFits(w, h);
    if NeedsResize(w, h) {
      ResizedPixel(Crop(out, h, w), sh, sw, 3, h, w, y, x, c);
    } else {
      SameSize(w, h);
      CropPixel(out, h, w, y, x, c);
    }
  }

  /** Given buffers and a size, a call finishes exactly when the network's picture has the right shape and each of the
      four progress reports, at 0, 0.2, 0.8 and 1, lets it go on. */
  lemma FinishesIff(net: Network, rgb: seq<real>, mask: seq<real>, w: int, h: int, progress: real -> bool)
    requires w > 0 && h > 0 ==> |rgb| == h * w * 3 && |mask| == h * w
    ensures EndingOf(net, Some(rgb), Some(mask), w, h, true, Some(progress)).Finished? <==>
      && w > 0 && h > 0 && Inpainted(net, rgb, mask, h, w).Some?
      && forall i :: 0 <= i < 4 ==> progress([0.0, 0.2, 0.8, 1.0][i])
    ensures w > 0 && h > 0 ==>
      (EndingOf(net, Some(rgb), Some(mask), w, h, true, None).Finished? <==> Inpainted(net, rgb, mask, h, w).Some?)
  {
    hide Inpainted;
    var at := [0.0, 0.2, 0.8, 1.0];
    assert at[0] == 0.0 && at[1] == 0.2 && at[2] == 0.8 && at[3] == 1.0;
  }

  // ---- What goes into the network and what comes out ----

  /** Row y, column x of plane c. */
  function PlaneIndex(c: nat, y: nat, x: nat): (k: nat)
    requires c < 3 && y < N && x < N
    ensures k < 3 * NN && k % NN == y * N + x && k / NN == c
  {
    DivModUnique(c, NN, y * N + x);
    c * NN + y * N + x
  }

  lemma PlanarAt(hwc: seq<real>, c: nat, y: nat, x: nat)
    requires |hwc| == 3 * NN && c < 3 && y < N && x < N
    ensures Planar(hwc)[PlaneIndex(c, y, x)] == At(hwc, N, N, 3, y, x, c)
  {
  }

  lemma InterleavedAt(chw: seq<real>, c: nat, y: nat, x: nat)
    requires |chw| == 3 * NN && c < 3 && y < N && x < N
    ensures At(Interleaved(chw), N, N, 3, y, x, c) == chw[PlaneIndex(c, y, x)] * (1.0 / 255.0)
  {
    var k := (y * N + x) * 3 + c;
    DivModUnique(y * N + x, 3, c);
    assert Index(y, x, c, N, 3) == k < 3 * NN;
    assert k % 3 * NN + k / 3 == PlaneIndex(c, y, x);
  }

  /** What the fitted image or mask holds at a place of the 512 by 512 input. */
  function Fitted(src: seq<real>, h: nat, w: nat, channels: nat, y: nat, x: nat, c: nat): real
    requires h > 0 && w > 0 && channels > 0 && |src| == h * w * channels && c < channels
  {
    var (sw, sh) := ScaledSize(w, h);
    ScaledSizeFits(w, h);
    if y >= sh || x >= sw then 0.0
    else if NeedsResize(w, h) then ResizedAt(src, h, w, channels, sh, sw, y, x, c)
    else
      SameSize(w, h);
      At(src, h, w, channels, y, x, c)
  }

  /** The first argument of the network holds at plane c, row y, column x the fitted image's sample, the second at row
      y, column x the fitted mask's, both zero outside. */
  predicate Arguments(rgb: seq<real>, mask: seq<real>, h: nat, w: nat, img: seq<real>, msk: seq<real>)
    requires h > 0 && w > 0 && |rgb| == h * w * 3 && |mask| == h * w * 1
  {
    && |img| == 3 * NN && |msk| == NN
    && (forall c: nat, y: nat, x: nat :: c < 3 && y < N && x < N ==>
          img[PlaneIndex(c, y, x)] == Fitted(rgb, h, w, 3, y, x, c))
    && (forall y: nat, x: nat :: y < N && x < N ==> msk[PlaneIndex(0, y, x)] == Fitted(mask, h, w, 1, y, x, 0))
  }

  lemma ArgumentsOf(rgb: seq<real>, mask: seq<real>, h: nat, w: nat)
    requires h > 0 && w > 0 && |rgb| == h * w * 3 && |mask| == h * w * 1
    ensures Arguments(rgb, mask, h, w, Planar(Canvas(rgb, h, w, 3)), Canvas(mask, h, w, 1))
  {
    hide Canvas, Planar, ScaledSize, ResizedAt;
    forall c: nat, y: nat, x: nat | c < 3 && y < N && x < N
      ensures Planar(Canvas(rgb, h, w, 3))[PlaneIndex(c, y, x)] == Fitted(rgb, h, w, 3, y, x, c)
    {
      PlanarAt(Canvas(rgb, h, w, 3), c, y, x);
      CanvasPixel(rgb, h, w, 3, y, x, c);
    }
    forall y: nat, x: nat | y < N && x < N
      ensures Canvas(mask, h, w, 1)[PlaneIndex(0, y, x)] == Fitted(mask, h, w, 1, y, x, 0)
    {
      CanvasPixel(mask, h, w, 1, y, x, 0);
      assert Index(y, x, 0, N, 1) == PlaneIndex(0, y, x);
    }
  }

  /** The picture over the active region of the network's output. */
  predicate IsRegion(chw: seq<real>, h: nat, w: nat, region: seq<real>)
    requires h > 0 && w > 0 && |chw| == 3 * NN
  {
    var (sw, sh) := ScaledSize(w, h);
    && 0 < sw <= N && 0 < sh <= N && |region| == sh * sw * 3
    && forall y: nat, x: nat, c: nat :: y < sh && x < sw && c < 3 ==>
         At(region, sh, sw, 3, y, x, c) == chw[PlaneIndex(c, y, x)] * (1.0 / 255.0)
  }

  lemma RegionOf(chw: seq<real>, h: nat, w: nat)
    requires h > 0 && w > 0 && |chw| == 3 * NN
    ensures IsRegion(chw, h, w, Crop(Interleaved(chw), h, w))
  {
    hide Interleaved, ScaledSize, Index, Placed;
    var (sw, sh) := ScaledSize(w, h);
    ScaledSizeFits(w, h);
    forall y: nat, x: nat, c: nat | y < sh && x < sw && c < 3
      ensures At(Crop(Interleaved(chw), h, w), sh, sw, 3, y, x, c) == chw[PlaneIndex(c, y, x)] * (1.0 / 255.0)
    {
      CropPixel(Interleaved(chw), h, w, y, x, c);
      InterleavedAt(chw, c, y, x);
    }
  }

  /** A sample of the result: the source's where the mask is below 0.5; otherwise the region's at the same place, or the
      region resized to the image. */
  predicate Shows(rgb: seq<real>, mask: seq<real>, h: nat, w: nat, region: seq<real>, result: seq<real>,
                  y: nat, x: nat, c: nat)
    requires h > 0 && w > 0 && |rgb| == |result| == h * w * 3 && |mask| == h * w && y < h && x < w && c < 3
    requires var (sw, sh) := ScaledSize(w, h); 0 < sw && 0 < sh && |region| == sh * sw * 3
  {
    var (sw, sh) := ScaledSize(w, h);
    IndexInside(y, x, c, h, w, 3);
    At(result, h, w, 3, y, x, c) ==
      if mask[y * w + x] < 0.5 then At(rgb, h, w, 3, y, x, c)
      else if NeedsResize(w, h) then ResizedAt(region, sh, sw, 3, h, w, y, x, c)
      else
        SameSize(w, h);
        At(region, sh, sw, 3, y, x, c)
  }

  lemma ShowsAt(net: Network, rgb: seq<real>, mask: seq<real>, h: nat, w: nat, y: nat, x: nat, c: nat)
    requires h > 0 && w > 0 && |rgb| == h * w * 3 && |mask| == h * w && y < h && x < w && c < 3
    requires Inpainted(net, rgb, mask, h, w).Some?
    ensures |mask| == h * w * 1
    ensures
      var out := SessionOutput(net, Canvas(rgb, h, w, 3), Canvas(mask, h, w, 1)).value;
      Shows(rgb, mask, h, w, Crop(out, h, w), Inpainted(net, rgb, mask, h, w).value, y, x, c)
  {
    hide Canvas, SessionOutput, Composite, ScaledSize, ResizedAt, Placed, Index;
    assert h * w * 1 == h * w;
    InpaintedPixel(net, rgb, mask, h, w, y, x, c);
    if !NeedsResize(w, h) {
      SameSize(w, h);
      CropPixel(SessionOutput(net, Canvas(rgb, h, w, 3), Canvas(mask, h, w, 1)).value, h, w, y, x, c);
    }
  }

  predicate IsResult(rgb: seq<real>, mask: seq<real>, h: nat, w: nat, region: seq<real>, result: seq<real>)
    requires h > 0 && w > 0 && |rgb| == h * w * 3 && |mask| == h * w
  {
    var (sw, sh) := ScaledSize(w, h);
    && 0 < sw && 0 < sh && |region| == sh * sw * 3 && |result| == |rgb|
    && forall y: nat, x: nat, c: nat :: y < h && x < w && c < 3 ==> Shows(rgb, mask, h, w, region, result, y, x, c)
  }

  lemma ResultOf(net: Network, rgb: seq<real>, mask: seq<real>, h: nat, w: nat)
    requires h > 0 && w > 0 && |rgb| == h * w * 3 && |mask| == h * w && Inpainted(net, rgb, mask, h, w).Some?
    ensures |mask| == h * w * 1
    ensures
      var out := SessionOutput(net, Canvas(rgb, h, w, 3), Canvas(mask, h, w, 1)).value;
      IsResult(rgb, mask, h, w, Crop(out, h, w), Inpainted(net, rgb, mask, h, w).value)
  {
    hide Canvas, SessionOutput, Composite, Fill, Crop, Shows;
    assert h * w * 1 == h * w;
    ScaledSizeFits(w, h);
    forall y: nat, x: nat, c: nat | y < h && x < w && c < 3
      ensures
        var out := SessionOutput(net, Canvas(rgb, h, w, 3), Canvas(mask, h, w, 1)).value;
        Shows(rgb, mask, h, w, Crop(out, h, w), Inpainted(net, rgb, mask, h, w).value, y, x, c)
    {
      ShowsAt(net, rgb, mask, h, w, y, x, c);
    }
  }

  /** The whole of inpaint_image by its indices, for every network: what it is given, when its output is accepted, and
      what every sample of the result is. */
  lemma InpaintedByIndex(net: Network, rgb: seq<real>, mask: seq<real>, h: nat, w: nat)
    returns (img: seq<real>, msk: seq<real>, region: seq<real>)
    requires h > 0 && w > 0 && |rgb| == h * w * 3 && |mask| == h * w
    ensures |mask| == h * w * 1 && Arguments(rgb, mask, h, w, img, msk)
    ensures Inpainted(net, rgb, mask, h, w).Some? <==> |net(img, msk)| == 3 * NN
    ensures Inpainted(net, rgb, mask, h, w).Some? ==>
      && IsRegion(net(img, msk), h, w, region)
      && IsResult(rgb, mask, h, w, region, Inpainted(net, rgb, mask, h, w).value)
  {
    hide Canvas, Planar, Interleaved, Composite, Fill, Crop, Arguments, IsRegion, IsResult;
    assert h * w * 1 == h * w;
    ArgumentsOf(rgb, mask, h, w);
    img, msk, region := Planar(Canvas(rgb, h, w, 3)), Canvas(mask, h, w, 1), [];
    if |net(img, msk)| == 3 * NN {
      region := Crop(Interleaved(net(img, msk)), h, w);
      RegionOf(net(img, msk), h, w);
      ResultOf(net, rgb, mask, h, w);
    }
  }

  // ---- A network that shows its mask ----

  /** 255 times the mask in each of the three planes. */
  ghost predicate ShowsItsMask(net: Network) {
    forall img, msk :: |img| == 3 * NN && |msk| == NN ==>
      && |net(img, msk)| == 3 * NN
      && forall c: nat, y: nat, x: nat :: c < 3 && y < N && x < N ==>
           net(img, msk)[PlaneIndex(c, y, x)] == msk[PlaneIndex(0, y, x)] * 255.0
  }

  /** With it the result shows, where the mask is at least 0.5, the mask itself in all three channels, and for a larger
      image the mask resampled down and up again. */
  lemma MaskIsShown(net: Network, rgb: seq<real>, mask: seq<real>, h: nat, w: nat) returns (region: seq<real>)
    requires h > 0 && w > 0 && |rgb| == h * w * 3 && |mask| == h * w && ShowsItsMask(net)
    ensures |mask| == h * w * 1 && Inpainted(net, rgb, mask, h, w).Some?
    ensures IsResult(rgb, mask, h, w, region, Inpainted(net, rgb, mask, h, w).value)
    ensures
      var (sw, sh) := ScaledSize(w, h);
      forall y: nat, x: nat, c: nat :: y < sh && x < sw && c < 3 ==>
        At(region, sh, sw, 3, y, x, c) == Fitted(mask, h, w, 1, y, x, 0)
  {
    var img, msk;
    img, msk, region := InpaintedByIndex(net, rgb, mask, h, w);
    hide Inpainted, IsResult, Fitted, At, ScaledSize, PlaneIndex;
    var (sw, sh) := ScaledSize(w, h);
    forall y: nat, x: nat, c: nat | y < sh && x < sw && c < 3
      ensures At(region, sh, sw, 3, y, x, c) == Fitted(mask, h, w, 1, y, x, 0)
    {
      assert net(img, msk)[PlaneIndex(c, y, x)] == msk[PlaneIndex(0, y, x)] * 255.0;
    }
  }

  /** So in an image that fits, such a pixel shows its own mask value. */
  lemma MaskIsShownInPlace(net: Network, rgb: seq<real>, mask: seq<real>, h: nat, w: nat, y: nat, x: nat, c: nat)
    requires 0 < h <= N && 0 < w <= N && |rgb| == h * w * 3 && |mask| == h * w && ShowsItsMask(net)
    requires y < h && x < w && c < 3
    ensures Inpainted(net, rgb, mask, h, w).Some? && y * w + x < |mask|
    ensures mask[y * w + x] >= 0.5 ==>
      At(Inpainted(net, rgb, mask, h, w).value, h, w, 3, y, x, c) == mask[y * w + x]
  {
    hide Inpainted, ShowsItsMask, ScaledSize, ResizedAt;
    SameSize(w, h);
    var region := MaskIsShown(net, rgb, mask, h, w);
    IndexInside(y, x, c, h, w, 3);
    assert Shows(rgb, mask, h, w, region, Inpainted(net, rgb, mask, h, w).value, y, x, c);
    assert At(region, h, w, 3, y, x, c) == Fitted(mask, h, w, 1, y, x, 0);
    assert At(mask, h, w, 1, y, x, 0) == mask[y * w + x];
  }

  // ---- A network that changes nothing ----

  function Scaled(img: seq<real>): (r: seq<real>)
    ensures |r| == |img|
  {
    seq(|img|, i requires 0 <= i < |img| => img[i] * 255.0)
  }

  ghost predicate ReturnsItsInput(net: Network) {
    forall img, mask :: |img| == 3 * NN ==> net(img, mask) == Scaled(img)
  }

  lemma SessionPassesThrough(net: Network, rgb: seq<real>, mask: seq<real>)
    requires ReturnsItsInput(net) && |rgb| == 3 * NN && |mask| == NN
    ensures SessionOutput(net, rgb, mask) == Some(rgb)
  {
    var out := Scaled(Planar(rgb));
    TransposesCancel(rgb);
    forall k | 0 <= k < 3 * NN
      ensures Interleaved(out)[k] == rgb[k]
    {
      var p := k % 3 * NN + k / 3;
      assert Interleaved(Planar(rgb))[k] == Planar(rgb)[p] * (1.0 / 255.0);
      assert out[p] * (1.0 / 255.0) == Planar(rgb)[p];
    }
    assert Interleaved(out) == rgb;
  }

  /** Padding, transposing, scaling, transposing back, cropping and compositing cancel out: with a network that returns
      its input times 255, every image that fits the canvas comes back unchanged under every mask. */
  lemma PassThroughIsIdentity(net: Network, rgb: seq<real>, mask: seq<real>, h: nat, w: nat)
    requires 0 < h <= N && 0 < w <= N && |rgb| == h * w * 3 && |mask| == h * w
    requires ReturnsItsInput(net)
    ensures Inpainted(net, rgb, mask, h, w) == Some(rgb)
  {
    hide Placed, Canvas, SessionOutput, Composite, ScaledSize, Index, RowOf, ColumnOf, ReturnsItsInput;
    assert h * w * 1 == h * w;
    var canvas := Canvas(rgb, h, w, 3);
    SessionPassesThrough(net, canvas, Canvas(mask, h, w, 1));
    SameSize(w, h);
    var img := Inpainted(net, rgb, mask, h, w).value;
    forall k | 0 <= k < |rgb|
      ensures img[k] == rgb[k]
    {
      PartsIndex(k, h, w, 3);
      var y, x, c := RowOf(k, w, 3), ColumnOf(k, w, 3), k % 3;
      CompositePixel(rgb, Fill(canvas, h, w), mask, h, w, y, x, c);
      CropPixel(canvas, h, w, y, x, c);
      CanvasPixel(rgb, h, w, 3, y, x, c);
      assert At(img, h, w, 3, y, x, c) == At(rgb, h, w, 3, y, x, c);
    }
    assert img == rgb;
  }

  // ---- Range ----

  predicate Within(img: seq<real>, lo: real, hi: real) {
    forall k :: 0 <= k < |img| ==> lo <= img[k] <= hi
  }

  lemma PixelsWithin(img: seq<real>, h: nat, w: nat, channels: nat, lo: real, hi: real)
    requires |img| == h * w * channels && w > 0 && channels > 0
    ensures Within(img, lo, hi) <==> forall c: nat :: c < channels ==> ChannelWithin(img, h, w, channels, c, lo, hi)
  {
    hide Index, RowOf, ColumnOf;
    if Within(img, lo, hi) {
      forall c: nat, y: nat, x: nat | c < channels && y < h && x < w
        ensures lo <= At(img, h, w, channels, y, x, c) <= hi
      {
        IndexInside(y, x, c, h, w, channels);
      }
    }
    if forall c: nat :: c < channels ==> ChannelWithin(img, h, w, channels, c, lo, hi) {
      forall k | 0 <= k < |img|
        ensures lo <= img[k] <= hi
      {
        PartsIndex(k, h, w, channels);
        var y, x, c := RowOf(k, w, channels), ColumnOf(k, w, channels), k % channels;
        assert ChannelWithin(img, h, w, channels, c, lo, hi);
        assert lo <= At(img, h, w, channels, y, x, c) <= hi;
      }
    }
  }

  lemma ResizedWithin(src: seq<real>, sh: nat, sw: nat, channels: nat, dh: nat, dw: nat, lo: real, hi: real)
    requires |src| == sh * sw * channels && sh > 0 && sw > 0 && dh > 0 && dw > 0 && channels > 0
    requires Within(src, lo, hi)
    ensures Within(Resized(src, sh, sw, channels, dh, dw), lo, hi)
  {
    hide Within, Resized, ChannelWithin;
    PixelsWithin(src, sh, sw, channels, lo, hi);
    forall c: nat | c < channels
      ensures ChannelWithin(Resized(src, sh, sw, channels, dh, dw), dh, dw, channels, c, lo, hi)
    {
      ResizeKeepsBounds(src, sh, sw, channels, dh, dw, c, lo, hi);
    }
    PixelsWithin(Resized(src, sh, sw, channels, dh, dw), dh, dw, channels, lo, hi);
  }

  lemma PlacedWithin(src: seq<real>, sh: nat, sw: nat, channels: nat, base: seq<real>, dh: nat, dw: nat, lo: real,
                     hi: real)
    requires channels > 0 && |src| == sh * sw * channels && |base| == dh * dw * channels && dw > 0
    requires Within(src, lo, hi) && Within(base, lo, hi)
    ensures Within(Placed(src, sh, sw, channels, base, dh, dw), lo, hi)
  {
    hide Index, RowOf, ColumnOf;
    var img := Placed(src, sh, sw, channels, base, dh, dw);
    forall k | 0 <= k < |img|
      ensures lo <= img[k] <= hi
    {
      var y, x, c := RowOf(k, dw, channels), ColumnOf(k, dw, channels), k % channels;
      assert img[k] == PlacedAt(src, sh, sw, channels, base, dh, dw, k);
      if y < sh && x < sw {
        IndexInside(y, x, c, sh, sw, channels);
      }
    }
  }

  /** Images in [0, 1] stay in [0, 1] when the network keeps to [0, 255]. */
  lemma InpaintedWithin(net: Network, rgb: seq<real>, mask: seq<real>, h: nat, w: nat)
    requires h > 0 && w > 0 && |rgb| == h * w * 3 && |mask| == h * w && Within(rgb, 0.0, 1.0)
    requires forall a, b :: Within(net(a, b), 0.0, 255.0)
    requires Inpainted(net, rgb, mask, h, w).Some?
    ensures Within(Inpainted(net, rgb, mask, h, w).value, 0.0, 1.0)
  {
    hide Placed, Resized, Canvas, ScaledSize;
    assert h * w * 1 == h * w;
    var out := SessionOutput(net, Canvas(rgb, h, w, 3), Canvas(mask, h, w, 1)).value;
    var (sw, sh) := ScaledSize(w, h);
    ScaledSizeFits(w, h);
    PlacedWithin(out, N, N, 3, Zeros(sh * sw * 3), sh, sw, 0.0, 1.0);
    if NeedsResize(w, h) {
      ResizedWithin(Crop(out, h, w), sh, sw, 3, h, w, 0.0, 1.0);
    }
  }
}
