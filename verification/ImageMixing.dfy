/**
 What a writer does that opens the temporary file while another one holds it open: from there the two can leave a
 mixture of their images. So a reader is safe exactly as long as no writer does.
 */
module ImageMixing {
  import opened Bytes
  import opened ImageCodec
  import opened ImageOverlap
  import P = ImagePublish

  // ---- Mixtures ----

  /** The first n pixels of b and the rest of a. */
  function Mixed(a: Image, b: Image, n: nat): Image
    requires n <= |b.pixels|
    requires |a.pixels| == |b.pixels|
  {
    b.(pixels := b.pixels[..n] + a.pixels[n..])
  }

  predicate SameSize(a: Image, b: Image) {
    Wellformed(a) && Wellformed(b) && a.width == b.width && a.height == b.height && a.channels == b.channels
  }

  lemma MixedBytes(a: Image, b: Image, n: nat)
    requires SameSize(a, b) && n <= |b.pixels|
    ensures |a.pixels| == |b.pixels| && |Encode(a)| == |Encode(b)| == HEADER_SIZE + 4 * |b.pixels|
    ensures Wellformed(Mixed(a, b, n))
    ensures Encode(Mixed(a, b, n)) == Encode(b)[..HEADER_SIZE + 4 * n] + Encode(a)[HEADER_SIZE + 4 * n..]
  {
    hide Header, PixelBytes, Encode;
    var h := HeaderOf(b);
    EncodeParts(a);
    EncodeParts(b);
    EncodeParts(Mixed(a, b, n));
    MixedPixels(a.pixels, b.pixels, n);
    assert (h + PixelBytes(b.pixels))[..HEADER_SIZE + 4 * n] == h + PixelBytes(b.pixels)[..4 * n];
    assert (h + PixelBytes(a.pixels))[HEADER_SIZE + 4 * n..] == PixelBytes(a.pixels)[4 * n..];
  }

  function HeaderOf(img: Image): (h: seq<byte>)
    requires Wellformed(img)
    ensures |h| == HEADER_SIZE
  {
    Header(img.width, img.height, img.channels, 0)
  }

  lemma EncodeParts(img: Image)
    requires Wellformed(img)
    ensures Encode(img) == HeaderOf(img) + PixelBytes(img.pixels)
  {
  }

  lemma MixedPixels(a: seq<u32>, b: seq<u32>, n: nat)
    requires n <= |a| == |b|
    ensures PixelBytes(b[..n] + a[n..]) == PixelBytes(b)[..4 * n] + PixelBytes(a)[4 * n..]
  {
    hide LE32;
    var m := b[..n] + a[n..];
    forall i | 0 <= i < 4 * |b|
      ensures PixelBytes(m)[i] == if i < 4 * n then PixelBytes(b)[i] else PixelBytes(a)[i]
    {
      assert m[i / 4] == if i / 4 < n then b[i / 4] else a[i / 4];
    }
  }

  /** The first c bytes of the file of b and the rest of the file of a. */
  function MixedFile(a: Image, b: Image, c: nat): (f: seq<byte>)
    requires SameSize(a, b) && c <= |Encode(b)|
    ensures |f| == |Encode(b)|
  {
    Encode(b)[..c] + Encode(a)[c..]
  }

  /** The image in that file; the cut may go through a pixel. */
  function MixedImage(a: Image, b: Image, c: nat): (m: Image)
    requires SameSize(a, b) && HEADER_SIZE <= c <= |Encode(b)|
  {
    b.(pixels := PixelsOf(MixedFile(a, b, c)[HEADER_SIZE..], |b.pixels|))
  }

  lemma MixedReads(a: Image, b: Image, c: nat)
    requires SameSize(a, b) && HEADER_SIZE <= c <= |Encode(b)|
    ensures Wellformed(MixedImage(a, b, c)) && Encode(MixedImage(a, b, c)) == MixedFile(a, b, c)
    ensures Parse(MixedFile(a, b, c)) == Ok(MixedImage(a, b, c))
  {
    hide Header, PixelBytes, Encode, PixelsOf, Parse;
    EncodeParts(a);
    EncodeParts(b);
    var m, f := MixedImage(a, b, c), MixedFile(a, b, c);
    EncodeParts(m);
    assert f[..HEADER_SIZE] == Encode(b)[..HEADER_SIZE] == HeaderOf(b);
    BytesOfPixels(f[HEADER_SIZE..], |b.pixels|);
    assert f == f[..HEADER_SIZE] + f[HEADER_SIZE..];
    WriteThenRead(m);
  }

  /** A cut between two pixels mixes pixels. */
  lemma MixedAtPixel(a: Image, b: Image, n: nat)
    requires SameSize(a, b) && n <= |b.pixels|
    ensures |a.pixels| == |b.pixels| && HEADER_SIZE + 4 * n <= |Encode(b)|
    ensures MixedImage(a, b, HEADER_SIZE + 4 * n) == Mixed(a, b, n)
  {
    hide Encode, PixelBytes, PixelsOf, Parse;
    MixedBytes(a, b, n);
    MixedReads(a, b, HEADER_SIZE + 4 * n);
    WriteThenRead(Mixed(a, b, n));
  }

  lemma MixedIsNew(a: Image, b: Image, n: nat)
    requires SameSize(a, b) && n <= |b.pixels| && |a.pixels| == |b.pixels|
    ensures Mixed(a, b, n) == b <==> a.pixels[n..] == b.pixels[n..]
    ensures Mixed(a, b, n) == a <==> a.pixels[..n] == b.pixels[..n]
  {
    var m := Mixed(a, b, n);
    assert m.pixels[..n] == b.pixels[..n] && m.pixels[n..] == a.pixels[n..];
    assert a.pixels == a.pixels[..n] + a.pixels[n..] && b.pixels == b.pixels[..n] + b.pixels[n..];
  }

  // ---- Two writers of one path ----

  /** Writers v of a and w of b at the given points, the temporary file, and no other writer of p that holds it open. */
  predicate Stage(s: State, p: Path, a: Image, b: Image, v: nat, w: nat, file: seq<byte>, pcA: P.Pc, pcB: P.Pc) {
    && v != w && v in s.writers && w in s.writers
    && s.writers[v] == Writer(p, a, pcA) && s.writers[w] == Writer(p, b, pcB)
    && P.Tmp(p) in s.files && s.files[P.Tmp(p)] == file
    && forall u :: u in s.writers && u != v && u != w && s.writers[u].path == p ==> !HoldsOpen(s, u)
  }

  lemma StageSwaps(s: State, p: Path, a: Image, b: Image, v: nat, w: nat, file: seq<byte>, pcA: P.Pc, pcB: P.Pc)
    ensures Stage(s, p, a, b, v, w, file, pcA, pcB) <==> Stage(s, p, b, a, w, v, file, pcB, pcA)
  {
  }

  lemma StageFlushes(s: State, p: Path, a: Image, b: Image, v: nat, w: nat, file: seq<byte>, k: nat, n: nat, pcB: P.Pc)
    returns (s': State)
    requires Wellformed(a) && k <= n <= |Encode(a)| && Stage(s, p, a, b, v, w, file, P.Writing(k), pcB)
    ensures s' == Do(s, Advance(v, P.Flushed(n))) && s'.log == s.log
    ensures Stage(s', p, a, b, v, w, Overlay(file, k, Encode(a)[k..n]), P.Writing(n), pcB)
  {
    hide Encode, P.Tmp, Overlay, OpenElsewhere;
    s' := Do(s, Advance(v, P.Flushed(n)));
  }

  lemma StageStopsWriting(s: State, p: Path, a: Image, b: Image, v: nat, w: nat, file: seq<byte>, k: nat, pcB: P.Pc)
    returns (s': State)
    requires Wellformed(a) && Stage(s, p, a, b, v, w, file, P.Writing(k), pcB)
    ensures s' == Do(s, Advance(v, P.Works)) && s'.log == s.log
    ensures Stage(s', p, a, b, v, w, file, P.Closing(k), pcB)
  {
    hide Encode, P.Tmp, OpenElsewhere;
    s' := Do(s, Advance(v, P.Works));
  }

  lemma StageCloses(s: State, p: Path, a: Image, b: Image, v: nat, w: nat, file: seq<byte>, k: nat, pcB: P.Pc)
    returns (s': State)
    requires Wellformed(a) && k <= |Encode(a)| && Stage(s, p, a, b, v, w, file, P.Closing(k), pcB)
    ensures s' == Do(s, Advance(v, P.Works)) && s'.log == s.log
    ensures Stage(s', p, a, b, v, w, Overlay(file, k, Encode(a)[k..]), P.Removing, pcB)
  {
    hide Encode, P.Tmp, Overlay, OpenElsewhere;
    assert Encode(a)[k..|Encode(a)|] == Encode(a)[k..];
    s' := Do(s, Advance(v, P.Works));
  }

  lemma StageRemoves(s: State, p: Path, a: Image, b: Image, v: nat, w: nat, file: seq<byte>, pcB: P.Pc)
    returns (s': State)
    requires Wellformed(a) && Stage(s, p, a, b, v, w, file, P.Removing, pcB)
    ensures s' == Do(s, Advance(v, P.Works)) && s'.log == s.log
    ensures Stage(s', p, a, b, v, w, file, P.Renaming, pcB)
  {
    hide Encode, P.Tmp, OpenElsewhere;
    P.TmpIsNew(p);
    s' := Do(s, Advance(v, P.Works));
  }

  lemma StageRenames(s: State, p: Path, a: Image, b: Image, v: nat, w: nat, file: seq<byte>, pcB: P.Pc)
    returns (s': State)
    requires Wellformed(a) && Stage(s, p, a, b, v, w, file, P.Renaming, pcB) && !pcB.Writing? && !pcB.Closing?
    ensures s' == Do(s, Advance(v, P.Works)) && s'.log == s.log
    ensures p in s'.files && s'.files[p] == file
  {
    hide Encode, P.Tmp;
    s' := Do(s, Advance(v, P.Works));
  }

  // ---- Schedules of two writers that are past their opening ----

  predicate Past(s: State, w: nat) {
    w in s.writers ==> !s.writers[w].pc.Opening?
  }

  predicate Only(acts: seq<Action>, v: nat, w: nat) {
    forall i :: 0 <= i < |acts| ==>
      acts[i].Advance? && (acts[i].w == v || acts[i].w == w) && acts[i].outcome != P.Fails
  }

  lemma PastStays(s: State, u: nat, o: P.Outcome, w: nat)
    requires Past(s, w)
    ensures Past(Do(s, Advance(u, o)), w)
  {
    hide Encode, P.Tmp, Overlay, OpenElsewhere, Wellformed;
  }

  lemma {:induction false} PastAlong(s: State, acts: seq<Action>, v: nat, w: nat)
    requires Past(s, v) && Past(s, w) && Only(acts, v, w)
    ensures Past(Run(s, acts), v) && Past(Run(s, acts), w)
  {
    if acts != [] {
      hide Past, Do;
      var m := |acts| - 1;
      PastAlong(s, acts[..m], v, w);
      PastStays(Run(s, acts[..m]), acts[m].w, acts[m].outcome, v);
      PastStays(Run(s, acts[..m]), acts[m].w, acts[m].outcome, w);
    }
  }

  lemma PastOpenAlone(s: State, acts: seq<Action>, v: nat, w: nat)
    requires Past(s, v) && Past(s, w) && Only(acts, v, w)
    ensures AllOpenAlone(s, acts)
  {
    hide Run, OpenElsewhere;
    forall n | 0 <= n < |acts|
      ensures OpensAlone(Run(s, acts[..n]), acts[n])
    {
      PastAlong(s, acts[..n], v, w);
    }
  }

  lemma RunNone(s: State)
    ensures Run(s, []) == s
  {
  }

  lemma RunMore(s: State, acts: seq<Action>, s': State, a: Action) returns (acts': seq<Action>)
    requires Run(s, acts) == s'
    ensures acts' == acts + [a] && Run(s, acts') == Do(s', a)
  {
    acts' := acts + [a];
    assert acts'[..|acts|] == acts;
  }

  // ---- The mixture ----

  /** A holder that has flushed k bytes can still put all its bytes from c on into the file. */
  predicate CanFlushFrom(pc: P.Pc, c: nat) {
    (pc.Writing? && pc.flushed <= c) || (pc.Closing? && pc.flushed == c)
  }

  lemma OverlayAll(f: seq<byte>, b: seq<byte>)
    requires |f| <= |b|
    ensures Overlay(f, 0, b[0..|b|]) == b
  {
  }

  lemma OverlayRest(b: seq<byte>, a: seq<byte>, c: nat)
    requires c <= |a| == |b|
    ensures Overlay(b, c, a[c..]) == b[..c] + a[c..] && Overlay(b, c, a[c..|a|]) == b[..c] + a[c..]
  {
    assert a[c..|a|] == a[c..];
  }

  /** With b's file in place, writer v adds its bytes from c on and closes. */
  lemma FirstCloses(s0: State, acts: seq<Action>, s: State, p: Path, a: Image, b: Image, v: nat, w: nat, c: nat,
                     pcA: P.Pc)
    returns (acts': seq<Action>, s': State)
    requires SameSize(a, b) && c <= |Encode(b)| == |Encode(a)| && (pcA == P.Writing(c) || pcA == P.Closing(c))
    requires Run(s0, acts) == s && Only(acts, v, w)
    requires Stage(s, p, a, b, v, w, Encode(b), pcA, P.Writing(|Encode(b)|))
    ensures Run(s0, acts') == s' && Only(acts', v, w) && s'.log == s.log
    ensures Stage(s', p, a, b, v, w, MixedFile(a, b, c), P.Removing, P.Writing(|Encode(b)|))
  {
    hide Run, Do, Stage, Encode, Overlay, Wellformed;
    var all := |Encode(b)|;
    acts', s' := acts, s;
    OverlayRest(Encode(b), Encode(a), c);
    if pcA.Writing? {
      acts' := RunMore(s0, acts', s', Advance(v, P.Flushed(all)));
      s' := StageFlushes(s', p, a, b, v, w, Encode(b), c, all, P.Writing(all));
      acts' := RunMore(s0, acts', s', Advance(v, P.Works));
      s' := StageStopsWriting(s', p, a, b, v, w, MixedFile(a, b, c), all, P.Writing(all));
      OverlayEnd(MixedFile(a, b, c), Encode(a));
      acts' := RunMore(s0, acts', s', Advance(v, P.Works));
      s' := StageCloses(s', p, a, b, v, w, MixedFile(a, b, c), all, P.Writing(all));
    } else {
      acts' := RunMore(s0, acts', s', Advance(v, P.Works));
      s' := StageCloses(s', p, a, b, v, w, Encode(b), c, P.Writing(all));
    }
  }

  lemma OverlayEnd(file: seq<byte>, all: seq<byte>)
    requires |file| == |all|
    ensures Overlay(file, |all|, all[|all|..]) == file
  {
  }

  /** Then writer w closes and publishes what is there. */
  lemma SecondPublishes(s0: State, acts: seq<Action>, s: State, p: Path, a: Image, b: Image, v: nat, w: nat,
                         file: seq<byte>)
    returns (acts': seq<Action>, s': State)
    requires Wellformed(b) && |file| == |Encode(b)| && Run(s0, acts) == s && Only(acts, v, w)
    requires Stage(s, p, a, b, v, w, file, P.Removing, P.Writing(|Encode(b)|))
    ensures Run(s0, acts') == s' && Only(acts', v, w) && s'.log == s.log
    ensures p in s'.files && s'.files[p] == file
  {
    hide Run, Do, Stage, Encode, Overlay, Wellformed;
    var all := |Encode(b)|;
    StageSwaps(s, p, a, b, v, w, file, P.Removing, P.Writing(all));
    acts' := RunMore(s0, acts, s, Advance(w, P.Works));
    s' := StageStopsWriting(s, p, b, a, w, v, file, all, P.Removing);
    OverlayEnd(file, Encode(b));
    acts' := RunMore(s0, acts', s', Advance(w, P.Works));
    s' := StageCloses(s', p, b, a, w, v, file, all, P.Removing);
    acts' := RunMore(s0, acts', s', Advance(w, P.Works));
    s' := StageRemoves(s', p, b, a, w, v, file, P.Removing);
    acts' := RunMore(s0, acts', s', Advance(w, P.Works));
    s' := StageRenames(s', p, b, a, w, v, file, P.Removing);
  }

  lemma SameLength(a: Image, b: Image)
    requires SameSize(a, b)
    ensures |Encode(a)| == |Encode(b)|
  {
  }

  /** When writer w opens while v holds the file open, the two can go on, without another opening and without a failing
      operation, to publish the bytes of b up to c and those of a from there, for every c from which v can still
      flush. */
  lemma MixContinues(s: State, p: Path, a: Image, b: Image, v: nat, w: nat, c: nat, pcA: P.Pc)
    returns (acts: seq<Action>)
    requires SameSize(a, b) && HEADER_SIZE <= c <= |Encode(b)| && CanFlushFrom(pcA, c)
    requires Stage(s, p, a, b, v, w, [], pcA, P.Writing(0))
    ensures
      var s' := Run(s, acts);
      && Only(acts, v, w) && AllOpenAlone(s, acts) && s'.log == s.log
      && ReadAt(s', p) == Ok(MixedImage(a, b, c))
  {
    hide Run, Do, Stage, Encode, Overlay, Wellformed, Parse, MixedImage, AllOpenAlone;
    SameLength(a, b);
    var all, s', file := |Encode(b)|, s, [];
    acts := [];
    RunNone(s);
    if pcA.Writing? {
      acts := RunMore(s, acts, s', Advance(v, P.Flushed(c)));
      file := Overlay([], pcA.flushed, Encode(a)[pcA.flushed..c]);
      s' := StageFlushes(s', p, a, b, v, w, [], pcA.flushed, c, P.Writing(0));
      OverlayLength(Encode(a), pcA.flushed, c);
    }
    var pcA' := if pcA.Writing? then P.Writing(c) else pcA;
    OverlayAll(file, Encode(b));
    StageSwaps(s', p, a, b, v, w, file, pcA', P.Writing(0));
    acts := RunMore(s, acts, s', Advance(w, P.Flushed(all)));
    s' := StageFlushes(s', p, b, a, w, v, file, 0, all, pcA');
    StageSwaps(s', p, a, b, v, w, Encode(b), pcA', P.Writing(all));
    acts, s' := FirstCloses(s, acts, s', p, a, b, v, w, c, pcA');
    acts, s' := SecondPublishes(s, acts, s', p, a, b, v, w, MixedFile(a, b, c));
    StagePast(s, p, a, b, v, w, [], pcA, P.Writing(0));
    PastOpenAlone(s, acts, v, w);
    MixedReads(a, b, c);
  }

  lemma OverlayLength(all: seq<byte>, k: nat, c: nat)
    requires k <= c <= |all|
    ensures |Overlay([], k, all[k..c])| == c
  {
  }

  lemma StagePast(s: State, p: Path, a: Image, b: Image, v: nat, w: nat, file: seq<byte>, pcA: P.Pc, pcB: P.Pc)
    requires Stage(s, p, a, b, v, w, file, pcA, pcB) && !pcA.Opening? && !pcB.Opening?
    ensures Past(s, v) && Past(s, w)
  {
  }

  // ---- The exact condition ----

  /** A writer that opens now, beside holder v, can make an image with v that nobody has passed to a write. */
  predicate Mixes(s: State, v: nat, w: nat, c: nat)
    requires v in s.writers && w in s.writers
  {
    var a, b := s.writers[v].img, s.writers[w].img;
    && SameSize(a, b) && HEADER_SIZE <= c <= |Encode(b)| && CanFlushFrom(s.writers[v].pc, c)
    && MixedImage(a, b, c) !in P.Logged(s.log, s.writers[w].path)
  }

  predicate HolderBeside(s: State, v: nat, w: nat)
    requires w in s.writers
  {
    v in s.writers && v != w && s.writers[v].path == s.writers[w].path && HoldsOpen(s, v)
  }

  lemma OpeningStage(s: State, v: nat, w: nat)
    requires Safe(s) && w in s.writers && s.writers[w].pc.Opening? && HolderBeside(s, v, w)
    ensures
      var p, a, b := s.writers[w].path, s.writers[v].img, s.writers[w].img;
      var s' := Do(s, Advance(w, P.Works));
      Stage(s', p, a, b, v, w, [], s.writers[v].pc, P.Writing(0)) && s'.log == s.log
  {
    hide Encode, P.Tmp, P.IsDest, P.CutOf, OpenElsewhere, FilesSafe;
    assert WriterSafe(s, w) && WriterSafe(s, v);
  }

  /** At a safe point where a writer is about to open: it has a continuation, with no further opening beside a holder,
      in which a reader gets an image nobody passed to a write for the path, if and only if another writer of the path
      holds the file open at that moment. Holders are taken to have bytes left to flush that mix into a new image. */
  lemma OpeningIsSafeIff(s: State, w: nat)
    requires Safe(s) && w in s.writers && s.writers[w].pc.Opening?
    requires forall v :: HolderBeside(s, v, w) ==> exists c :: Mixes(s, v, w, c)
    ensures
      var s' := Do(s, Advance(w, P.Works));
      OpenElsewhere(s, w) <==>
        exists acts :: AllOpenAlone(s', acts) && !ReadsLogged(Run(s', acts), s.writers[w].path)
  {
    hide Encode, Parse, P.IsDest, Wellformed, Mixed, MixedImage, Run, Do, Safe, AllOpenAlone, Stage;
    var s', p := Do(s, Advance(w, P.Works)), s.writers[w].path;
    if OpenElsewhere(s, w) {
      var v :| v in s.writers && v != w && s.writers[v].path == s.writers[w].path && HoldsOpen(s, v);
      assert HolderBeside(s, v, w);
      var c :| Mixes(s, v, w, c);
      OpeningStage(s, v, w);
      var acts := MixContinues(s', p, s.writers[v].img, s.writers[w].img, v, w, c, s.writers[v].pc);
      assert !ReadsLogged(Run(s', acts), p);
    } else {
      SafeStep(s, Advance(w, P.Works));
      SafeDest(s, w);
      forall acts | AllOpenAlone(s', acts)
        ensures ReadsLogged(Run(s', acts), p)
      {
        AloneIsSafe(s', acts, p);
      }
    }
  }

  lemma SafeDest(s: State, w: nat)
    requires Safe(s) && w in s.writers
    ensures P.IsDest(s.writers[w].path)
  {
    assert WriterSafe(s, w);
  }

  /** When only the two have been writing: images that differ on both sides of a pixel not yet flushed past will do. */
  lemma DifferingMixes(s: State, v: nat, w: nat, n: nat)
    requires v in s.writers && w in s.writers && SameSize(s.writers[v].img, s.writers[w].img)
    requires
      var a, b := s.writers[v].img, s.writers[w].img;
      && n <= |b.pixels| == |a.pixels| && a.pixels[..n] != b.pixels[..n] && a.pixels[n..] != b.pixels[n..]
      && P.Logged(s.log, s.writers[w].path) <= {a, b}
    requires CanFlushFrom(s.writers[v].pc, HEADER_SIZE + 4 * n)
    ensures Mixes(s, v, w, HEADER_SIZE + 4 * n)
  {
    hide Encode, MixedImage, Wellformed;
    MixedAtPixel(s.writers[v].img, s.writers[w].img, n);
    MixedIsNew(s.writers[v].img, s.writers[w].img, n);
  }

  const EMPTY := State(map[], map[], map[])

  /** Writers 1 of a and 2 of b have begun, and the first has opened. */
  function OneOpen(p: Path, a: Image, b: Image): State {
    State(map[P.Tmp(p) := []], map[1 := Writer(p, a, P.Writing(0)), 2 := Writer(p, b, P.Opening)], map[p := {a, b}])
  }

  lemma OneOpens(p: Path, a: Image, b: Image)
    requires P.IsDest(p) && Wellformed(a) && Wellformed(b)
    ensures
      var acts := [Begin(1, p, a), Begin(2, p, b), Advance(1, P.Works)];
      Run(EMPTY, acts) == OneOpen(p, a, b) && AllOpenAlone(EMPTY, acts) && Safe(EMPTY)
  {
    hide Encode, P.Tmp, P.IsDest, Wellformed;
    var none: map<Path, set<Image>> := map[];
    var s1 := Do(EMPTY, Begin(1, p, a));
    assert P.Logged(none, p) + {a} == {a} && none[p := {a}] == map[p := {a}];
    assert s1 == State(map[], map[1 := Writer(p, a, P.Opening)], map[p := {a}]);
    var s2 := Do(s1, Begin(2, p, b));
    assert P.Logged(s1.log, p) + {b} == {a, b};
    assert s2 == State(map[], map[1 := Writer(p, a, P.Opening), 2 := Writer(p, b, P.Opening)], map[p := {a, b}]);
    assert Do(s2, Advance(1, P.Works)) == OneOpen(p, a, b);
    RunThree(EMPTY, Begin(1, p, a), Begin(2, p, b), Advance(1, P.Works));
    assert !OpenElsewhere(s2, 1);
    hide Run, Do, OpenElsewhere;
    var acts := [Begin(1, p, a), Begin(2, p, b), Advance(1, P.Works)];
    assert acts[..2] == [Begin(1, p, a), Begin(2, p, b)] && acts[..1] == [Begin(1, p, a)] && acts[..0] == [];
    forall n | 0 <= n < 3
      ensures OpensAlone(Run(EMPTY, acts[..n]), acts[n])
    {
      assert n == 0 || n == 1 || n == 2;
    }
  }

  lemma RunThree(s: State, a: Action, b: Action, c: Action)
    ensures Run(s, [a]) == Do(s, a) && Run(s, [a, b]) == Do(Do(s, a), b)
    ensures Run(s, [a, b, c]) == Do(Do(Do(s, a), b), c)
  {
    hide Do, Run;
    RunNone(s);
    var acts := RunMore(s, [], s, a);
    acts := RunMore(s, acts, Do(s, a), b);
    acts := RunMore(s, acts, Do(Do(s, a), b), c);
    assert [] + [a] == [a] && [a] + [b] == [a, b] && [a, b] + [c] == [a, b, c];
  }

  lemma {:induction false} RunJoins(s: State, x: seq<Action>, y: seq<Action>)
    ensures Run(s, x + y) == Run(Run(s, x), y)
  {
    if y == [] {
      assert x + y == x;
    } else {
      hide Do;
      assert (x + y)[..|x + y| - 1] == x + y[..|y| - 1];
      RunJoins(s, x, y[..|y| - 1]);
    }
  }

  /** Two writers of images of one size, who do nothing out of order but that the second opens while the first holds the
      file open, and no operation of whom fails, can leave the first n pixels of the one and the rest of the other. */
  lemma OverlapMixes(p: Path, a: Image, b: Image, n: nat) returns (acts: seq<Action>)
    requires P.IsDest(p) && SameSize(a, b) && n <= |b.pixels|
    ensures |a.pixels| == |b.pixels|
    ensures
      var s := Run(EMPTY, acts);
      ReadAt(s, p) == Ok(Mixed(a, b, n)) && P.Logged(s.log, p) == {a, b}
    ensures Mixed(a, b, n) in {a, b} <==> a.pixels[..n] == b.pixels[..n] || a.pixels[n..] == b.pixels[n..]
    ensures forall i :: 0 <= i < |acts| ==> (OpensAlone(Run(EMPTY, acts[..i]), acts[i]) <==> i != 3)
    ensures forall i :: 0 <= i < |acts| && acts[i].Advance? ==> acts[i].outcome != P.Fails
  {
    hide Encode, P.Tmp, P.IsDest, Parse, Wellformed, Run, Do, Stage, MixedImage, Mixed, OpensAlone;
    assert Wellformed(a) && Wellformed(b);
    MixedAtPixel(a, b, n);
    MixedIsNew(a, b, n);
    var first, second := [Begin(1, p, a), Begin(2, p, b), Advance(1, P.Works)], Advance(2, P.Works);
    OneOpens(p, a, b);
    var s3 := OneOpen(p, a, b);
    SafeRun(EMPTY, first);
    OpeningStage(s3, 1, 2);
    var s4 := Do(s3, second);
    var rest := MixContinues(s4, p, a, b, 1, 2, HEADER_SIZE + 4 * n, P.Writing(0));
    acts := first + [second] + rest;
    var four := RunMore(EMPTY, first, s3, second);
    RunJoins(EMPTY, four, rest);
    BesideHolder(p, a, b);
    forall i | 0 <= i < |acts|
      ensures OpensAlone(Run(EMPTY, acts[..i]), acts[i]) <==> i != 3
    {
      if i < 3 {
        assert acts[..i] == first[..i] && acts[i] == first[i];
      } else if i == 3 {
        assert acts[..i] == first;
      } else {
        assert acts[..i] == four + rest[..i - 4] && acts[i] == rest[i - 4];
        RunJoins(EMPTY, four, rest[..i - 4]);
      }
    }
  }

  lemma BesideHolder(p: Path, a: Image, b: Image)
    ensures !OpensAlone(OneOpen(p, a, b), Advance(2, P.Works))
  {
    var s := OneOpen(p, a, b);
    assert 1 in s.writers && HoldsOpen(s, 1);
  }
}
