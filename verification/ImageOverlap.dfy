/**
 image_cache_write when writers of one path may overlap. They share the temporary file: each opens it with truncation
 and writes at its own offset. As on Windows, a file that another writer has open can be neither removed nor renamed.
 */
module ImageOverlap {
  import opened Bytes
  import opened ImageCodec
  import P = ImagePublish

  type Path = P.Path

  datatype Writer = Writer(path: Path, img: Image, pc: P.Pc)

  /** As in ImagePublish, but a path may have several writers. */
  datatype State = State(files: map<Path, seq<byte>>, writers: map<nat, Writer>, log: map<Path, set<Image>>)

  datatype Action = Begin(w: nat, path: Path, img: Image) | Advance(w: nat, outcome: P.Outcome) | Crash

  function Zeros(n: nat): (z: seq<byte>)
    ensures |z| == n
  {
    seq(n, i => 0)
  }

  /** The bytes b written at an offset of a file; a hole before them reads as zeros. */
  function Overlay(file: seq<byte>, at: nat, b: seq<byte>): seq<byte> {
    (if at <= |file| then file[..at] else file + Zeros(at - |file|))
    + b + if at + |b| <= |file| then file[at + |b|..] else []
  }

  predicate HoldsOpen(s: State, w: nat)
    requires w in s.writers
  {
    s.writers[w].pc.Writing? || s.writers[w].pc.Closing?
  }

  predicate OpenElsewhere(s: State, w: nat)
    requires w in s.writers
  {
    exists v :: v in s.writers && v != w && s.writers[v].path == s.writers[w].path && HoldsOpen(s, v)
  }

  function At(s: State, w: nat, pc: P.Pc): State
    requires w in s.writers
  {
    s.(writers := s.writers[w := s.writers[w].(pc := pc)])
  }

  function End(s: State, w: nat): State {
    s.(writers := s.writers - {w})
  }

  /** Bytes k to n of the image reach the temporary file. */
  function Flush(s: State, w: nat, k: nat, n: nat, pc: P.Pc): State
    requires w in s.writers && Wellformed(s.writers[w].img) && k <= n <= |Encode(s.writers[w].img)|
  {
    var t := P.Tmp(s.writers[w].path);
    var file := if t in s.files then s.files[t] else [];
    At(s.(files := s.files[t := Overlay(file, k, Encode(s.writers[w].img)[k..n])]), w, pc)
  }

  function Step(s: State, w: nat, o: P.Outcome): State
    requires w in s.writers && Wellformed(s.writers[w].img)
  {
    var p, all := s.writers[w].path, Encode(s.writers[w].img);
    var t := P.Tmp(p);
    match s.writers[w].pc
    case Opening => if o.Fails? then End(s, w) else At(s.(files := s.files[t := []]), w, P.Writing(0))
    case Writing(k) =>
      if o.Fails? then At(s, w, P.CleaningUp)
      else if o.Works? then At(s, w, P.Closing(k))
      else if k <= o.n <= |all| then Flush(s, w, k, o.n, P.Writing(o.n))
      else s
    case Closing(k) =>
      if o.Works? && k <= |all| then Flush(s, w, k, |all|, P.Removing)
      else if o.Flushed? && k <= o.n <= |all| then Flush(s, w, k, o.n, P.Removing)
      else s
    case Removing => At(if o.Works? then s.(files := s.files - {p}) else s, w, P.Renaming)
    case Renaming =>
      if o.Works? && t in s.files && !OpenElsewhere(s, w) then End(s.(files := (s.files - {t})[p := s.files[t]]), w)
      else At(s, w, P.CleaningUp)
    case CleaningUp => End(if o.Works? && !OpenElsewhere(s, w) then s.(files := s.files - {t}) else s, w)
  }

  function Do(s: State, a: Action): State {
    match a
    case Begin(w, p, img) =>
      if P.IsDest(p) && w !in s.writers && Wellformed(img)
      then s.(writers := s.writers[w := Writer(p, img, P.Opening)], log := s.log[p := P.Logged(s.log, p) + {img}])
      else s
    case Advance(w, o) => if w in s.writers && Wellformed(s.writers[w].img) then Step(s, w, o) else s
    case Crash => s.(writers := map[])
  }

  function Run(s: State, acts: seq<Action>): State {
    if acts == [] then s else Do(Run(s, acts[..|acts| - 1]), acts[|acts| - 1])
  }

  // ---- Writers that take turns ----

  predicate Busy(s: State, p: Path) {
    exists w :: w in s.writers && s.writers[w].path == p
  }

  /** No write begins while another one of the same path is under way. */
  predicate InTurn(s: State, a: Action) {
    a.Begin? ==> !Busy(s, a.path)
  }

  predicate TakeTurns(s: State, acts: seq<Action>) {
    forall n :: 0 <= n < |acts| ==> InTurn(Run(s, acts[..n]), acts[n])
  }

  predicate SameWriter(s: State, t: P.State, w: nat)
    requires w in s.writers
  {
    s.writers[w].path in t.writers && t.writers[s.writers[w].path] == P.Writer(s.writers[w].img, s.writers[w].pc)
  }

  /** An open temporary file holds exactly what its writer has flushed. */
  predicate Synced(s: State, w: nat)
    requires w in s.writers
  {
    var t := P.Tmp(s.writers[w].path);
    && Wellformed(s.writers[w].img) && P.IsDest(s.writers[w].path)
    && (HoldsOpen(s, w) ==>
          && s.writers[w].pc.flushed <= |Encode(s.writers[w].img)|
          && t in s.files && s.files[t] == Encode(s.writers[w].img)[..s.writers[w].pc.flushed])
  }

  /** State t of the one-writer system is state s. */
  ghost predicate Mirrors(s: State, t: P.State) {
    && t.files == s.files && t.log == s.log
    && (forall w :: w in s.writers ==> SameWriter(s, t, w) && Synced(s, w))
    && (forall p :: p in t.writers ==> Busy(s, p))
    && OnePerPath(s)
  }

  predicate OnePerPath(s: State) {
    forall v, w :: v in s.writers && w in s.writers && s.writers[v].path == s.writers[w].path ==> v == w
  }

  lemma OverlayAtEnd(all: seq<byte>, k: nat, n: nat)
    requires k <= n <= |all|
    ensures Overlay(all[..k], k, all[k..n]) == all[..n]
  {
  }

  lemma NoneOpenElsewhere(s: State, w: nat)
    requires OnePerPath(s) && w in s.writers
    ensures !OpenElsewhere(s, w)
  {
  }

  /** The writer that moves stays in step. */
  predicate InStep(s: State, s': State, t': P.State, w: nat)
    requires w in s.writers
  {
    var p := s.writers[w].path;
    && t'.files == s'.files && t'.log == s'.log
    && (w in s'.writers <==> p in t'.writers)
    && (w in s'.writers ==>
          SameWriter(s', t', w) && Synced(s', w) && s'.writers[w].path == p && s'.writers[w].img == s.writers[w].img)
  }

  lemma OwnFlush(s: State, t: P.State, w: nat, o: P.Outcome)
    requires t.files == s.files && t.log == s.log && w in s.writers && SameWriter(s, t, w) && Synced(s, w)
    requires HoldsOpen(s, w)
    ensures InStep(s, Step(s, w, o), P.Step(t, s.writers[w].path, o), w)
  {
    hide Encode, P.Tmp, P.IsDest, Overlay, Wellformed, OpenElsewhere;
    var all, k := Encode(s.writers[w].img), s.writers[w].pc.flushed;
    assert all[..|all|] == all;
    OverlayAtEnd(all, k, |all|);
    if o.Flushed? && k <= o.n <= |all| {
      OverlayAtEnd(all, k, o.n);
    }
  }

  lemma OwnMove(s: State, t: P.State, w: nat, o: P.Outcome)
    requires t.files == s.files && t.log == s.log && w in s.writers && SameWriter(s, t, w) && Synced(s, w)
    requires !HoldsOpen(s, w) && !s.writers[w].pc.Opening? && !OpenElsewhere(s, w)
    ensures InStep(s, Step(s, w, o), P.Step(t, s.writers[w].path, o), w)
  {
    hide Encode, P.Tmp, P.IsDest, Overlay, Wellformed, OpenElsewhere;
  }

  lemma OwnOpen(s: State, t: P.State, w: nat, o: P.Outcome)
    requires t.files == s.files && t.log == s.log && w in s.writers && SameWriter(s, t, w) && Synced(s, w)
    requires s.writers[w].pc.Opening?
    ensures InStep(s, Step(s, w, o), P.Step(t, s.writers[w].path, o), w)
  {
    hide Encode, P.Tmp, P.IsDest, Overlay, Wellformed, OpenElsewhere;
    assert Encode(s.writers[w].img)[..0] == [];
  }

  lemma OwnStep(s: State, t: P.State, w: nat, o: P.Outcome)
    requires t.files == s.files && t.log == s.log && w in s.writers && SameWriter(s, t, w) && Synced(s, w)
    requires !OpenElsewhere(s, w)
    ensures InStep(s, Step(s, w, o), P.Step(t, s.writers[w].path, o), w)
  {
    hide Step, P.Step, InStep, Synced, SameWriter, OpenElsewhere;
    assert Wellformed(s.writers[w].img) && s.writers[w].path in t.writers by { SyncedParts(s, t, w); }
    if HoldsOpen(s, w) {
      OwnFlush(s, t, w, o);
    } else if s.writers[w].pc.Opening? {
      OwnOpen(s, t, w, o);
    } else {
      OwnMove(s, t, w, o);
    }
  }

  lemma SyncedParts(s: State, t: P.State, w: nat)
    requires w in s.writers && SameWriter(s, t, w) && Synced(s, w)
    ensures Wellformed(s.writers[w].img) && s.writers[w].path in t.writers
    ensures t.writers[s.writers[w].path].img == s.writers[w].img
  {
  }

  /** A step touches only its writer and its two files. */
  lemma StepFrame(s: State, w: nat, o: P.Outcome)
    requires w in s.writers && Wellformed(s.writers[w].img)
    ensures
      var p, s' := s.writers[w].path, Step(s, w, o);
      && s'.writers - {w} == s.writers - {w}
      && s'.files - {p, P.Tmp(p)} == s.files - {p, P.Tmp(p)}
  {
    hide Encode, P.Tmp, Overlay, OpenElsewhere, Flush;
    var all := Encode(s.writers[w].img);
    match s.writers[w].pc {
      case Writing(k) => if o.Flushed? && k <= o.n <= |all| { FlushFrame(s, w, k, o.n, P.Writing(o.n)); }
      case Closing(k) =>
        if o.Works? && k <= |all| { FlushFrame(s, w, k, |all|, P.Removing); }
        if o.Flushed? && k <= o.n <= |all| { FlushFrame(s, w, k, o.n, P.Removing); }
      case _ =>
    }
  }

  lemma FlushFrame(s: State, w: nat, k: nat, n: nat, pc: P.Pc)
    requires w in s.writers && Wellformed(s.writers[w].img) && k <= n <= |Encode(s.writers[w].img)|
    ensures
      var p, s' := s.writers[w].path, Flush(s, w, k, n, pc);
      && s'.writers - {w} == s.writers - {w}
      && s'.files - {p, P.Tmp(p)} == s.files - {p, P.Tmp(p)}
  {
    hide Encode, P.Tmp, Overlay;
  }

  lemma OneWriterFrame(t: P.State, p: Path, o: P.Outcome)
    requires p in t.writers && Wellformed(t.writers[p].img)
    ensures P.Step(t, p, o).writers - {p} == t.writers - {p}
  {
    hide Encode, P.Tmp;
  }

  lemma MirrorAdvance(s: State, t: P.State, w: nat, o: P.Outcome)
    requires Mirrors(s, t) && w in s.writers
    ensures Wellformed(s.writers[w].img) && SameWriter(s, t, w)
    ensures Mirrors(Step(s, w, o), P.Step(t, s.writers[w].path, o))
  {
    hide Step, P.Step, P.Tmp, P.IsDest, Encode, Wellformed, Busy, OnePerPath, OpenElsewhere;
    var p := s.writers[w].path;
    assert SameWriter(s, t, w) && Synced(s, w);
    NoneOpenElsewhere(s, w);
    OwnStep(s, t, w, o);
    StepFrame(s, w, o);
    OneWriterFrame(t, p, o);
    var s', t' := Step(s, w, o), P.Step(t, p, o);
    forall v | v in s'.writers
      ensures SameWriter(s', t', v) && Synced(s', v)
    {
      if v != w {
        OtherWriterKept(s, s', t, t', w, v);
      }
    }
    BusyKept(s, s', t, t', w);
    OnePerPathKept(s, s', w);
  }

  /** Apart from writer w, which keeps its path while it lives, the writers are the same. */
  predicate SameOthers(s: State, s': State, w: nat) {
    && w in s.writers && s'.writers - {w} == s.writers - {w}
    && (w in s'.writers ==> s'.writers[w].path == s.writers[w].path)
  }

  lemma OtherIsSame(s: State, s': State, w: nat, v: nat)
    requires SameOthers(s, s', w) && v != w
    ensures v in s.writers <==> v in s'.writers
    ensures v in s.writers ==> s'.writers[v] == s.writers[v]
  {
    assert v in s.writers <==> v in s.writers - {w};
    assert v in s'.writers <==> v in s'.writers - {w};
  }

  lemma BusyKept(s: State, s': State, t: P.State, t': P.State, w: nat)
    requires SameOthers(s, s', w)
    requires forall p :: p in t.writers ==> Busy(s, p)
    requires w in s'.writers <==> s.writers[w].path in t'.writers
    requires t'.writers - {s.writers[w].path} == t.writers - {s.writers[w].path}
    ensures forall q :: q in t'.writers ==> Busy(s', q)
  {
    forall q | q in t'.writers
      ensures Busy(s', q)
    {
      if q == s.writers[w].path {
        assert s'.writers[w].path == q;
      } else {
        assert q in t'.writers - {s.writers[w].path} && q in t.writers;
        var v :| v in s.writers && s.writers[v].path == q;
        OtherIsSame(s, s', w, v);
      }
    }
  }

  lemma OnePerPathKept(s: State, s': State, w: nat)
    requires SameOthers(s, s', w) && OnePerPath(s)
    ensures OnePerPath(s')
  {
    forall v
      ensures v in s'.writers ==> v in s.writers && s'.writers[v].path == s.writers[v].path
    {
      if v != w {
        OtherIsSame(s, s', w, v);
      }
    }
  }

  lemma OtherWriterKept(s: State, s': State, t: P.State, t': P.State, w: nat, v: nat)
    requires Mirrors(s, t) && w in s.writers && v in s'.writers && v != w
    requires s'.writers - {w} == s.writers - {w} && t'.writers - {s.writers[w].path} == t.writers - {s.writers[w].path}
    requires
      var p := s.writers[w].path;
      s'.files - {p, P.Tmp(p)} == s.files - {p, P.Tmp(p)}
    ensures SameWriter(s', t', v) && Synced(s', v)
  {
    hide P.Tmp, P.IsDest, Encode, Wellformed;
    assert v in s'.writers - {w} && s'.writers[v] == s.writers[v];
    var p, q := s.writers[w].path, s.writers[v].path;
    assert SameWriter(s, t, v) && Synced(s, v) && Synced(s, w);
    assert q in t.writers - {p} && t'.writers[q] == t.writers[q];
    P.TmpIsNoDest(q, p);
    P.TmpIsNoDest(p, q);
    if HoldsOpen(s, v) {
      assert P.Tmp(q) in s.files - {p, P.Tmp(p)};
      assert s'.files[P.Tmp(q)] == s.files[P.Tmp(q)];
    }
  }

  lemma MirrorBegin(s: State, t: P.State, w: nat, p: Path, img: Image)
    requires Mirrors(s, t) && !Busy(s, p) && w !in s.writers && P.IsDest(p) && Wellformed(img)
    ensures Mirrors(Do(s, Begin(w, p, img)), P.Do(t, P.Begin(p, img)))
  {
    hide P.Tmp, P.IsDest, Encode, Wellformed, Busy, OnePerPath, SameWriter, Synced;
    var s', t' := Do(s, Begin(w, p, img)), P.Do(t, P.Begin(p, img));
    BeginBusy(s, s', t, p, w, Writer(p, img, P.Opening));
    forall v | v in s'.writers
      ensures SameWriter(s', t', v) && Synced(s', v)
    {
      if v != w {
        assert SameWriter(s, t, v) && Synced(s, v);
      }
      BeginKeepsWriter(s, t, w, p, img, v);
    }
  }

  lemma BeginKeepsWriter(s: State, t: P.State, w: nat, p: Path, img: Image, v: nat)
    requires w !in s.writers && P.IsDest(p) && Wellformed(img) && p !in t.writers
    requires v != w ==> v in s.writers && SameWriter(s, t, v) && Synced(s, v)
    ensures
      var s', t' := Do(s, Begin(w, p, img)), P.Do(t, P.Begin(p, img));
      v in s'.writers && SameWriter(s', t', v) && Synced(s', v)
  {
    hide P.Tmp, P.IsDest, Encode, Wellformed;
  }

  lemma BeginBusy(s: State, s': State, t: P.State, p: Path, w: nat, writer: Writer)
    requires OnePerPath(s) && !Busy(s, p) && w !in s.writers && writer.path == p
    requires s'.writers == s.writers[w := writer] && forall q :: q in t.writers ==> Busy(s, q)
    ensures OnePerPath(s') && p !in t.writers
    ensures forall q :: q in t.writers || q == p ==> Busy(s', q)
    ensures forall v :: v in s.writers ==> s.writers[v].path != p
  {
    forall q | q in t.writers || q == p
      ensures Busy(s', q)
    {
      if q == p {
        assert s'.writers[w].path == p;
      } else {
        var v :| v in s.writers && s.writers[v].path == q;
        assert s'.writers[v].path == q;
      }
    }
  }

  /** A run in which the writers of each path take turns is a run of the one-writer system. */
  lemma {:induction false} TurnsRefine(s: State, t: P.State, acts: seq<Action>) returns (acts': seq<P.Action>)
    requires Mirrors(s, t) && TakeTurns(s, acts)
    ensures Mirrors(Run(s, acts), P.Run(t, acts'))
  {
    if acts == [] {
      acts' := [];
    } else {
      hide Mirrors, Step, P.Step, InTurn, P.IsDest, Wellformed;
      var m := |acts| - 1;
      var a := acts[m];
      TurnsBefore(s, acts);
      acts' := TurnsRefine(s, t, acts[..m]);
      var s1, t1 := Run(s, acts[..m]), P.Run(t, acts');
      var a' := MirrorStep(s1, t1, a);
      if a'.Some? {
        P.RunSnoc(t, acts', a'.value);
        acts' := acts' + [a'.value];
      }
    }
  }

  lemma TurnsBefore(s: State, acts: seq<Action>)
    requires TakeTurns(s, acts) && acts != []
    ensures TakeTurns(s, acts[..|acts| - 1]) && InTurn(Run(s, acts[..|acts| - 1]), acts[|acts| - 1])
  {
    hide InTurn, Run;
    var rest := acts[..|acts| - 1];
    forall n | 0 <= n < |rest|
      ensures InTurn(Run(s, rest[..n]), rest[n])
    {
      assert rest[..n] == acts[..n] && InTurn(Run(s, acts[..n]), acts[n]);
    }
  }

  lemma MirrorStep(s: State, t: P.State, a: Action) returns (a': Option<P.Action>)
    requires Mirrors(s, t) && InTurn(s, a)
    ensures Mirrors(Do(s, a), if a'.Some? then P.Do(t, a'.value) else t)
  {
    hide Step, P.Step, P.IsDest, Wellformed, P.Tmp, Encode;
    a' := None;
    match a {
      case Begin(w, p, img) =>
        if P.IsDest(p) && w !in s.writers && Wellformed(img) {
          MirrorBegin(s, t, w, p, img);
          a' := Some(P.Begin(p, img));
        }
      case Advance(w, o) =>
        if w in s.writers {
          MirrorAdvance(s, t, w, o);
          a' := Some(P.Advance(s.writers[w].path, o));
        }
      case Crash =>
        a' := Some(P.Crash);
    }
  }

  // ---- Writers that open alone ----

  /** No writer opens the temporary file while another one of the path holds it open. */
  predicate OpensAlone(s: State, a: Action) {
    a.Advance? && a.w in s.writers && s.writers[a.w].pc.Opening? && !a.outcome.Fails? ==> !OpenElsewhere(s, a.w)
  }

  predicate AllOpenAlone(s: State, acts: seq<Action>) {
    forall n :: 0 <= n < |acts| ==> OpensAlone(Run(s, acts[..n]), acts[n])
  }

  /** Once a writer has opened the temporary file, that file is a cut of some image written for the path. */
  predicate WriterSafe(s: State, w: nat)
    requires w in s.writers
  {
    var p := s.writers[w].path;
    && Synced(s, w) && s.writers[w].img in P.Logged(s.log, p)
    && (!s.writers[w].pc.Opening? && P.Tmp(p) in s.files ==> P.CutOf(s.files[P.Tmp(p)], P.Logged(s.log, p)))
  }

  predicate OneHolder(s: State) {
    forall v, w :: v in s.writers && w in s.writers ==>
      (s.writers[v].path == s.writers[w].path && HoldsOpen(s, v) && HoldsOpen(s, w) ==> v == w)
  }

  predicate FilesSafe(s: State) {
    forall p :: p in s.files && P.IsDest(p) ==> P.CutOf(s.files[p], P.Logged(s.log, p))
  }

  predicate Safe(s: State) {
    FilesSafe(s) && OneHolder(s) && forall w :: w in s.writers ==> WriterSafe(s, w)
  }

  datatype Effect = Nothing | Wrote(bytes: seq<byte>) | Removed | Renamed | Dropped

  /** The five things a step of writer w can do to the files. */
  predicate Does(s: State, s': State, w: nat, e: Effect)
    requires w in s.writers
  {
    var p, img := s.writers[w].path, s.writers[w].img;
    var t := P.Tmp(p);
    match e
    case Nothing => s'.files == s.files
    case Wrote(b) =>
      && Wellformed(img) && b <= Encode(img) && s'.files == s.files[t := b]
      && (s.writers[w].pc.Opening? || HoldsOpen(s, w))
    case Removed => s'.files == s.files - {p}
    case Renamed =>
      && t in s.files && s'.files == (s.files - {t})[p := s.files[t]] && !OpenElsewhere(s, w)
      && !s.writers[w].pc.Opening? && !HoldsOpen(s, w) && w !in s'.writers
    case Dropped =>
      s'.files == s.files - {t} && !OpenElsewhere(s, w) && !s.writers[w].pc.Opening? && !HoldsOpen(s, w)
  }

  /** How the writer itself comes out: where it holds the file open, the file is what it has flushed. */
  predicate OwnResult(s: State, s': State, w: nat, e: Effect)
    requires w in s.writers
  {
    && s'.log == s.log && SameOthers(s, s', w)
    && (w in s'.writers ==>
          && s'.writers[w].img == s.writers[w].img
          && (HoldsOpen(s', w) ==> HoldsOpen(s, w) || s.writers[w].pc.Opening?)
          && !s'.writers[w].pc.Opening?
          && Synced(s', w))
    && (s.writers[w].pc.Opening? ==> (e.Wrote? <==> w in s'.writers))
  }

  lemma HolderSteps(s: State, w: nat, o: P.Outcome) returns (e: Effect)
    requires w in s.writers && Synced(s, w) && HoldsOpen(s, w)
    ensures Does(s, Step(s, w, o), w, e) && OwnResult(s, Step(s, w, o), w, e)
  {
    hide Encode, P.Tmp, P.IsDest, Overlay, Wellformed, OpenElsewhere;
    var all, k := Encode(s.writers[w].img), s.writers[w].pc.flushed;
    assert all[..|all|] == all;
    OverlayAtEnd(all, k, |all|);
    e := Nothing;
    if s.writers[w].pc.Closing? && o.Works? {
      e := Wrote(all);
    } else if o.Flushed? && k <= o.n <= |all| {
      OverlayAtEnd(all, k, o.n);
      e := Wrote(all[..o.n]);
    }
  }

  lemma OpenerSteps(s: State, w: nat, o: P.Outcome) returns (e: Effect)
    requires w in s.writers && Synced(s, w) && s.writers[w].pc.Opening?
    ensures Does(s, Step(s, w, o), w, e) && OwnResult(s, Step(s, w, o), w, e)
  {
    hide Encode, P.Tmp, P.IsDest, Overlay, Wellformed, OpenElsewhere;
    assert Encode(s.writers[w].img)[..0] == [];
    e := if o.Fails? then Nothing else Wrote([]);
  }

  lemma OthersStep(s: State, w: nat, o: P.Outcome) returns (e: Effect)
    requires w in s.writers && Synced(s, w) && !s.writers[w].pc.Opening? && !HoldsOpen(s, w)
    ensures Does(s, Step(s, w, o), w, e) && OwnResult(s, Step(s, w, o), w, e)
  {
    hide Encode, P.Tmp, P.IsDest, Overlay, Wellformed, OpenElsewhere;
    e := Nothing;
    if s.writers[w].pc.Removing? {
      e := if o.Works? then Removed else Nothing;
    } else if o.Works? && !OpenElsewhere(s, w) {
      if s.writers[w].pc.CleaningUp? {
        e := Dropped;
      } else if P.Tmp(s.writers[w].path) in s.files {
        e := Renamed;
      }
    }
  }

  lemma StepDoes(s: State, w: nat, o: P.Outcome) returns (e: Effect)
    requires w in s.writers && Synced(s, w)
    ensures Wellformed(s.writers[w].img) && Does(s, Step(s, w, o), w, e) && OwnResult(s, Step(s, w, o), w, e)
  {
    hide Step, Does, OwnResult, OpenElsewhere;
    if HoldsOpen(s, w) {
      e := HolderSteps(s, w, o);
    } else if s.writers[w].pc.Opening? {
      e := OpenerSteps(s, w, o);
    } else {
      e := OthersStep(s, w, o);
    }
  }

  /** A prefix of a logged image is a cut of the log. */
  lemma PrefixIsCut(b: seq<byte>, img: Image, imgs: set<Image>)
    requires Wellformed(img) && b <= Encode(img) && img in imgs
    ensures P.CutOf(b, imgs)
  {
  }

  /** The writer, once past its opening, is as safe as it was. */
  lemma OwnSafe(s: State, s': State, w: nat, e: Effect)
    requires w in s.writers && WriterSafe(s, w) && Does(s, s', w, e) && OwnResult(s, s', w, e) && w in s'.writers
    ensures WriterSafe(s', w)
  {
    hide Encode, P.Tmp, P.IsDest, Wellformed, OpenElsewhere, P.CutOf, Synced, SameOthers;
    assert s'.writers[w].path == s.writers[w].path by { SamePath(s, s', w); }
    P.TmpIsNew(s.writers[w].path);
    if e.Wrote? {
      PrefixIsCut(e.bytes, s.writers[w].img, P.Logged(s.log, s.writers[w].path));
    }
  }

  lemma SamePath(s: State, s': State, w: nat)
    requires SameOthers(s, s', w) && w in s'.writers
    ensures s'.writers[w].path == s.writers[w].path
  {
  }

  lemma OtherSafe(s: State, s': State, w: nat, e: Effect, v: nat)
    requires w in s.writers && WriterSafe(s, w) && Does(s, s', w, e) && s'.log == s.log
    requires v in s.writers && WriterSafe(s, v) && v != w && v in s'.writers && s'.writers[v] == s.writers[v]
    requires s.writers[v].path == s.writers[w].path && e != Nothing && e != Removed ==> !HoldsOpen(s, v)
    ensures WriterSafe(s', v)
  {
    hide Encode, P.Tmp, P.IsDest, Wellformed, OpenElsewhere, P.CutOf;
    var p, q := s.writers[w].path, s.writers[v].path;
    P.TmpIsNoDest(q, p);
    P.TmpIsNoDest(p, q);
    P.TmpIsNew(p);
    if e.Wrote? {
      PrefixIsCut(e.bytes, s.writers[w].img, P.Logged(s.log, p));
    }
  }

  lemma FilesStaySafe(s: State, s': State, w: nat, e: Effect)
    requires w in s.writers && WriterSafe(s, w) && FilesSafe(s) && Does(s, s', w, e) && s'.log == s.log
    ensures FilesSafe(s')
  {
    hide Encode, P.Tmp, P.IsDest, Wellformed, OpenElsewhere, P.CutOf;
    P.TmpIsNoDest(s.writers[w].path, s.writers[w].path);
  }

  lemma NotOpenElsewhere(s: State, w: nat, v: nat)
    requires w in s.writers && v in s.writers && v != w && s.writers[v].path == s.writers[w].path
    requires !OpenElsewhere(s, w)
    ensures !HoldsOpen(s, v)
  {
  }

  lemma OneHolderKept(s: State, s': State, w: nat, e: Effect)
    requires w in s.writers && OneHolder(s) && OwnResult(s, s', w, e)
    requires s.writers[w].pc.Opening? && w in s'.writers && HoldsOpen(s', w) ==> !OpenElsewhere(s, w)
    ensures OneHolder(s')
  {
    hide Synced, SameOthers;
    forall v, u | v in s'.writers && u in s'.writers && s'.writers[v].path == s'.writers[u].path
      && HoldsOpen(s', v) && HoldsOpen(s', u)
      ensures v == u
    {
      if v != w { OtherIsSame(s, s', w, v); }
      if u != w { OtherIsSame(s, s', w, u); }
      if w in s'.writers { SamePath(s, s', w); }
      if s.writers[w].pc.Opening? && v == w && u != w { NotOpenElsewhere(s, w, u); }
      if s.writers[w].pc.Opening? && u == w && v != w { NotOpenElsewhere(s, w, v); }
    }
  }

  lemma SafeAdvance(s: State, w: nat, o: P.Outcome)
    requires Safe(s) && w in s.writers && OpensAlone(s, Advance(w, o))
    ensures Wellformed(s.writers[w].img) && Safe(Step(s, w, o))
  {
    hide Step, Does, FilesSafe, OneHolder, OpenElsewhere, Synced, SameOthers, P.CutOf, OpensAlone;
    assert WriterSafe(s, w);
    var e := StepDoes(s, w, o);
    var s' := Step(s, w, o);
    FilesStaySafe(s, s', w, e);
    if s.writers[w].pc.Opening? {
      OpeningMeans(s, w, o);
    }
    OneHolderKept(s, s', w, e);
    forall v | v in s'.writers
      ensures WriterSafe(s', v)
    {
      if v == w {
        OwnSafe(s, s', w, e);
      } else {
        OtherIsSame(s, s', w, v);
        assert WriterSafe(s, v);
        if s.writers[v].path == s.writers[w].path && e != Nothing && e != Removed {
          EffectAlone(s, s', w, e, v);
        }
        OtherSafe(s, s', w, e, v);
      }
    }
  }

  /** A writer that gets past its opening opened alone. */
  lemma OpeningMeans(s: State, w: nat, o: P.Outcome)
    requires w in s.writers && Wellformed(s.writers[w].img) && OpensAlone(s, Advance(w, o)) && s.writers[w].pc.Opening?
    ensures w in Step(s, w, o).writers ==> !OpenElsewhere(s, w)
  {
    hide Encode, P.Tmp, P.IsDest, OpenElsewhere;
  }

  lemma EffectAlone(s: State, s': State, w: nat, e: Effect, v: nat)
    requires w in s.writers && v in s.writers && v != w && s.writers[v].path == s.writers[w].path && OneHolder(s)
    requires Does(s, s', w, e) && e != Nothing && e != Removed
    requires s.writers[w].pc.Opening? && e.Wrote? ==> !OpenElsewhere(s, w)
    ensures !HoldsOpen(s, v)
  {
    hide Encode, P.Tmp, P.IsDest, Wellformed, OpenElsewhere;
    if !e.Wrote? || s.writers[w].pc.Opening? {
      NotOpenElsewhere(s, w, v);
    }
  }

  lemma SafeBegin(s: State, w: nat, p: Path, img: Image)
    requires Safe(s) && w !in s.writers && P.IsDest(p) && Wellformed(img)
    ensures Safe(Do(s, Begin(w, p, img)))
  {
    hide Encode, P.Tmp, P.IsDest, Wellformed, P.CutOf;
    var s' := Do(s, Begin(w, p, img));
    forall q | q in s'.files && P.IsDest(q)
      ensures P.CutOf(s'.files[q], P.Logged(s'.log, q))
    {
      MoreLogged(s.files[q], P.Logged(s.log, q), P.Logged(s'.log, q));
    }
    forall v | v in s'.writers
      ensures WriterSafe(s', v)
    {
      if v != w {
        assert WriterSafe(s, v);
        var q := s.writers[v].path;
        if P.Tmp(q) in s.files {
          MoreLogged(s.files[P.Tmp(q)], P.Logged(s.log, q), P.Logged(s'.log, q));
        }
      }
    }
  }

  lemma MoreLogged(b: seq<byte>, imgs: set<Image>, more: set<Image>)
    requires imgs <= more
    ensures P.CutOf(b, imgs) ==> P.CutOf(b, more)
  {
  }

  lemma SafeStep(s: State, a: Action)
    requires Safe(s) && OpensAlone(s, a)
    ensures Safe(Do(s, a))
  {
    hide Step, OpensAlone, FilesSafe, P.IsDest, Wellformed, WriterSafe, OneHolder;
    match a {
      case Begin(w, p, img) =>
        if P.IsDest(p) && w !in s.writers && Wellformed(img) { SafeBegin(s, w, p, img); }
      case Advance(w, o) =>
        if w in s.writers { SafeAdvance(s, w, o); }
      case Crash => SafeCrash(s);
    }
  }

  lemma SafeCrash(s: State)
    requires Safe(s)
    ensures Safe(s.(writers := map[]))
  {
  }

  lemma OpenAloneBefore(s: State, acts: seq<Action>)
    requires acts != []
    ensures AllOpenAlone(s, acts) <==>
      AllOpenAlone(s, acts[..|acts| - 1]) && OpensAlone(Run(s, acts[..|acts| - 1]), acts[|acts| - 1])
  {
    hide OpensAlone, Run;
    var rest := acts[..|acts| - 1];
    assert forall n :: 0 <= n < |rest| ==> rest[..n] == acts[..n] && rest[n] == acts[n];
  }

  lemma {:induction false} SafeRun(s: State, acts: seq<Action>)
    requires Safe(s) && AllOpenAlone(s, acts)
    ensures Safe(Run(s, acts))
  {
    if acts != [] {
      hide Safe, OpensAlone, AllOpenAlone, Do;
      OpenAloneBefore(s, acts);
      SafeRun(s, acts[..|acts| - 1]);
      SafeStep(Run(s, acts[..|acts| - 1]), acts[|acts| - 1]);
    }
  }

  function ReadAt(s: State, p: Path): ReadResult {
    if p in s.files then Parse(s.files[p]) else Fail(CannotOpen)
  }

  /** The reader fails or gets a whole image passed to a write for the path. */
  predicate ReadsLogged(s: State, p: Path) {
    ReadAt(s, p).Fail? || ReadAt(s, p).img in P.Logged(s.log, p)
  }

  lemma SafeReads(s: State, p: Path)
    requires Safe(s) && P.IsDest(p)
    ensures ReadsLogged(s, p)
  {
    hide Parse, Encode, P.IsDest;
    if p in s.files {
      var img :| img in P.Logged(s.log, p) && Wellformed(img) && s.files[p] <= Encode(img);
      PrefixReadsWhole(img, s.files[p]);
    }
  }

  /** However calls overlap, as long as no writer opens the temporary file while another one of the path holds it open,
      a reader fails or gets a whole image passed to a write for that path. */
  lemma AloneIsSafe(s: State, acts: seq<Action>, p: Path)
    requires Safe(s) && AllOpenAlone(s, acts) && P.IsDest(p)
    ensures ReadsLogged(Run(s, acts), p)
  {
    hide Safe, AllOpenAlone, ReadsLogged, P.IsDest;
    SafeRun(s, acts);
    SafeReads(Run(s, acts), p);
  }

  lemma TurnsOpenAlone(s: State, t: P.State, acts: seq<Action>)
    requires Mirrors(s, t) && TakeTurns(s, acts)
    ensures AllOpenAlone(s, acts)
  {
    hide Run, P.Run, InTurn, OnePerPath, Step;
    forall n | 0 <= n < |acts|
      ensures OpensAlone(Run(s, acts[..n]), acts[n])
    {
      assert TakeTurns(s, acts[..n]) by { TurnsUpTo(s, acts, n); }
      var acts' := TurnsRefine(s, t, acts[..n]);
      if acts[n].Advance? && acts[n].w in Run(s, acts[..n]).writers {
        NoneOpenElsewhere(Run(s, acts[..n]), acts[n].w);
      }
    }
  }

  lemma TurnsUpTo(s: State, acts: seq<Action>, m: nat)
    requires TakeTurns(s, acts) && m <= |acts|
    ensures TakeTurns(s, acts[..m])
  {
    hide Run, InTurn;
    forall n | 0 <= n < m
      ensures InTurn(Run(s, acts[..m][..n]), acts[..m][n])
    {
      assert acts[..m][..n] == acts[..n];
    }
  }

  /** In particular when the writers of each path take turns. */
  lemma TurnsAreSafe(files: map<Path, seq<byte>>, log: map<Path, set<Image>>, acts: seq<Action>, p: Path)
    requires P.Good(P.State(files, map[], log)) && P.IsDest(p)
    requires TakeTurns(State(files, map[], log), acts)
    ensures ReadsLogged(Run(State(files, map[], log), acts), p)
  {
    hide AllOpenAlone, ReadsLogged, TakeTurns, P.IsDest, Run;
    var s0 := State(files, map[], log);
    TurnsOpenAlone(s0, P.State(files, map[], log), acts);
    AloneIsSafe(s0, acts, p);
  }
}
