/**
 Why the bake machine may take a write as one act: on the cache files, the steps of the write protocol are acts of the
 machine. A step is at most one removal or one publication.
 */
module SmartFillWrites {
  import opened Bytes
  import opened ImageCodec
  import opened SmartFill
  import P = ImagePublish
  import O = ImageOverlap
  import Sha256Stream

  /** The two hold the same bytes under every cache file name. */
  ghost predicate SameCache(f: map<P.Path, seq<byte>>, g: map<P.Path, seq<byte>>) {
    forall q: P.Path :: P.IsDest(q) ==> P.BytesAt(f, q) == P.BytesAt(g, q)
  }

  // ---- The bake's own write ----

  /** The bake under way is to write this image. */
  predicate IsToWrite(t: State, p: P.Path, img: Image) {
    && t.worker.Running? && t.job.Some? && t.job.value.path == Some(p) && t.job.value.published.None?
    && Bakeable(img) && img.width == t.job.value.width && img.height == t.job.value.height
  }

  /** Acts of the bake's write of an image: removals of its file, and publications of a cut of the image. */
  predicate Writes(a: Act, p: P.Path, img: Image) {
    a == OtherRemoves(p) || (a.Publishes? && a.img == img)
  }

  predicate AllWrites(acts: seq<Act>, p: P.Path, img: Image) {
    forall i :: 0 <= i < |acts| ==> Writes(acts[i], p, img)
  }

  /** What a step of the writer of p does to the cache files. */
  lemma StepOnCache(s: P.State, p: P.Path, o: P.Outcome)
    requires p in s.writers && P.WriterOk(s, p)
    ensures
      var f, g := s.files, P.Step(s, p, o).files;
      var removes := s.writers[p].pc.Removing? && o.Works?;
      var renames := s.writers[p].pc.Renaming? && o.Works? && P.Tmp(p) in f;
      && (forall q :: P.IsDest(q) && q != p ==> P.BytesAt(g, q) == P.BytesAt(f, q))
      && P.BytesAt(g, p) == (if removes then None else if renames then Some(f[P.Tmp(p)]) else P.BytesAt(f, p))
      && (renames ==> f[P.Tmp(p)] <= Encode(s.writers[p].img) && p !in P.Step(s, p, o).writers)
  {
    hide Encode, P.Tmp, P.IsDest, P.BytesAt;
    forall q | P.IsDest(q)
      ensures q != P.Tmp(p)
    {
      P.TmpIsNoDest(p, q);
    }
    StepOnFiles(s, p, o);
    FilesOnCache(s.files, P.Step(s, p, o).files, p);
  }

  lemma StepOnFiles(s: P.State, p: P.Path, o: P.Outcome)
    requires p in s.writers && P.WriterOk(s, p)
    ensures
      var f, g := s.files, P.Step(s, p, o).files;
      var t := P.Tmp(p);
      var removes := s.writers[p].pc.Removing? && o.Works?;
      var renames := s.writers[p].pc.Renaming? && o.Works? && t in f;
      && (removes ==> g == f - {p})
      && (renames ==> g == (f - {t})[p := f[t]] && p !in P.Step(s, p, o).writers && f[t] <= Encode(s.writers[p].img))
      && (!removes && !renames ==> g - {t} == f - {t})
  {
    hide Encode, P.Tmp, P.IsDest;
  }

  lemma FilesOnCache(f: map<P.Path, seq<byte>>, g: map<P.Path, seq<byte>>, p: P.Path)
    requires P.IsDest(p)
    ensures
      var t := P.Tmp(p);
      && (g - {t} == f - {t} ==> SameCache(g, f))
      && (g == f - {p} ==>
            P.BytesAt(g, p) == None && forall q :: P.IsDest(q) && q != p ==> P.BytesAt(g, q) == P.BytesAt(f, q))
      && (t in f && g == (f - {t})[p := f[t]] ==>
            P.BytesAt(g, p) == Some(f[t]) && forall q :: P.IsDest(q) && q != p ==> P.BytesAt(g, q) == P.BytesAt(f, q))
  {
    hide P.Tmp, P.IsDest;
    forall q: P.Path | P.IsDest(q)
      ensures q != P.Tmp(p)
    {
      P.TmpIsNoDest(p, q);
    }
    assert forall q: P.Path :: P.IsDest(q) ==> (q in f <==> q in f - {P.Tmp(p)}) && (q in g <==> q in g - {P.Tmp(p)});
  }

  lemma PublishOnCache(t: State, p: P.Path, img: Image, b: seq<byte>)
    requires Wellformed(img) && b <= Encode(img)
    ensures Encode(img)[..P.Cut(|b|, Encode(img))] == b
  {
  }

  lemma ActsOfNone(s: State)
    ensures DoActs(s, []) == s
  {
  }

  lemma {:induction false} MoreActs(s: State, acts: seq<Act>, a: Act)
    ensures DoActs(s, acts + [a]) == DoAct(DoActs(s, acts), a)
    decreases |acts|
  {
    hide DoAct;
    if acts == [] {
      assert [] + [a] == [a];
      ActsOfOne(s, a);
    } else {
      assert (acts + [a])[1..] == acts[1..] + [a];
      MoreActs(DoAct(s, acts[0]), acts[1..], a);
    }
  }

  /** One step of the bake's writer is no act, a removal of its file, or a publication of a cut of its image; until the
      publication the bake is still to write it. */
  lemma OwnStepIsActs(s: P.State, t: State, p: P.Path, o: P.Outcome) returns (acts: seq<Act>)
    requires p in s.writers && P.WriterOk(s, p) && SameCache(s.files, t.files) && IsToWrite(t, p, s.writers[p].img)
    ensures |acts| <= 1 && AllWrites(acts, p, s.writers[p].img)
    ensures
      var s', t' := P.Step(s, p, o), DoActs(t, acts);
      SameCache(s'.files, t'.files) && (p in s'.writers ==> IsToWrite(t', p, s.writers[p].img))
  {
    hide Encode, P.Tmp, P.IsDest, ResultPath, P.Step;
    StepOnCache(s, p, o);
    ActsOfNone(t);
    acts := [];
    var img, tmp := s.writers[p].img, P.Tmp(p);
    if s.writers[p].pc.Removing? && o.Works? {
      acts := [OtherRemoves(p)];
      ActsOfOne(t, acts[0]);
    } else if s.writers[p].pc.Renaming? && o.Works? && tmp in s.files {
      acts := [Publishes(img, |s.files[tmp]|)];
      ActsOfOne(t, acts[0]);
      PublishOnCache(t, p, img, s.files[tmp]);
    }
  }

  // ---- Runs in which writers take turns ----

  /** An image of a bake, written under its key. */
  ghost predicate IsBake(q: P.Path, img: Image) {
    Bakeable(img) && exists dir, key :: Sha256Stream.HexKey(key) && ResultPath(dir, key) == Some(q)
  }

  /** An act of another node on the file q. */
  predicate IsOthers(a: Act, q: P.Path) {
    || a == OtherRemoves(q)
    || (a.OtherPublishes? && ResultPath(a.dir, a.key) == Some(q) && Sha256Stream.HexKey(a.key) && Bakeable(a.img))
  }

  /** Another node publishes a cut of an image of a bake. */
  lemma OtherPublication(t: State, q: P.Path, img: Image, b: seq<byte>) returns (a: Act)
    requires IsBake(q, img) && b <= Encode(img)
    ensures IsOthers(a, q)
    ensures DoAct(t, a) == t.(files := t.files[q := b], log := DoAct(t, a).log)
  {
    hide Encode, ResultPath;
    var dir, key :| Sha256Stream.HexKey(key) && ResultPath(dir, key) == Some(q);
    PublishOnCache(t, q, img, b);
    a := OtherPublishes(dir, key, img, |b|);
  }

  lemma OtherStepIsActs(s: P.State, t: State, q: P.Path, o: P.Outcome) returns (acts: seq<Act>)
    requires q in s.writers && P.WriterOk(s, q) && SameCache(s.files, t.files) && IsBake(q, s.writers[q].img)
    ensures |acts| <= 1 && forall i :: 0 <= i < |acts| ==> IsOthers(acts[i], q)
    ensures SameCache(P.Step(s, q, o).files, DoActs(t, acts).files)
    ensures DoActs(t, acts).worker == t.worker && DoActs(t, acts).job == t.job
  {
    hide Encode, P.Tmp, P.IsDest, ResultPath, P.Step, IsBake;
    StepOnCache(s, q, o);
    ActsOfNone(t);
    acts := [];
    if s.writers[q].pc.Removing? && o.Works? {
      acts := [OtherRemoves(q)];
      ActsOfOne(t, acts[0]);
    } else if s.writers[q].pc.Renaming? && o.Works? && P.Tmp(q) in s.files {
      var a := OtherPublication(t, q, s.writers[q].img, s.files[P.Tmp(q)]);
      acts := [a];
      ActsOfOne(t, a);
    }
  }

  /** Every writer under way writes a bake; that of p, if any, writes the bake's own image. */
  ghost predicate BakesOnly(s: P.State, t: State, p: P.Path, img: Image) {
    && SameCache(s.files, t.files)
    && (forall q :: q in s.writers ==> IsBake(q, s.writers[q].img))
    && (p in s.writers ==> s.writers[p].img == img && IsToWrite(t, p, img))
  }

  predicate Starts(a: P.Action, q: P.Path) {
    a.Begin? && a.path == q
  }

  /** At most one act, by whoever takes the step. */
  predicate ActsOf(a: P.Action, acts: seq<Act>, p: P.Path, img: Image) {
    && |acts| <= 1
    && forall i :: 0 <= i < |acts| ==>
         a.Advance? && if a.path == p then Writes(acts[i], p, img) else IsOthers(acts[i], a.path)
  }

  lemma TurnIsActs(s: P.State, t: State, p: P.Path, img: Image, a: P.Action) returns (acts: seq<Act>)
    requires P.Inv(s) && BakesOnly(s, t, p, img) && !Starts(a, p) && (a.Begin? ==> IsBake(a.path, a.img))
    ensures ActsOf(a, acts, p, img)
    ensures BakesOnly(P.Do(s, a), DoActs(t, acts), p, img)
  {
    hide IsBake, IsToWrite, Writes, IsOthers, P.WriterOk, P.Good, P.Step, P.IsDest, Wellformed;
    ActsOfNone(t);
    acts := [];
    if a.Advance? && a.path in s.writers && Wellformed(s.writers[a.path].img) {
      assert P.WriterOk(s, a.path);
      OneWriterStays(s, a.path, a.outcome);
      if a.path == p {
        acts := OwnStepIsActs(s, t, p, a.outcome);
      } else {
        acts := OtherStepIsActs(s, t, a.path, a.outcome);
        SameJob(t, DoActs(t, acts), p, img);
      }
    }
  }

  lemma SameJob(t: State, t': State, p: P.Path, img: Image)
    requires t'.worker == t.worker && t'.job == t.job
    ensures IsToWrite(t, p, img) ==> IsToWrite(t', p, img)
  {
  }

  lemma OneWriterStays(s: P.State, p: P.Path, o: P.Outcome)
    requires p in s.writers && Wellformed(s.writers[p].img)
    ensures
      var s' := P.Step(s, p, o);
      && (forall q :: q in s'.writers ==> q in s.writers && s'.writers[q].img == s.writers[q].img)
  {
    hide Encode, P.Tmp, Wellformed;
  }

  /** The machine after the acts of the first k steps. */
  function After(t: State, acts: seq<seq<Act>>, k: nat): State
    requires k <= |acts|
  {
    DoActs(t, Flatten(acts[..k]))
  }

  lemma AfterMore(t: State, acts: seq<seq<Act>>, last: seq<Act>)
    ensures After(t, acts + [last], |acts| + 1) == DoActs(After(t, acts, |acts|), last)
    ensures forall k :: 0 <= k <= |acts| ==> After(t, acts + [last], k) == After(t, acts, k)
  {
    hide DoActs;
    assert (acts + [last])[..|acts| + 1] == acts + [last] && acts[..|acts|] == acts;
    FlattenMore(acts, last);
    JoinActs(t, Flatten(acts), last);
    assert forall k :: 0 <= k <= |acts| ==> (acts + [last])[..k] == acts[..k];
  }

  /** After k steps the cache files are the machine's, and step k is at most one act. */
  ghost predicate TurnsAt(s: P.State, t: State, p: P.Path, img: Image, run: seq<P.Action>, acts: seq<seq<Act>>, k: nat)
    requires k <= |run| == |acts|
  {
    && BakesOnly(P.Run(s, run[..k]), After(t, acts, k), p, img)
    && (k < |run| ==> ActsOf(run[k], acts[k], p, img))
  }

  lemma MoreTurns(s: P.State, t: State, p: P.Path, img: Image, run: seq<P.Action>, acts: seq<seq<Act>>, a: P.Action,
                  more: seq<Act>)
    requires |acts| == |run| && forall k :: 0 <= k <= |run| ==> TurnsAt(s, t, p, img, run, acts, k)
    requires ActsOf(a, more, p, img)
    requires BakesOnly(P.Do(P.Run(s, run), a), DoActs(After(t, acts, |acts|), more), p, img)
    ensures forall k :: 0 <= k <= |run| + 1 ==> TurnsAt(s, t, p, img, run + [a], acts + [more], k)
  {
    hide BakesOnly, ActsOf, After, P.Do;
    AfterMore(t, acts, more);
    P.RunSnoc(s, run, a);
    hide P.Run;
    forall k | 0 <= k <= |run| + 1
      ensures TurnsAt(s, t, p, img, run + [a], acts + [more], k)
    {
      if k <= |run| {
        assert TurnsAt(s, t, p, img, run, acts, k) && (run + [a])[..k] == run[..k];
      } else {
        assert (run + [a])[..k] == run + [a];
      }
    }
  }

  /** However the bake's write is interleaved with writes of other cache files, each step is at most one act, by whoever
      takes it: a removal of the bake's file or a publication of its image, or such an act of another node; and after
      every step the cache files are the machine's. */
  lemma {:induction false} TurnsAreActs(s: P.State, t: State, p: P.Path, img: Image, run: seq<P.Action>)
    returns (acts: seq<seq<Act>>)
    requires P.Inv(s) && BakesOnly(s, t, p, img)
    requires forall i :: 0 <= i < |run| ==> !Starts(run[i], p) && (run[i].Begin? ==> IsBake(run[i].path, run[i].img))
    ensures |acts| == |run| && forall k :: 0 <= k <= |run| ==> TurnsAt(s, t, p, img, run, acts, k)
  {
    if run == [] {
      acts := [];
      FlattenNone<Act>();
      ActsOfNone(t);
    } else {
      hide P.Inv, BakesOnly, IsBake, ActsOf, P.Do, Starts, After;
      var m := |run| - 1;
      acts := TurnsAreActs(s, t, p, img, run[..m]);
      P.InvRun(s, run[..m]);
      assert TurnsAt(s, t, p, img, run[..m], acts, m) && run[..m][..m] == run[..m];
      var more := TurnIsActs(P.Run(s, run[..m]), After(t, acts, m), p, img, run[m]);
      MoreTurns(s, t, p, img, run[..m], acts, run[m], more);
      assert run[..m] + [run[m]] == run;
      acts := acts + [more];
    }
  }

  lemma {:induction false} JoinActs(t: State, x: seq<Act>, y: seq<Act>)
    ensures DoActs(t, x + y) == DoActs(DoActs(t, x), y)
    decreases |x|
  {
    if x == [] {
      assert x + y == y;
    } else {
      hide DoAct;
      assert (x + y)[1..] == x[1..] + y;
      JoinActs(DoAct(t, x[0]), x[1..], y);
    }
  }

  /** So what anyone reads of a cache file is what the machine's file says. */
  lemma ReadsAreReads(s: P.State, t: State, q: P.Path)
    requires SameCache(s.files, t.files) && P.IsDest(q)
    ensures P.ReadAt(s, q) == if q in t.files then Parse(t.files[q]) else Fail(CannotOpen)
  {
    hide Parse, P.IsDest;
    assert P.BytesAt(s.files, q) == P.BytesAt(t.files, q);
  }

  // ---- Runs in which writers overlap but open alone ----

  ghost predicate BakeLog(log: map<P.Path, set<Image>>) {
    forall q, img :: img in P.Logged(log, q) ==> IsBake(q, img)
  }

  /** Writer w is the bake's. */
  ghost predicate Overlapping(s: O.State, t: State, w: nat) {
    && SameCache(s.files, t.files) && BakeLog(s.log)
    && (w in s.writers ==> IsToWrite(t, s.writers[w].path, s.writers[w].img))
  }

  lemma EffectOnCache(s: O.State, s': O.State, w: nat, e: O.Effect)
    requires w in s.writers && O.WriterSafe(s, w) && O.Does(s, s', w, e)
    ensures
      var f, g, p := s.files, s'.files, s.writers[w].path;
      && (forall q :: P.IsDest(q) && q != p ==> P.BytesAt(g, q) == P.BytesAt(f, q))
      && (e.Renamed? ==> P.Tmp(p) in f)
      && P.BytesAt(g, p) == (if e.Removed? then None else if e.Renamed? then Some(f[P.Tmp(p)]) else P.BytesAt(f, p))
  {
    hide Encode, P.Tmp, P.IsDest, Wellformed, O.OpenElsewhere, P.CutOf, P.BytesAt;
    FilesOnCache(s.files, s'.files, s.writers[w].path);
    if e.Wrote? || e.Dropped? {
      assert s'.files - {P.Tmp(s.writers[w].path)} == s.files - {P.Tmp(s.writers[w].path)};
    }
  }

  /** A rename publishes a cut of some bake's image, if not of the writer's own. */
  lemma RenameIsActs(s: O.State, t: State, mine: nat, w: nat)
    returns (acts: seq<Act>)
    requires w in s.writers && O.WriterSafe(s, w) && !s.writers[w].pc.Opening? && BakeLog(s.log)
    requires P.Tmp(s.writers[w].path) in s.files
    requires w == mine ==> IsToWrite(t, s.writers[w].path, s.writers[w].img)
    ensures
      var p := s.writers[w].path;
      DoActs(t, acts).files == t.files[p := s.files[P.Tmp(p)]]
    ensures w != mine ==> DoActs(t, acts).worker == t.worker && DoActs(t, acts).job == t.job
    ensures |acts| <= 2
    ensures forall i :: 0 <= i < |acts| ==>
        IsOthers(acts[i], s.writers[w].path) || (w == mine && Writes(acts[i], s.writers[w].path, s.writers[w].img))
  {
    hide Encode, P.Tmp, P.IsDest, ResultPath, IsBake, O.Synced;
    var p := s.writers[w].path;
    var b := s.files[P.Tmp(p)];
    var img :| img in P.Logged(s.log, p) && Wellformed(img) && b <= Encode(img);
    if w == mine {
      var own := Publishes(s.writers[w].img, 0);
      ActsOfOne(t, own);
      var t1 := DoAct(t, own);
      OwnPublication(t, p, s.writers[w].img);
      var a := OtherPublication(t1, p, img, b);
      acts := [own] + [a];
      JoinActs(t, [own], [a]);
      ActsOfOne(t1, a);
      assert t.files[p := t1.files[p]][p := b] == t.files[p := b];
    } else {
      var a := OtherPublication(t, p, img, b);
      acts := [a];
      ActsOfOne(t, a);
    }
  }

  lemma OwnPublication(t: State, p: P.Path, img: Image)
    requires IsToWrite(t, p, img)
    ensures
      var t' := DoAct(t, Publishes(img, 0));
      p in t'.files && t'.files == t.files[p := t'.files[p]]
  {
    hide Encode;
  }

  /** At most two acts on the file of the writer that takes the step; only the bake's writer publishes its image. */
  predicate ActsOfWriter(s: O.State, a: O.Action, acts: seq<Act>, mine: nat) {
    && |acts| <= 2
    && forall i :: 0 <= i < |acts| ==>
         && a.Advance? && a.w in s.writers
         && (IsOthers(acts[i], s.writers[a.w].path)
             || (a.w == mine && Writes(acts[i], s.writers[a.w].path, s.writers[a.w].img)))
  }

  lemma AdvanceIsActs(s: O.State, t: State, mine: nat, w: nat, o: P.Outcome) returns (acts: seq<Act>)
    requires O.Safe(s) && w in s.writers && Wellformed(s.writers[w].img) && Overlapping(s, t, mine)
    ensures Overlapping(O.Step(s, w, o), DoActs(t, acts), mine) && ActsOfWriter(s, O.Advance(w, o), acts, mine)
  {
    hide Encode, P.Tmp, P.IsDest, ResultPath, O.Step, IsBake, O.FilesSafe, O.OneHolder, O.Synced, P.CutOf, BakeLog,
      P.BytesAt, IsToWrite, O.OpenElsewhere, O.SameOthers;
    assert O.WriterSafe(s, w);
    var e := StepDoesHere(s, w, o);
    var s', p := O.Step(s, w, o), s.writers[w].path;
    EffectOnCache(s, s', w, e);
    ActsOfNone(t);
    acts := [];
    if e.Removed? {
      acts := [OtherRemoves(p)];
      ActsOfOne(t, acts[0]);
      RemovalOnCache(t, p);
    } else if e.Renamed? {
      acts := RenameIsActs(s, t, mine, w);
      WriteOnCache(t.files, p, s.files[P.Tmp(p)]);
    }
    if mine in s'.writers {
      MineStays(s, s', mine, w);
      SameJob(t, DoActs(t, acts), s.writers[mine].path, s.writers[mine].img);
    }
  }

  lemma StepDoesHere(s: O.State, w: nat, o: P.Outcome) returns (e: O.Effect)
    requires w in s.writers && O.WriterSafe(s, w)
    ensures Wellformed(s.writers[w].img)
    ensures
      var s' := O.Step(s, w, o);
      && O.Does(s, s', w, e) && s'.log == s.log && O.SameOthers(s, s', w)
      && (w in s'.writers ==> s'.writers[w].img == s.writers[w].img)
      && (e.Renamed? ==> w !in s'.writers)
  {
    hide O.Step, O.SameOthers, O.Synced, Encode, P.Tmp, P.CutOf, O.OpenElsewhere, Wellformed;
    e := O.StepDoes(s, w, o);
  }

  lemma RemovalOnCache(t: State, p: P.Path)
    ensures forall q :: P.BytesAt(t.files - {p}, q) == if q == p then None else P.BytesAt(t.files, q)
  {
  }

  lemma WriteOnCache(f: map<P.Path, seq<byte>>, p: P.Path, b: seq<byte>)
    ensures forall q :: P.BytesAt(f[p := b], q) == if q == p then Some(b) else P.BytesAt(f, q)
  {
    forall q
      ensures P.BytesAt(f[p := b], q) == if q == p then Some(b) else P.BytesAt(f, q)
    {
      if q == p {
        assert q in f[p := b];
      }
    }
  }

  lemma MineStays(s: O.State, s': O.State, mine: nat, w: nat)
    requires O.SameOthers(s, s', w) && mine in s'.writers
    requires w in s'.writers ==> s'.writers[w].img == s.writers[w].img
    ensures mine in s.writers
    ensures s'.writers[mine].path == s.writers[mine].path && s'.writers[mine].img == s.writers[mine].img
  {
    if mine != w {
      O.OtherIsSame(s, s', w, mine);
    }
  }

  lemma MoreBakes(log: map<P.Path, set<Image>>, p: P.Path, img: Image)
    requires BakeLog(log) && IsBake(p, img)
    ensures BakeLog(log[p := P.Logged(log, p) + {img}])
  {
    hide IsBake;
  }

  /** Writes that begin are other bakes'. */
  ghost predicate BeginsBake(a: O.Action, mine: nat) {
    a.Begin? ==> a.w != mine && IsBake(a.path, a.img)
  }

  lemma AloneIsActs(s: O.State, t: State, mine: nat, a: O.Action) returns (acts: seq<Act>)
    requires O.Safe(s) && Overlapping(s, t, mine) && BeginsBake(a, mine)
    ensures Overlapping(O.Do(s, a), DoActs(t, acts), mine) && ActsOfWriter(s, a, acts, mine)
  {
    hide IsBake, IsToWrite, IsOthers, Writes, O.Safe, O.Step, P.IsDest, Wellformed, BakeLog, SameCache;
    ActsOfNone(t);
    acts := [];
    match a {
      case Begin(w, p, img) =>
        MoreBakes(s.log, p, img);
      case Advance(w, o) =>
        if w in s.writers && Wellformed(s.writers[w].img) {
          acts := AdvanceIsActs(s, t, mine, w, o);
        }
      case Crash =>
    }
  }

  /** After k steps the cache files are the machine's, and step k is a few acts on its writer's file. */
  ghost predicate OverlapsAt(s: O.State, t: State, mine: nat, run: seq<O.Action>, acts: seq<seq<Act>>, k: nat)
    requires k <= |run| == |acts|
  {
    && Overlapping(O.Run(s, run[..k]), After(t, acts, k), mine)
    && (k < |run| ==> ActsOfWriter(O.Run(s, run[..k]), run[k], acts[k], mine))
  }

  lemma MoreOverlaps(s: O.State, t: State, mine: nat, run: seq<O.Action>, acts: seq<seq<Act>>, a: O.Action,
                     more: seq<Act>)
    requires |acts| == |run| && forall k :: 0 <= k <= |run| ==> OverlapsAt(s, t, mine, run, acts, k)
    requires ActsOfWriter(O.Run(s, run), a, more, mine)
    requires Overlapping(O.Do(O.Run(s, run), a), DoActs(After(t, acts, |acts|), more), mine)
    ensures forall k :: 0 <= k <= |run| + 1 ==> OverlapsAt(s, t, mine, run + [a], acts + [more], k)
  {
    hide Overlapping, ActsOfWriter, After, O.Do;
    AfterMore(t, acts, more);
    assert (run + [a])[..|run|] == run;
    assert O.Run(s, run + [a]) == O.Do(O.Run(s, run), a);
    hide O.Run;
    forall k | 0 <= k <= |run| + 1
      ensures OverlapsAt(s, t, mine, run + [a], acts + [more], k)
    {
      if k <= |run| {
        assert OverlapsAt(s, t, mine, run, acts, k) && (run + [a])[..k] == run[..k];
      } else {
        assert (run + [a])[..k] == run + [a];
      }
    }
  }

  lemma NoOverlaps(s: O.State, t: State, mine: nat)
    requires Overlapping(s, t, mine)
    ensures OverlapsAt(s, t, mine, [], [], 0)
  {
    hide Overlapping;
    FlattenNone<Act>();
    ActsOfNone(t);
  }

  lemma AllFollowed(s: O.State, t: State, mine: nat, run: seq<O.Action>, acts: seq<seq<Act>>)
    requires |acts| == |run| && OverlapsAt(s, t, mine, run, acts, |run|)
    ensures Overlapping(O.Run(s, run), After(t, acts, |acts|), mine)
  {
    assert run[..|run|] == run;
  }

  /** The same when writes of one file, the bake's among them, overlap in any way but that a writer opens the temporary
      file while another one holds it open: each step is a few acts on its writer's file, and after every step the cache
      files are the machine's. */
  lemma {:induction false} OverlapsAreActs(s: O.State, t: State, mine: nat, run: seq<O.Action>)
    returns (acts: seq<seq<Act>>)
    requires O.Safe(s) && O.AllOpenAlone(s, run) && Overlapping(s, t, mine)
    requires forall i :: 0 <= i < |run| ==> BeginsBake(run[i], mine)
    ensures |acts| == |run| && forall k :: 0 <= k <= |run| ==> OverlapsAt(s, t, mine, run, acts, k)
  {
    hide O.Safe, O.OpensAlone, O.AllOpenAlone, Overlapping, BeginsBake, O.Do, O.Run, ActsOfWriter, After, OverlapsAt;
    if run == [] {
      acts := [];
      NoOverlaps(s, t, mine);
    } else {
      var m := |run| - 1;
      O.OpenAloneBefore(s, run);
      acts := OverlapsAreActs(s, t, mine, run[..m]);
      O.SafeRun(s, run[..m]);
      AllFollowed(s, t, mine, run[..m], acts);
      var more := AloneIsActs(O.Run(s, run[..m]), After(t, acts, m), mine, run[m]);
      MoreOverlaps(s, t, mine, run[..m], acts, run[m], more);
      assert run[..m] + [run[m]] == run;
      acts := acts + [more];
    }
  }
}
