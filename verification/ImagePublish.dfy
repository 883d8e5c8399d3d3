/**
 image_cache_write against a file system that other writers are using too. A step is one file-system operation of
 one writer; it may fail, a flush may leave any prefix behind, and a crash ends every writer where it stands.
 */
module ImagePublish {
  import opened Bytes
  import opened ImageCodec

  type Path = string

  function Tmp(p: Path): Path {
    p + ".tmp"
  }

  /** A cache file name. No name ends in the temporary suffix. */
  predicate IsDest(p: Path) {
    |p| < 4 || p[|p| - 4..] != ".tmp"
  }

  lemma TmpIsNoDest(p: Path, q: Path)
    ensures !IsDest(Tmp(p))
    ensures Tmp(p) == Tmp(q) ==> p == q
  {
    assert Tmp(p)[|p|..] == ".tmp";
    if Tmp(p) == Tmp(q) {
      assert p == Tmp(p)[..|p|] == Tmp(q)[..|q|] == q;
    }
  }

  datatype Pc = Opening | Writing(flushed: nat) | Closing(flushed: nat) | Removing | Renaming | CleaningUp

  datatype Writer = Writer(img: Image, pc: Pc)

  /** The files, the writers under way (one per destination), and every image ever passed to a write for each path. */
  datatype State = State(files: map<Path, seq<byte>>, writers: map<Path, Writer>, log: map<Path, set<Image>>)

  /** How one operation turns out; Flushed(n) leaves n bytes of the image on disk. */
  datatype Outcome = Works | Fails | Flushed(n: nat)

  datatype Action = Begin(path: Path, img: Image) | Advance(path: Path, outcome: Outcome) | Crash

  function Logged(log: map<Path, set<Image>>, p: Path): set<Image> {
    if p in log then log[p] else {}
  }

  function End(s: State, p: Path): State {
    s.(writers := s.writers - {p})
  }

  function At(s: State, p: Path, pc: Pc): State
    requires p in s.writers
  {
    s.(writers := s.writers[p := s.writers[p].(pc := pc)])
  }

  /** The next operation of the writer of p. Writing repeats until the stream is closed; a flush that fails in the
      destructor goes unnoticed and leaves a prefix. */
  function Step(s: State, p: Path, o: Outcome): State
    requires p in s.writers && Wellformed(s.writers[p].img)
  {
    var w, t := s.writers[p], Tmp(p);
    var all := Encode(w.img);
    match w.pc
    case Opening =>
      if o.Fails? then End(s, p) else At(s.(files := s.files[t := []]), p, Writing(0))
    case Writing(k) =>
      if o.Fails? then At(s, p, CleaningUp)
      else if o.Works? then At(s, p, Closing(k))
      else if k <= o.n <= |all| then At(s.(files := s.files[t := all[..o.n]]), p, Writing(o.n))
      else s
    case Closing(k) =>
      if o.Works? then At(s.(files := s.files[t := all]), p, Removing)
      else if o.Flushed? && k <= o.n <= |all| then At(s.(files := s.files[t := all[..o.n]]), p, Removing)
      else s
    case Removing => At(if o.Works? then s.(files := s.files - {p}) else s, p, Renaming)
    case Renaming =>
      if o.Works? && t in s.files then End(s.(files := (s.files - {t})[p := s.files[t]]), p)
      else At(s, p, CleaningUp)
    case CleaningUp => End(if o.Works? then s.(files := s.files - {t}) else s, p)
  }

  function Do(s: State, a: Action): State {
    match a
    case Begin(p, img) =>
      if IsDest(p) && p !in s.writers && Wellformed(img)
      then s.(writers := s.writers[p := Writer(img, Opening)], log := s.log[p := Logged(s.log, p) + {img}])
      else s
    case Advance(p, o) => if p in s.writers && Wellformed(s.writers[p].img) then Step(s, p, o) else s
    case Crash => s.(writers := map[])
  }

  function Run(s: State, acts: seq<Action>): State {
    if acts == [] then s else Do(Run(s, acts[..|acts| - 1]), acts[|acts| - 1])
  }

  lemma RunSnoc(s: State, acts: seq<Action>, a: Action)
    ensures Run(s, acts + [a]) == Do(Run(s, acts), a)
  {
    assert (acts + [a])[..|acts|] == acts;
  }

  // ---- The invariant ----

  /** The bytes are a written image, or one cut short. */
  predicate CutOf(b: seq<byte>, imgs: set<Image>) {
    exists img :: img in imgs && Wellformed(img) && b <= Encode(img)
  }

  predicate Good(s: State) {
    forall p :: p in s.files && IsDest(p) ==> CutOf(s.files[p], Logged(s.log, p))
  }

  predicate WriterOk(s: State, p: Path)
    requires p in s.writers
  {
    var w := s.writers[p];
    && IsDest(p) && Wellformed(w.img) && w.img in Logged(s.log, p)
    && (!w.pc.Opening? && Tmp(p) in s.files ==> s.files[Tmp(p)] <= Encode(w.img))
    && (w.pc.Writing? || w.pc.Closing? ==> w.pc.flushed <= |Encode(w.img)|)
  }

  predicate Inv(s: State) {
    Good(s) && forall p :: p in s.writers ==> WriterOk(s, p)
  }

  lemma StepKeepsWriter(s: State, p: Path, o: Outcome, q: Path)
    requires Inv(s) && p in s.writers
    requires q in Step(s, p, o).writers
    ensures WriterOk(Step(s, p, o), q)
  {
    assert WriterOk(s, p) && q in s.writers && WriterOk(s, q);
    if q == p {
      StepKeepsOwn(s, p, o);
    } else {
      StepKeepsOther(s, p, o, q);
    }
  }

  lemma StepKeepsOwn(s: State, p: Path, o: Outcome)
    requires p in s.writers && WriterOk(s, p) && p in Step(s, p, o).writers
    ensures WriterOk(Step(s, p, o), p)
  {
    hide Encode, IsDest, Tmp;
    TmpIsNew(p);
  }

  lemma StepKeepsOther(s: State, p: Path, o: Outcome, q: Path)
    requires p in s.writers && WriterOk(s, p) && q in s.writers && WriterOk(s, q) && q != p
    ensures q in Step(s, p, o).writers && WriterOk(Step(s, p, o), q)
  {
    hide Encode, IsDest, Tmp;
    TmpIsNoDest(p, q);
    TmpIsNoDest(q, p);
  }

  lemma StepKeepsGood(s: State, p: Path, o: Outcome)
    requires Inv(s) && p in s.writers
    ensures Good(Step(s, p, o))
  {
    hide Encode, IsDest, Tmp;
    assert WriterOk(s, p);
    TmpIsNoDest(p, p);
    var s', w := Step(s, p, o), s.writers[p];
    forall q | q in s'.files && IsDest(q)
      ensures CutOf(s'.files[q], Logged(s'.log, q))
    {
      if q in s.files && s'.files[q] == s.files[q] {
        assert CutOf(s.files[q], Logged(s.log, q));
      } else {
        assert q == p && s'.files[q] == s.files[Tmp(p)];
        assert w.img in Logged(s'.log, q) && s'.files[q] <= Encode(w.img);
      }
    }
  }

  lemma BeginKeeps(s: State, p: Path, img: Image)
    requires Inv(s)
    ensures Inv(Do(s, Begin(p, img)))
  {
    hide Encode, IsDest, Tmp, Wellformed;
    var s' := Do(s, Begin(p, img));
    forall q | q in s'.files && IsDest(q)
      ensures CutOf(s'.files[q], Logged(s'.log, q))
    {
      var i :| i in Logged(s.log, q) && Wellformed(i) && s.files[q] <= Encode(i);
      assert i in Logged(s'.log, q);
    }
    forall q | q in s'.writers
      ensures WriterOk(s', q)
    {
      if q in s.writers {
        assert WriterOk(s, q);
      }
    }
  }

  lemma InvDo(s: State, a: Action)
    requires Inv(s)
    ensures Inv(Do(s, a))
  {
    match a {
      case Begin(p, img) => BeginKeeps(s, p, img);
      case Advance(p, o) =>
        if p in s.writers {
          assert WriterOk(s, p);
          StepKeepsGood(s, p, o);
          forall q | q in Step(s, p, o).writers
            ensures WriterOk(Step(s, p, o), q)
          {
            StepKeepsWriter(s, p, o, q);
          }
        }
      case Crash =>
    }
  }

  lemma {:induction false} InvRun(s: State, acts: seq<Action>)
    requires Inv(s)
    ensures Inv(Run(s, acts))
  {
    if acts != [] {
      InvRun(s, acts[..|acts| - 1]);
      InvDo(Run(s, acts[..|acts| - 1]), acts[|acts| - 1]);
    }
  }

  // ---- What a reader can see ----

  function ReadAt(s: State, p: Path): ReadResult {
    if p in s.files then Parse(s.files[p]) else Fail(CannotOpen)
  }

  /** At every point of every run, crashes and failing operations included, reading a cache file fails
      or gives a whole image that was passed to a write for that very path. */
  lemma ReaderSeesWholeImages(s: State, acts: seq<Action>, p: Path)
    requires Inv(s) && IsDest(p)
    ensures
      var s' := Run(s, acts);
      ReadAt(s', p).Fail? || ReadAt(s', p).img in Logged(s'.log, p)
  {
    hide Parse, Encode, Run;
    InvRun(s, acts);
    var s' := Run(s, acts);
    if p in s'.files {
      var img :| img in Logged(s'.log, p) && Wellformed(img) && s'.files[p] <= Encode(img);
      PrefixReadsWhole(img, s'.files[p]);
    }
  }

  /** One step changes a cache file only by removing it or by renaming a cut of its writer's image over it. */
  lemma ReplacedInOneStep(s: State, a: Action, p: Path)
    requires Inv(s) && IsDest(p) && p in Do(s, a).files
    requires p !in s.files || Do(s, a).files[p] != s.files[p]
    ensures a.Advance? && a.path == p && p in s.writers && s.writers[p].pc.Renaming?
    ensures Do(s, a).files[p] <= Encode(s.writers[p].img) && p !in Do(s, a).writers
  {
    hide Encode, IsDest, Tmp;
    if a.Advance? && a.path in s.writers {
      assert WriterOk(s, a.path);
      TmpIsNoDest(a.path, p);
    }
  }

  /** A cache file disappears in exactly one way: its writer's removal works. */
  lemma GoneExactlyByRemoval(s: State, a: Action, p: Path)
    requires Inv(s) && IsDest(p) && p in s.files
    ensures p !in Do(s, a).files <==>
      a.Advance? && a.path == p && a.outcome.Works? && p in s.writers && s.writers[p].pc.Removing?
  {
    hide Encode, IsDest, Tmp;
    if a.Advance? && a.path in s.writers {
      assert WriterOk(s, a.path);
      TmpIsNoDest(a.path, p);
    }
  }

  // ---- What can go wrong in a call ----

  /** What goes wrong in one call: opening, the stream (after `flushed` bytes reached the disk), the unchecked flush
      at close (`kept` more bytes survive), the removal of the old file, the rename, and the cleanup. */
  datatype Faults = Faults(open: bool, stream: bool, flushed: nat, kept: nat, remove: bool, rename: bool, cleanup: bool)

  function Cut(n: nat, all: seq<byte>): nat {
    if n <= |all| then n else |all|
  }

  // ---- The schedule of a call ----

  function Advances(p: Path, fails: bool): Action {
    Advance(p, if fails then Fails else Works)
  }

  function WriteSteps(p: Path, img: Image, f: Faults): seq<Action>
    requires Wellformed(img)
  {
    var all := Encode(img);
    if f.open then [Advance(p, Fails)]
    else
      [Advance(p, Works), Advance(p, Flushed(Cut(f.flushed, all)))]
      + if f.stream then [Advance(p, Fails), Advances(p, f.cleanup)]
        else [Advance(p, Works), Advance(p, Flushed(Cut(f.flushed + f.kept, all)))]
  }

  function PublishSteps(p: Path, f: Faults): seq<Action> {
    [Advances(p, f.remove), Advances(p, f.rename)] + if f.rename then [Advances(p, f.cleanup)] else []
  }

  /** The steps of one call, in order. */
  function Schedule(p: Path, img: Image, f: Faults): seq<Action>
    requires Wellformed(img)
  {
    [Begin(p, img)] + WriteSteps(p, img, f) + if f.open || f.stream then [] else PublishSteps(p, f)
  }

  /** The bytes a call that gets as far as the rename publishes. */
  function Published(img: Image, f: Faults): seq<byte>
    requires Wellformed(img)
  {
    Encode(img)[..Cut(f.flushed + f.kept, Encode(img))]
  }

  function AfterPublish(files: map<Path, seq<byte>>, p: Path, f: Faults): map<Path, seq<byte>>
    requires Tmp(p) in files
  {
    var m := if f.remove then files else files - {p};
    if !f.rename then (m - {Tmp(p)})[p := files[Tmp(p)]] else if f.cleanup then m else m - {Tmp(p)}
  }

  /** The files after the call. */
  function AfterCall(files: map<Path, seq<byte>>, p: Path, img: Image, f: Faults): map<Path, seq<byte>>
    requires Wellformed(img)
  {
    var all := Encode(img);
    if f.open then files
    else if f.stream then if f.cleanup then files[Tmp(p) := all[..Cut(f.flushed, all)]] else files - {Tmp(p)}
    else AfterPublish(files[Tmp(p) := Published(img, f)], p, f)
  }

  function BytesAt(files: map<Path, seq<byte>>, p: Path): Option<seq<byte>> {
    if p in files then Some(files[p]) else None
  }

  /** What a reader of p can meet, from before the first step to after the last. */
  ghost function Seen(s0: State, acts: seq<Action>, p: Path): set<Option<seq<byte>>> {
    set n | 0 <= n <= |acts| :: BytesAt(Run(s0, acts[..n]).files, p)
  }

  lemma Take(s0: State, acts: seq<Action>, s: State, p: Path, a: Action) returns (s': State)
    requires Run(s0, acts) == s
    ensures s' == Do(s, a) && Run(s0, acts + [a]) == s'
    ensures Seen(s0, acts + [a], p) == Seen(s0, acts, p) + {BytesAt(s'.files, p)}
  {
    hide Do, BytesAt;
    s' := Do(s, a);
    var acts' := acts + [a];
    assert acts'[..|acts|] == acts && acts'[..|acts'|] == acts';
    assert forall n :: 0 <= n <= |acts| ==> acts'[..n] == acts[..n];
  }

  lemma SeenBefore(s0: State, acts: seq<Action>, p: Path)
    ensures BytesAt(Run(s0, acts).files, p) in Seen(s0, acts, p)
  {
    assert acts[..|acts|] == acts;
  }

  lemma SeenAtFirst(s0: State, p: Path)
    ensures Run(s0, []) == s0 && Seen(s0, [], p) == {BytesAt(s0.files, p)}
  {
    var none: seq<Action> := [];
    assert none[..0] == none;
  }

  /** The state of the step system with the one writer of this call at pc. */
  ghost function Alone(files: map<Path, seq<byte>>, log: map<Path, set<Image>>, path: Path, img: Image, pc: Pc): State {
    State(files, map[path := Writer(img, pc)], log)
  }

  lemma AloneFiles(m: map<Path, seq<byte>>, log: map<Path, set<Image>>, p: Path, img: Image, pc: Pc)
    ensures Alone(m, log, p, img, pc).files == m
  {
  }

  lemma OpenFails(s0: State, acts: seq<Action>, m: map<Path, seq<byte>>, log: map<Path, set<Image>>, p: Path,
                  img: Image)
    requires Wellformed(img) && Run(s0, acts) == Alone(m, log, p, img, Opening)
    ensures Run(s0, acts + [Advance(p, Fails)]) == State(m, map[], log)
    ensures Seen(s0, acts + [Advance(p, Fails)], p) == Seen(s0, acts, p)
  {
    hide Encode, Tmp, Run;
    SeenBefore(s0, acts, p);
    var s := Take(s0, acts, Run(s0, acts), p, Advance(p, Fails));
  }

  lemma OpenWorks(m: map<Path, seq<byte>>, log: map<Path, set<Image>>, p: Path, img: Image)
    requires Wellformed(img)
    ensures Do(Alone(m, log, p, img, Opening), Advance(p, Works)) == Alone(m[Tmp(p) := []], log, p, img, Writing(0))
  {
    hide Encode, Tmp;
  }

  /** A flush while writing, or the one at close. */
  lemma FlushLeaves(m: map<Path, seq<byte>>, log: map<Path, set<Image>>, p: Path, img: Image, k: nat, n: nat)
    requires Wellformed(img) && k <= n <= |Encode(img)|
    ensures Do(Alone(m, log, p, img, Writing(k)), Advance(p, Flushed(n)))
         == Alone(m[Tmp(p) := Encode(img)[..n]], log, p, img, Writing(n))
    ensures Do(Alone(m, log, p, img, Closing(k)), Advance(p, Flushed(n)))
         == Alone(m[Tmp(p) := Encode(img)[..n]], log, p, img, Removing)
  {
    hide Encode, Tmp;
  }

  lemma WritingEnds(m: map<Path, seq<byte>>, log: map<Path, set<Image>>, p: Path, img: Image, k: nat)
    requires Wellformed(img)
    ensures Do(Alone(m, log, p, img, Writing(k)), Advance(p, Works)) == Alone(m, log, p, img, Closing(k))
  {
    hide Encode, Tmp;
  }

  lemma StreamSteps(s0: State, acts: seq<Action>, m: map<Path, seq<byte>>, log: map<Path, set<Image>>, p: Path,
                    img: Image, n: nat)
    requires Wellformed(img) && n <= |Encode(img)| && Run(s0, acts) == Alone(m, log, p, img, Opening)
    ensures
      var acts' := acts + [Advance(p, Works), Advance(p, Flushed(n))];
      && Run(s0, acts') == Alone(m[Tmp(p) := Encode(img)[..n]], log, p, img, Writing(n))
      && Seen(s0, acts', p) == Seen(s0, acts, p)
  {
    hide Encode, Tmp, Run, Do, Alone, Seen;
    TmpIsNew(p);
    SeenBefore(s0, acts, p);
    OpenWorks(m, log, p, img);
    FlushLeaves(m[Tmp(p) := []], log, p, img, 0, n);
    AloneFiles(m, log, p, img, Opening);
    AloneFiles(m[Tmp(p) := []], log, p, img, Writing(0));
    AloneFiles(m[Tmp(p) := Encode(img)[..n]], log, p, img, Writing(n));
    var s := Take(s0, acts, Run(s0, acts), p, Advance(p, Works));
    s := Take(s0, acts + [Advance(p, Works)], s, p, Advance(p, Flushed(n)));
    assert acts + [Advance(p, Works)] + [Advance(p, Flushed(n))] == acts + [Advance(p, Works), Advance(p, Flushed(n))];
    assert m[Tmp(p) := []][Tmp(p) := Encode(img)[..n]] == m[Tmp(p) := Encode(img)[..n]];
  }

  lemma StreamFails(s0: State, acts: seq<Action>, m: map<Path, seq<byte>>, log: map<Path, set<Image>>, p: Path,
                    img: Image, n: nat, stuck: bool)
    requires Wellformed(img) && Run(s0, acts) == Alone(m, log, p, img, Writing(n))
    ensures
      var acts' := acts + [Advance(p, Fails), Advances(p, stuck)];
      && Run(s0, acts') == State(if stuck then m else m - {Tmp(p)}, map[], log)
      && Seen(s0, acts', p) == Seen(s0, acts, p)
  {
    hide Encode, Tmp, Run;
    TmpIsNew(p);
    SeenBefore(s0, acts, p);
    var s := Take(s0, acts, Run(s0, acts), p, Advance(p, Fails));
    s := Take(s0, acts + [Advance(p, Fails)], s, p, Advances(p, stuck));
    assert acts + [Advance(p, Fails)] + [Advances(p, stuck)] == acts + [Advance(p, Fails), Advances(p, stuck)];
  }

  lemma CloseSteps(s0: State, acts: seq<Action>, m: map<Path, seq<byte>>, log: map<Path, set<Image>>, p: Path,
                   img: Image, n: nat, k: nat)
    requires Wellformed(img) && n <= k <= |Encode(img)| && Run(s0, acts) == Alone(m, log, p, img, Writing(n))
    ensures
      var acts' := acts + [Advance(p, Works), Advance(p, Flushed(k))];
      && Run(s0, acts') == Alone(m[Tmp(p) := Encode(img)[..k]], log, p, img, Removing)
      && Seen(s0, acts', p) == Seen(s0, acts, p)
  {
    hide Encode, Tmp, Run, Do, Alone, Seen;
    TmpIsNew(p);
    SeenBefore(s0, acts, p);
    WritingEnds(m, log, p, img, n);
    FlushLeaves(m, log, p, img, n, k);
    AloneFiles(m, log, p, img, Writing(n));
    AloneFiles(m, log, p, img, Closing(n));
    AloneFiles(m[Tmp(p) := Encode(img)[..k]], log, p, img, Removing);
    var s := Take(s0, acts, Run(s0, acts), p, Advance(p, Works));
    s := Take(s0, acts + [Advance(p, Works)], s, p, Advance(p, Flushed(k)));
    assert acts + [Advance(p, Works)] + [Advance(p, Flushed(k))] == acts + [Advance(p, Works), Advance(p, Flushed(k))];
  }

  /** Up to the rename nothing a reader can see happens to the destination. */
  lemma WriteRuns(s0: State, acts: seq<Action>, m: map<Path, seq<byte>>, log: map<Path, set<Image>>, p: Path,
                  img: Image, f: Faults)
    requires Wellformed(img) && Run(s0, acts) == Alone(m, log, p, img, Opening)
    ensures
      var acts' := acts + WriteSteps(p, img, f);
      && Run(s0, acts') == (if f.open || f.stream then State(AfterCall(m, p, img, f), map[], log)
                            else Alone(m[Tmp(p) := Published(img, f)], log, p, img, Removing))
      && Seen(s0, acts', p) == Seen(s0, acts, p)
  {
    hide Encode, Tmp, Run, Alone, Seen, Advances;
    if f.open {
      OpenFails(s0, acts, m, log, p, img);
    } else {
      var all := Encode(img);
      var n, k := Cut(f.flushed, all), Cut(f.flushed + f.kept, all);
      var m1, acts1 := m[Tmp(p) := all[..n]], acts + [Advance(p, Works), Advance(p, Flushed(n))];
      StreamSteps(s0, acts, m, log, p, img, n);
      if f.stream {
        StreamFails(s0, acts1, m1, log, p, img, n, f.cleanup);
        assert acts + WriteSteps(p, img, f) == acts1 + [Advance(p, Fails), Advances(p, f.cleanup)];
        assert m1 - {Tmp(p)} == m - {Tmp(p)};
      } else {
        CloseSteps(s0, acts1, m1, log, p, img, n, k);
        assert acts + WriteSteps(p, img, f) == acts1 + [Advance(p, Works), Advance(p, Flushed(k))];
        assert m1[Tmp(p) := all[..k]] == m[Tmp(p) := all[..k]];
      }
    }
  }

  function If<T>(b: bool, x: T): set<T> {
    if b then {x} else {}
  }

  lemma PublishRuns(s0: State, acts: seq<Action>, m: map<Path, seq<byte>>, log: map<Path, set<Image>>, p: Path,
                    img: Image, f: Faults)
    requires Wellformed(img) && Tmp(p) in m && Run(s0, acts) == Alone(m, log, p, img, Removing)
    ensures
      var acts' := acts + PublishSteps(p, f);
      && Run(s0, acts') == State(AfterPublish(m, p, f), map[], log)
      && Seen(s0, acts', p) == Seen(s0, acts, p) + If(!f.remove, None) + If(!f.rename, Some(m[Tmp(p)]))
  {
    hide Encode, Tmp, Run, Seen;
    TmpIsNew(p);
    SeenBefore(s0, acts, p);
    var a1, a2, a3 := Advances(p, f.remove), Advances(p, f.rename), Advances(p, f.cleanup);
    var s := Take(s0, acts, Run(s0, acts), p, a1);
    s := Take(s0, acts + [a1], s, p, a2);
    assert acts + [a1] + [a2] == acts + [a1, a2];
    if f.rename {
      s := Take(s0, acts + [a1, a2], s, p, a3);
      assert acts + [a1, a2] + [a3] == acts + PublishSteps(p, f);
    } else {
      assert acts + [a1, a2] == acts + PublishSteps(p, f);
    }
  }

  /** A call is its schedule; and what a reader of the destination can meet during it is what was there before, no file
      exactly when the call gets as far as a removal that works, and the published bytes exactly when it gets as far as
      a rename that works. */
  lemma CallRuns(files: map<Path, seq<byte>>, log: map<Path, set<Image>>, p: Path, img: Image, f: Faults)
    requires IsDest(p) && Wellformed(img)
    ensures
      var s0, acts := State(files, map[], log), Schedule(p, img, f);
      var written := !f.open && !f.stream;
      && Run(s0, acts) == State(AfterCall(files, p, img, f), map[], log[p := Logged(log, p) + {img}])
      && Seen(s0, acts, p) ==
           {BytesAt(files, p)} + If(written && !f.remove, None) + If(written && !f.rename, Some(Published(img, f)))
  {
    hide Encode, Tmp, Run, IsDest, Seen, WriteSteps, PublishSteps, AfterPublish, Wellformed, Published;
    var s0, log' := State(files, map[], log), log[p := Logged(log, p) + {img}];
    SeenAtFirst(s0, p);
    var s := Take(s0, [], s0, p, Begin(p, img));
    assert [] + [Begin(p, img)] == [Begin(p, img)];
    assert s == Alone(files, log', p, img, Opening);
    WriteRuns(s0, [Begin(p, img)], files, log', p, img, f);
    if !f.open && !f.stream {
      PublishRuns(s0, [Begin(p, img)] + WriteSteps(p, img, f), files[Tmp(p) := Published(img, f)], log', p, img, f);
    } else {
      assert Schedule(p, img, f) == [Begin(p, img)] + WriteSteps(p, img, f);
    }
  }

  /** A reader of an existing cache file can meet no file during a call exactly when the temporary file is written and
      the removal works; otherwise, and whenever there was no old file, it meets the old state or the published
      bytes. */
  lemma ReaderMeetsGapIff(files: map<Path, seq<byte>>, log: map<Path, set<Image>>, p: Path, img: Image, f: Faults)
    requires IsDest(p) && Wellformed(img)
    ensures
      var seen := Seen(State(files, map[], log), Schedule(p, img, f), p);
      && (p in files ==> (None in seen <==> !f.open && !f.stream && !f.remove))
      && (p !in files || f.open || f.stream || f.remove ==>
            seen <= {BytesAt(files, p), Some(Published(img, f))})
  {
    hide Seen, Schedule, Published, IsDest, Wellformed;
    CallRuns(files, log, p, img, f);
  }

  const NO_FAULTS := Faults(false, false, 0, MAX_FILE, false, false, false)

  /** No cache file is longer. */
  const MAX_FILE := 28 + 4 * 32768 * 32768 * 8

  lemma FileSize(img: Image)
    requires Wellformed(img)
    ensures |Encode(img)| <= MAX_FILE
  {
    var area := img.width * img.height;
    assert area <= MAX_DIM * MAX_DIM by { ProductBound(img.width, img.height, MAX_DIM, MAX_DIM); }
    ProductBound(area, img.channels, MAX_DIM * MAX_DIM, MAX_CHANNELS);
  }

  lemma ProductBound(a: nat, b: nat, m: nat, n: nat)
    requires a <= m && b <= n
    ensures a * b <= m * n
  {
    assert a * b <= m * b;
    assert m * b <= m * n;
  }

  /** Replacing one readable image by another, with nothing going wrong at all: the reader starts with the old image and
      ends with the new one, and in between there is a moment at which it finds no file. */
  lemma ReplacementGap(p: Path, before: Image, after: Image)
    requires IsDest(p) && Wellformed(before) && Wellformed(after)
    ensures
      var s0 := State(map[p := Encode(before)], map[], map[p := {before}]);
      var acts := Schedule(p, after, NO_FAULTS);
      && Inv(s0)
      && ReadAt(s0, p) == Ok(before) && ReadAt(Run(s0, acts), p) == Ok(after)
      && exists n :: 0 < n < |acts| && ReadAt(Run(s0, acts[..n]), p) == Fail(CannotOpen)
  {
    hide Encode, Run, Schedule, IsDest, Wellformed, Parse, Tmp;
    var files, log := map[p := Encode(before)], map[p := {before}];
    var s0, acts := State(files, map[], log), Schedule(p, after, NO_FAULTS);
    TmpIsNew(p);
    CallRuns(files, log, p, after, NO_FAULTS);
    WriteThenRead(before);
    WriteThenRead(after);
    FileSize(after);
    assert Encode(after)[..|Encode(after)|] == Encode(after);
    assert None in Seen(s0, acts, p);
    var n :| 0 <= n <= |acts| && BytesAt(Run(s0, acts[..n]).files, p) == None;
    SeenAtFirst(s0, p);
    assert acts[..0] == [] && acts[..|acts|] == acts;
    assert p in AfterCall(files, p, after, NO_FAULTS);
    assert 0 < n < |acts|;
  }

  // ---- One call ----

  class Disk {
    var files: map<Path, seq<byte>>
    constructor (files: map<Path, seq<byte>>)
      ensures this.files == files
    {
      this.files := files;
    }
  }

  method Serialize(img: Image) returns (out: seq<byte>)
    requires Wellformed(img)
    ensures out == Encode(img)
  {
    out := MAGIC + LE32(VERSION) + LE32(img.width) + LE32(img.height) + LE32(img.channels) + LE32(0);
    ghost var header := out;
    for i := 0 to |img.pixels|
      invariant out == header + PixelBytes(img.pixels)[..4 * i]
    {
      hide LE32;
      out := out + LE32(img.pixels[i]);
    }
  }

  /** image_cache_write. Whatever has been logged before, the call is its schedule of the step system. */
  method ImageCacheWrite(disk: Disk, path: Path, pixels: Option<seq<u32>>, width: int, height: int, channels: int,
                         f: Faults, ghost log: map<Path, set<Image>>)
    returns (ok: bool)
    requires pixels.Some? && DimsInRange(width, height, channels) ==>
      |pixels.value| == PixelCount(width, height, channels)
    modifies disk
    ensures
      if pixels.None? || !DimsInRange(width, height, channels) then !ok && disk.files == old(disk.files)
      else
        var img := Image(width, height, channels, pixels.value);
        && (ok <==> !f.open && !f.stream && !f.rename)
        && (ok ==> disk.files == (old(disk.files) - {Tmp(path)})[path := Published(img, f)])
        && (!ok ==> (disk.files - {Tmp(path)} == old(disk.files) - {Tmp(path)}
                     || disk.files - {Tmp(path)} == old(disk.files) - {Tmp(path), path}))
        && (IsDest(path) ==>
              Run(State(old(disk.files), map[], log), Schedule(path, img, f))
              == State(disk.files, map[], log[path := Logged(log, path) + {img}]))
  {
    if pixels.None? || width <= 0 || width > MAX_DIM || height <= 0 || height > MAX_DIM
       || channels <= 0 || channels > MAX_CHANNELS {
      return false;
    }
    hide Encode, IsDest, Tmp, Run, Schedule, Published;
    var img := Image(width, height, channels, pixels.value);
    TmpIsNew(path);
    if IsDest(path) {
      CallRuns(disk.files, log, path, img, f);
    }
    var good := WriteTmp(disk, path, img, f);
    if !good {
      return false;
    }
    ok := Publish(disk, path, f);
  }

  /** The temporary file: opened, written, and closed; removed again when the stream reports a failure. */
  method WriteTmp(disk: Disk, path: Path, img: Image, f: Faults) returns (good: bool)
    requires Wellformed(img)
    modifies disk
    ensures good <==> !f.open && !f.stream
    ensures good ==> disk.files == old(disk.files)[Tmp(path) := Published(img, f)]
    ensures !good ==> disk.files == AfterCall(old(disk.files), path, img, f)
    ensures disk.files - {Tmp(path)} == old(disk.files) - {Tmp(path)}
  {
    hide Encode, Tmp, AfterPublish;
    var tmp := Tmp(path);
    if f.open {
      return false;
    }
    var out := Serialize(img);
    ghost var m := disk.files;
    disk.files := disk.files[tmp := []];
    disk.files := disk.files[tmp := out[..Cut(f.flushed, out)]];
    assert disk.files == m[tmp := out[..Cut(f.flushed, out)]];
    if f.stream {
      if !f.cleanup {
        disk.files := disk.files - {tmp};
        assert disk.files == m - {tmp};
      }
      return false;
    }
    disk.files := disk.files[tmp := out[..Cut(f.flushed + f.kept, out)]];
    return true;
  }

  /** The old file is removed, then the temporary one renamed over it. */
  method Publish(disk: Disk, path: Path, f: Faults) returns (ok: bool)
    requires Tmp(path) in disk.files && Tmp(path) != path
    modifies disk
    ensures ok <==> !f.rename
    ensures disk.files == AfterPublish(old(disk.files), path, f)
    ensures ok ==> disk.files == (old(disk.files) - {Tmp(path)})[path := old(disk.files)[Tmp(path)]]
    ensures !ok ==> (disk.files - {Tmp(path)} == old(disk.files) - {Tmp(path)}
                     || disk.files - {Tmp(path)} == old(disk.files) - {Tmp(path), path})
  {
    hide Tmp;
    var tmp := Tmp(path);
    if !f.remove {
      disk.files := disk.files - {path};
    }
    if f.rename {
      if !f.cleanup {
        disk.files := disk.files - {tmp};
      }
      return false;
    }
    disk.files := (disk.files - {tmp})[path := disk.files[tmp]];
    return true;
  }

  lemma TmpIsNew(p: Path)
    ensures Tmp(p) != p
  {
    TmpLength(p);
  }

  lemma TmpLength(p: Path)
    ensures |Tmp(p)| == |p| + 4
  {
  }

  /** What a call that reported success left behind reads as its image exactly when no byte was lost at close. */
  lemma PublishedReadsIff(img: Image, kept: nat)
    requires Wellformed(img)
    ensures Parse(Encode(img)[..Cut(kept, Encode(img))]) == Ok(img) <==> kept >= |Encode(img)|
  {
    PrefixReadsWhole(img, Encode(img)[..Cut(kept, Encode(img))]);
  }

  /** Unless the cleanup itself fails, a call that got as far as opening it leaves no temporary file behind; one that
      did not leaves the files alone. */
  lemma NoTemporaryLeft(files: map<Path, seq<byte>>, p: Path, img: Image, f: Faults)
    requires Wellformed(img)
    ensures f.open ==> AfterCall(files, p, img, f) == files
    ensures !f.open && (!f.cleanup || (!f.stream && !f.rename)) ==> p + ".tmp" !in AfterCall(files, p, img, f)
  {
    hide Encode;
    TmpIsNew(p);
  }
}
