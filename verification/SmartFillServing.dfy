/** When a finished bake is shown: exactly when the buffer does not already hold another image for the baked key. */
module SmartFillServing {
  import opened Bytes
  import opened ImageCodec
  import P = ImagePublish
  import opened SmartFill
  import opened OpKeys
  import W = AiWorker

  // ---- A session in which nobody else touches the launched bake's file ----

  /** The worker's own acts, with no byte lost at close, and any acts of other nodes on other files. */
  predicate Apart(a: Act, path: P.Path) {
    match a
    case Ends(_) => true
    case Publishes(img, kept) => Wellformed(img) ==> kept >= |Encode(img)|
    case OtherPublishes(dir, key, _, _) => ResultPath(dir, key) != Some(path)
    case OtherRemoves(p) => p != path
  }

  predicate AllApart(acts: seq<Act>, path: P.Path) {
    forall i :: 0 <= i < |acts| ==> Apart(acts[i], path)
  }

  predicate Quiet(e: Event, path: P.Path) {
    match e
    case Validates(acts1, acts2) => AllApart(acts1, path) && AllApart(acts2, path)
    case Others(a) => Apart(a, path)
    case _ => false
  }

  predicate AllQuiet(events: seq<Event>, path: P.Path) {
    forall i :: 0 <= i < |events| ==> Quiet(events[i], path)
  }

  /** A bake has just been launched and its result file does not exist. */
  predicate JustLaunched(s: State) {
    && s.worker.Running? && s.job.Some? && s.job.value.published.None?
    && s.bakingKey == s.currentKey == s.job.value.key == KeyFor(s.config)
    && s.job.value.path == ResultPath(s.dir, s.bakingKey)
    && s.job.value.path.Some? && s.job.value.path.value !in s.files
  }

  /** The buffer already holds an image for the key being baked. */
  predicate Warm(s: State) {
    s.loadedKey == s.bakingKey && s.pixels != []
  }

  predicate SameBuffer(s: State, t: State) {
    s.pixels == t.pixels && s.width == t.width && s.height == t.height && s.loadedKey == t.loadedKey
  }

  /** The bake launched in s0 has not been polled yet. */
  predicate Waiting(s0: State, s: State)
    requires JustLaunched(s0)
  {
    var path := s0.job.value.path.value;
    && s.dir == s0.dir && s.config == s0.config && s.bakingKey == s0.bakingKey
    && !s.worker.Idle? && s.job.Some?
    && s.job.value == s0.job.value.(published := s.job.value.published)
    && (s.worker.Done? || s.worker.Cancelled? ==> s.job.value.published.Some?)
    && (match s.job.value.published
        case None => path !in s.files
        case Some(img) => Bakeable(img) && path in s.files && s.files[path] == Encode(img))
    && (Warm(s0) ==> SameBuffer(s, s0))
    && (!Warm(s0) && s.loadedKey == s0.bakingKey && s.pixels != [] ==>
        s.job.value.published.Some? && Holds(s, s.job.value.published.value))
  }

  predicate SameKnobs(s: State, t: State) {
    s.dir == t.dir && s.config == t.config
  }

  lemma TryLoadKeepsKnobs(s: State, key: Key, acts: seq<Act>)
    ensures SameKnobs(TryLoad(s, key, acts), s)
  {
    hide DoActs, ResultPath, Parse;
    DoActsKeeps(s, acts);
  }

  lemma PollKeepsKnobs(s: State)
    ensures SameKnobs(PollWorker(s), s)
  {
  }

  lemma ValidateKeepsKnobs(s: State, acts1: seq<Act>, acts2: seq<Act>)
    ensures SameKnobs(Validate(s, acts1, acts2), s)
  {
    hide DoActs, KeyFor, TryLoad, PollWorker;
    PollKeepsKnobs(s);
    DoActsKeeps(PollWorker(s), acts1);
    var s1 := DoActs(PollWorker(s), acts1);
    TryLoadKeepsKnobs(s1.(currentKey := KeyFor(s1.config)), KeyFor(s1.config), acts2);
  }

  /** Every press that reaches the worker, with a cache directory set and nobody creating the file between the test for
      it and the launch, is such a launch. */
  lemma PressLaunches(s: State, p: Press)
    requires Inv(s) && Launches(s, p) && s.dir != ""
    requires forall path :: Some(path) == ResultPath(s.dir, KeyFor(s.config)) ==> AllApart(p.acts4, path)
    ensures Inv(StartBake(s, p)) && JustLaunched(StartBake(s, p))
  {
    hide Inv, DoActs, KeyFor, Validate, AllApart;
    KeyForIsHex(s.config);
    InvStartBake(s, p);
    BeforeBakeIdle(s, p);
    var s1 := if s.worker.Idle? then s else s.(worker := W.Idle, job := None);
    ValidateKeepsKnobs(s1, p.acts1, p.acts2);
    var s2 := BeforeBake(s, p);
    DoActsKeeps(s2, p.acts4);
    IdleActsKeepFile(s2, p.acts4, ResultPath(s.dir, KeyFor(s.config)).value);
  }

  lemma WaitingAct(s0: State, s: State, a: Act)
    requires JustLaunched(s0) && Waiting(s0, s) && Apart(a, s0.job.value.path.value)
    ensures Waiting(s0, DoAct(s, a))
  {
    hide Encode, KeyFor, ResultPath;
    if a.Publishes? && Wellformed(a.img) {
      assert Encode(a.img)[..P.Cut(a.kept, Encode(a.img))] == Encode(a.img);
    }
  }

  lemma {:induction false} WaitingActs(s0: State, s: State, acts: seq<Act>)
    requires JustLaunched(s0) && Waiting(s0, s) && AllApart(acts, s0.job.value.path.value)
    ensures Waiting(s0, DoActs(s, acts))
    decreases |acts|
  {
    if acts != [] {
      hide Waiting, DoAct, Apart, ResultPath, KeyFor;
      var path := s0.job.value.path.value;
      assert Apart(acts[0], path);
      WaitingAct(s0, s, acts[0]);
      assert AllApart(acts[1..], path);
      WaitingActs(s0, DoAct(s, acts[0]), acts[1..]);
    }
  }

  lemma WaitingTryLoad(s0: State, s: State, acts: seq<Act>)
    requires JustLaunched(s0) && Waiting(s0, s) && AllApart(acts, s0.job.value.path.value)
    ensures Waiting(s0, TryLoad(s, s0.bakingKey, acts))
  {
    hide Encode, Parse, KeyFor, ResultPath, DoActs;
    KeyForIsHex(s0.config);
    WaitingActs(s0, s, acts);
    DoActsKeeps(s, acts);
    var s1 := DoActs(s, acts);
    if s1.job.value.published.Some? {
      WriteThenRead(s1.job.value.published.value);
    }
  }

  /** With no bake under way nobody touches the file at all. */
  lemma {:induction false} IdleActsKeepFile(s: State, acts: seq<Act>, path: P.Path)
    requires s.worker.Idle? && AllApart(acts, path)
    ensures DoActs(s, acts).worker.Idle?
    ensures path in DoActs(s, acts).files <==> path in s.files
    ensures path in s.files ==> DoActs(s, acts).files[path] == s.files[path]
    decreases |acts|
  {
    if acts != [] {
      hide Encode, ResultPath;
      assert Apart(acts[0], path);
      IdleActsKeepFile(DoAct(s, acts[0]), acts[1..], path);
    }
  }

  lemma QuietStep(s0: State, s: State, e: Event)
    requires JustLaunched(s0) && Inv(s) && (s.worker.Idle? || Waiting(s0, s)) && Quiet(e, s0.job.value.path.value)
    ensures Handle(s, e).worker.Idle? || Waiting(s0, Handle(s, e))
  {
    hide Inv, Waiting, DoAct, Apart, TryLoad, DoActs, KeyFor, ResultPath;
    match e {
      case Others(a) =>
        if s.worker.Idle? {
          DoActsKeeps(s, [a]);
          ActsOfOne(s, a);
        } else {
          WaitingAct(s0, s, a);
        }
      case Validates(acts1, acts2) =>
        InvValidate(s, acts1, acts2);
        if s.worker.Running? {
          WaitingActs(s0, s, acts1);
          var s1 := DoActs(s, acts1);
          WaitingKey(s0, s1);
          WaitingTryLoad(s0, s1.(currentKey := s0.bakingKey), acts2);
        } else {
          ValidateIdles(s, acts1, acts2);
        }
    }
  }

  lemma ValidateIdles(s: State, acts1: seq<Act>, acts2: seq<Act>)
    requires !s.worker.Running?
    ensures Validate(s, acts1, acts2).worker.Idle?
  {
    hide DoActs, KeyFor, ResultPath, Parse;
    DoActsKeeps(PollWorker(s), acts1);
    var s1 := DoActs(PollWorker(s), acts1);
    DoActsKeeps(s1.(currentKey := KeyFor(s1.config)), acts2);
  }

  lemma WaitingKey(s0: State, s: State)
    requires JustLaunched(s0) && Waiting(s0, s)
    ensures KeyFor(s.config) == s0.bakingKey && Waiting(s0, s.(currentKey := s0.bakingKey))
  {
  }

  /** A safe state in which the bake launched in s0 is either over or still to be polled. */
  ghost predicate Follows(s0: State, s: State)
    requires JustLaunched(s0)
  {
    Inv(s) && (s.worker.Idle? || Waiting(s0, s))
  }

  lemma FollowsStep(s0: State, s: State, e: Event)
    requires JustLaunched(s0) && Follows(s0, s) && Quiet(e, s0.job.value.path.value)
    ensures Follows(s0, Handle(s, e))
  {
    hide Inv, Waiting, Handle, Quiet, ResultPath, KeyFor;
    InvHandle(s, e);
    QuietStep(s0, s, e);
  }

  lemma QuietBefore(events: seq<Event>, path: P.Path)
    requires AllQuiet(events, path) && events != []
    ensures AllQuiet(events[..|events| - 1], path) && Quiet(events[|events| - 1], path)
  {
    hide Quiet;
  }

  lemma {:induction false} QuietRun(s0: State, events: seq<Event>)
    requires Inv(s0) && JustLaunched(s0) && AllQuiet(events, s0.job.value.path.value)
    ensures Follows(s0, Run(s0, events))
  {
    if events == [] {
      StartsWaiting(s0);
    } else {
      hide Inv, JustLaunched, Follows, Handle, Quiet, AllQuiet;
      LaunchedPath(s0);
      QuietBefore(events, s0.job.value.path.value);
      QuietRun(s0, events[..|events| - 1]);
      FollowsStep(s0, Run(s0, events[..|events| - 1]), events[|events| - 1]);
    }
  }

  lemma LaunchedPath(s0: State)
    requires JustLaunched(s0)
    ensures s0.job.Some? && s0.job.value.path.Some?
  {
  }

  lemma StartsWaiting(s0: State)
    requires Inv(s0) && JustLaunched(s0)
    ensures Follows(s0, s0)
  {
    hide KeyFor, ResultPath, Inv;
  }

  lemma BufferHasSize(s: State)
    requires Inv(s) && s.loadedKey != ""
    ensures s.width > 0 && s.height > 0
  {
    hide FilesOk, WorkerOk;
    var img :| img in Written(s.log, s.loadedKey) && Holds(s, img);
    assert Bakeable(img);
  }

  /** A Done bake waits to be polled: the knobs still give its key and its file holds the image it wrote. */
  predicate Intact(s: State) {
    && s.worker.Done? && s.job.Some? && s.job.value.published.Some? && Bakeable(s.job.value.published.value)
    && s.bakingKey == KeyFor(s.config)
    && s.job.value.path == ResultPath(s.dir, s.bakingKey) && s.job.value.path.Some?
    && s.job.value.path.value in s.files
    && s.files[s.job.value.path.value] == Encode(s.job.value.published.value)
  }

  lemma PollServes(s: State, acts1: seq<Act>, acts2: seq<Act>)
    requires Inv(s) && Intact(s)
    requires AllApart(acts1, s.job.value.path.value) && AllApart(acts2, s.job.value.path.value)
    ensures
      var s2 := Validate(s, acts1, acts2);
      && s2.worker.Idle? && UsesCache(s2) && s2.currentKey == s.bakingKey
      && if Warm(s) then SameBuffer(s2, s) else Holds(s2, s.job.value.published.value)
  {
    hide Encode, Parse, KeyFor, ResultPath, DoActs, Inv;
    KeyForIsHex(s.config);
    if Warm(s) {
      BufferHasSize(s);
    }
    var img, path := s.job.value.published.value, s.job.value.path.value;
    WriteThenRead(img);
    CountPositive(img.width, img.height, img.channels);
    var p := PollWorker(s);
    DoActsKeeps(p, acts1);
    IdleActsKeepFile(p, acts1, path);
    var p1 := DoActs(p, acts1).(currentKey := s.bakingKey);
    DoActsKeeps(p1, acts2);
    IdleActsKeepFile(p1, acts2, path);
    assert Validate(s, acts1, acts2) == TryLoad(p1, s.bakingKey, acts2);
  }

  /** After any session whatever, presses, knob changes and clearings included: when a Done bake is polled with its file
      intact and its key current, the worker becomes Idle and the cache serves that key; and what is served is the new
      image exactly when the buffer did not hold the key, or held that very image. */
  lemma DonePollServesIffCold(s0: State, events: seq<Event>, acts1: seq<Act>, acts2: seq<Act>)
    requires Initial(s0) && Intact(Run(s0, events))
    requires
      var path := Run(s0, events).job.value.path.value;
      AllApart(acts1, path) && AllApart(acts2, path)
    ensures
      var s := Run(s0, events);
      var s2 := Validate(s, acts1, acts2);
      && s2.worker.Idle? && UsesCache(s2) && s2.currentKey == s.bakingKey
      && (Holds(s2, s.job.value.published.value) <==>
            !(s.loadedKey == s.bakingKey && s.pixels != []) || Holds(s, s.job.value.published.value))
  {
    hide Inv, Run, Intact, AllApart, Validate;
    InitialInv(s0);
    InvRun(s0, events);
    PollServes(Run(s0, events), acts1, acts2);
  }

  /** Once a launched bake is Done, the next _validate leaves the worker Idle and the cache serving the current key;
      what it serves is the new image exactly when the buffer did not hold that key at the launch (or held that very
      image). Meanwhile there may be validations, and other nodes may do anything but touch the bake's own file. */
  lemma DoneBakeServedIffCold(s0: State, events: seq<Event>, acts1: seq<Act>, acts2: seq<Act>)
    requires Inv(s0) && JustLaunched(s0) && AllQuiet(events, s0.job.value.path.value)
    requires AllApart(acts1, s0.job.value.path.value) && AllApart(acts2, s0.job.value.path.value)
    requires Run(s0, events).worker.Done?
    ensures
      var s1 := Run(s0, events);
      var s2 := Validate(s1, acts1, acts2);
      && s2.worker.Idle? && UsesCache(s2) && s2.currentKey == s0.bakingKey
      && s1.job.Some? && s1.job.value.published.Some?
      && var img := s1.job.value.published.value;
      (Holds(s2, img) <==> !Warm(s0) || Holds(s0, img))
  {
    hide Inv, Run, DoActs, TryLoad, KeyFor, Apart, ResultPath, Validate, Encode;
    QuietRun(s0, events);
    InvRun(s0, events);
    PollServes(Run(s0, events), acts1, acts2);
  }

  // ---- A session in which the new image is not shown ----

  /** One pixel, of the given bits. */
  function Dot(bits: u32): Image {
    Image(1, 1, 3, [bits, bits, bits])
  }

  const PRESS := Press(true, true, 1, 1, false, true, [], [], [], [])

  /** Point the cache at a directory, bake one image into it, and revalidate. */
  function Session(dir: string, c: FillConfig, bits: u32): seq<Event> {
    [Knobs(dir, c), Bakes(PRESS), Others(Publishes(Dot(bits), 40)), Others(Ends(W.Done)), Validates([], [])]
  }

  const EMPTY := State("", FillConfig(None, None, 0, 0, []), "", "", "", [], 0, 0, W.Idle, None, map[], map[])

  function DotFile(bits: u32): (b: seq<byte>)
    ensures |b| == 40
  {
    Encode(Dot(bits))
  }

  /** The state s when the bake for the key of c in dir has been pressed, has published its dot, and is Done. */
  function Baked(s: State, dir: string, c: FillConfig, bits: u32): State
    requires ResultPath(dir, KeyFor(c)).Some?
  {
    var key, path := KeyFor(c), ResultPath(dir, KeyFor(c));
    s.(dir := dir, config := c, currentKey := key, bakingKey := key, worker := W.Done,
       job := Some(Job(key, path, 1, 1, Some(Dot(bits)))),
       files := s.files[path.value := DotFile(bits)],
       log := s.log[key := Written(s.log, key) + {Dot(bits)}])
  }

  lemma RunSnoc(s: State, events: seq<Event>, e: Event)
    ensures Run(s, events + [e]) == Handle(Run(s, events), e)
  {
    assert (events + [e])[..|events|] == events;
  }

  lemma DotEncodes(bits: u32)
    ensures Bakeable(Dot(bits)) && DotFile(bits) == Encode(Dot(bits))
    ensures DotFile(bits)[..P.Cut(40, DotFile(bits))] == DotFile(bits)
    ensures Parse(DotFile(bits)) == Ok(Dot(bits))
  {
    WriteThenRead(Dot(bits));
  }

  /** The bake and publication of a session. */
  lemma SessionBakes(s: State, dir: string, c: FillConfig, bits: u32)
    requires s.worker.Idle? && ResultPath(dir, KeyFor(c)).Some? && ResultPath(dir, KeyFor(c)).value !in s.files
    ensures Handle(Handle(Handle(Handle(s, Knobs(dir, c)), Bakes(PRESS)), Others(Publishes(Dot(bits), 40))),
      Others(Ends(W.Done)))
         == Baked(s, dir, c, bits)
  {
    hide Encode, KeyFor, ResultPath, DotFile;
    DotEncodes(bits);
    var key := KeyFor(c);
    var s1 := Handle(s, Knobs(dir, c));
    var s2 := Handle(s1, Bakes(PRESS));
    assert s2 == Launch(s1, key, PRESS) by { assert DoActs(s1, []) == s1; }
    var s3 := Handle(s2, Others(Publishes(Dot(bits), 40)));
    assert s3.job.value.published == Some(Dot(bits));
  }

  lemma SessionShows(s: State, dir: string, c: FillConfig, bits: u32)
    requires s.worker.Idle? && ResultPath(dir, KeyFor(c)).Some? && ResultPath(dir, KeyFor(c)).value !in s.files
    ensures
      var key, s' := KeyFor(c), Run(s, Session(dir, c, bits));
      && s'.worker.Idle? && s'.currentKey == s'.loadedKey == key
      && s'.files == s.files[ResultPath(dir, key).value := DotFile(bits)]
      && if s.loadedKey == key && s.pixels != [] then SameBuffer(s', s) else Holds(s', Dot(bits))
  {
    hide Encode, Parse, KeyFor, ResultPath, Run, Handle, DotFile;
    var e1, e2, e3, e4: Event := Knobs(dir, c), Bakes(PRESS), Others(Publishes(Dot(bits), 40)), Others(Ends(W.Done));
    RunSnoc(s, [e1, e2, e3, e4], Validates([], []));
    RunSnoc(s, [e1, e2, e3], e4);
    RunSnoc(s, [e1, e2], e3);
    RunSnoc(s, [e1], e2);
    RunSnoc(s, [], e1);
    RunNothing(s);
    assert Session(dir, c, bits) == [e1, e2, e3, e4] + [Validates([], [])];
    assert [e1, e2, e3, e4] == [e1, e2, e3] + [e4] && [e1, e2, e3] == [e1, e2] + [e3] && [e1, e2] == [e1] + [e2]
      && [e1] == [] + [e1];
    SessionBakes(s, dir, c, bits);
    var s4 := Baked(s, dir, c, bits);
    ValidateHandles(s4);
    DotEncodes(bits);
    KeyForIsHex(c);
    assert DoActs(PollWorker(s4), []) == PollWorker(s4);
  }

  lemma RunNothing(s: State)
    ensures Run(s, []) == s
  {
  }

  lemma ValidateHandles(s: State)
    ensures Handle(s, Validates([], [])) == Validate(s, [], [])
  {
  }

  /** After a second session for the same key in another directory the file there holds the new image, the worker is
      Idle, and the engine still serves the first image. */
  lemma RebakeShowsOldImage(c: FillConfig)
    ensures Initial(EMPTY)
    ensures
      var s := Run(Run(EMPTY, Session("a", c, 0)), Session("b", c, 1));
      && s.worker.Idle? && UsesCache(s) && s.currentKey == KeyFor(c)
      && ResultPath("b", KeyFor(c)).Some? && ResultPath("b", KeyFor(c)).value in s.files
      && Parse(s.files[ResultPath("b", KeyFor(c)).value]) == Ok(Dot(1))
      && Holds(s, Dot(0)) && !Holds(s, Dot(1))
  {
    hide Encode, Parse, KeyFor, Run, Session, DotFile;
    KeyForIsHex(c);
    var key := KeyFor(c);
    ResultPathInjective("a", key, "a", key);
    SessionShows(EMPTY, "a", c, 0);
    var s1 := Run(EMPTY, Session("a", c, 0));
    if ResultPath("b", key) == ResultPath("a", key) {
      ResultPathInjective("b", key, "a", key);
    }
    SessionShows(s1, "b", c, 1);
    DotEncodes(1);
    assert Dot(0).pixels[0] != Dot(1).pixels[0];
  }
}
