/**
 The bake and cache machine of AISmartFill, as functions on its state. Between any two of the Op's own reads and
 writes the worker it launched, and other nodes sharing the cache directory, may act; each operation takes the
 lists of such acts as arguments.
 */
module SmartFill {
  import opened Bytes
  import opened ImageCodec
  import P = ImagePublish
  import opened OpKeys
  import W = AiWorker
  import CacheKey
  import Sha256Stream

  type Key = string

  function ResultPath(dir: string, key: Key): Option<P.Path> {
    if dir == "" || key == "" then None else Some(dir + "/" + key + ".aifill")
  }

  function KeyFor(c: FillConfig): Key {
    CacheKey.KeyOf(FillKeyFields(c))
  }

  /** The task handed to the worker, and the image it has passed to the cache once it has. */
  datatype Job = Job(key: Key, path: Option<P.Path>, width: int, height: int, published: Option<Image>)

  /** The Op's fields, its worker, the cache files, and for every key the images written by bakes launched under it. */
  datatype State = State(
    dir: string, config: FillConfig,
    currentKey: Key, loadedKey: Key, bakingKey: Key,
    pixels: seq<u32>, width: int, height: int,
    worker: W.WorkerState, job: Option<Job>,
    files: map<P.Path, seq<byte>>, log: map<Key, set<Image>>)

  // ---- What others do ----

  datatype Act =
    | Publishes(img: Image, kept: nat)
    | Ends(final: W.WorkerState)
    | OtherPublishes(dir: string, key: Key, img: Image, kept: nat)
    | OtherRemoves(path: P.Path)

  predicate Bakeable(img: Image) {
    Wellformed(img) && img.channels == 3
  }

  function Written(log: map<Key, set<Image>>, key: Key): set<Image> {
    if key in log then log[key] else {}
  }

  function Publish(s: State, path: P.Path, key: Key, img: Image, kept: nat): State
    requires Wellformed(img)
  {
    s.(files := s.files[path := Encode(img)[..P.Cut(kept, Encode(img))]],
       log := s.log[key := Written(s.log, key) + {img}])
  }

  /** One act. The worker's task passes one image of the baked size to the cache; it ends Done or Cancelled only after
      that. */
  function DoAct(s: State, a: Act): State {
    match a
    case Publishes(img, kept) =>
      if s.worker.Running? && s.job.Some? && s.job.value.path.Some? && s.job.value.published.None?
         && Bakeable(img) && img.width == s.job.value.width && img.height == s.job.value.height
      then
        var s1 := Publish(s, s.job.value.path.value, s.job.value.key, img, kept);
        s1.(job := Some(s.job.value.(published := Some(img))))
      else s
    case Ends(final) =>
      if s.worker.Running? && s.job.Some?
        && (final.Error? || ((final.Done? || final.Cancelled?) && s.job.value.published.Some?))
      then s.(worker := final)
      else s
    case OtherPublishes(dir, key, img, kept) =>
      if ResultPath(dir, key).Some? && Sha256Stream.HexKey(key) && Bakeable(img)
      then Publish(s, ResultPath(dir, key).value, key, img, kept)
      else s
    case OtherRemoves(path) => s.(files := s.files - {path})
  }

  function DoActs(s: State, acts: seq<Act>): State
    decreases |acts|
  {
    if acts == [] then s else DoActs(DoAct(s, acts[0]), acts[1..])
  }

  lemma ActsOfOne(s: State, a: Act)
    ensures DoActs(s, [a]) == DoAct(s, a)
  {
    assert [a][1..] == [];
    assert DoActs(DoAct(s, a), []) == DoAct(s, a);
  }

  // ---- What the Op does ----

  function ClearBuffer(s: State): State {
    s.(pixels := [], width := 0, height := 0, loadedKey := "")
  }

  function PollWorker(s: State): State {
    match s.worker
    case Idle => s
    case Running => s
    case Done =>
      var s1 := s.(worker := W.Idle, job := None);
      (if s1.loadedKey != s1.bakingKey then ClearBuffer(s1) else s1).(bakingKey := "")
    case Error => s.(worker := W.Idle, job := None, bakingKey := "")
    case Cancelled => s.(worker := W.Idle, job := None, bakingKey := "")
  }

  /** `acts` happen between the existence test and the read. */
  function TryLoad(s: State, key: Key, acts: seq<Act>): State {
    if key == "" then ClearBuffer(s)
    else if key == s.loadedKey && s.pixels != [] then s
    else
      var path := ResultPath(s.dir, key);
      if path.None? then s
      else if path.value !in s.files then ClearBuffer(s)
      else
        var s1 := DoActs(s, acts);
        match (if path.value in s1.files then Parse(s1.files[path.value]) else Fail(CannotOpen))
        case Fail(_) => ClearBuffer(s1)
        case Ok(img) => s1.(pixels := img.pixels, width := img.width, height := img.height, loadedKey := key)
  }

  function Validate(s: State, acts1: seq<Act>, acts2: seq<Act>): State {
    var s1 := DoActs(PollWorker(s), acts1);
    var s2 := s1.(currentKey := KeyFor(s1.config));
    TryLoad(s2, s2.currentKey, acts2)
  }

  /** The circumstances of a press on Bake: connected inputs, source size, whether Nuke reruns _validate, whether
      both inputs are images, and what others do meanwhile. */
  datatype Press = Press(source: bool, mask: bool, width: int, height: int, validates: bool, iops: bool,
                         acts1: seq<Act>, acts2: seq<Act>, acts3: seq<Act>, acts4: seq<Act>)

  function Launch(s: State, key: Key, p: Press): State {
    s.(bakingKey := key, currentKey := key, worker := W.Running,
       job := Some(Job(key, ResultPath(s.dir, key), p.width, p.height, None)))
  }

  /** The state in which start_bake tests for an existing result. */
  function BeforeBake(s: State, p: Press): State {
    var s1 := if s.worker.Idle? then s else s.(worker := W.Idle, job := None);
    if p.validates then Validate(s1, p.acts1, p.acts2) else s1
  }

  predicate Hit(s: State, key: Key) {
    ResultPath(s.dir, key).Some? && ResultPath(s.dir, key).value in s.files
  }

  predicate Launches(s: State, p: Press) {
    && !s.worker.Running? && p.source && p.mask && p.width > 0 && p.height > 0 && p.iops
    && var s2 := BeforeBake(s, p); !Hit(s2, KeyFor(s2.config))
  }

  function StartBake(s: State, p: Press): State {
    if s.worker.Running? then s
    else
      var s1 := if s.worker.Idle? then s else s.(worker := W.Idle, job := None);
      if !p.source || !p.mask then s1
      else
        var s2 := BeforeBake(s, p);
        if p.width <= 0 || p.height <= 0 then s2
        else
          var key := KeyFor(s2.config);
          if Hit(s2, key) then TryLoad(s2.(currentKey := key), key, p.acts3)
          else if !p.iops then s2
          else Launch(DoActs(s2, p.acts4), key, p)
  }

  /** `removed` are the files whose removal succeeded. */
  function ClearCacheDir(s: State, isDirectory: bool, removed: set<P.Path>): State {
    if s.dir == "" || !isDirectory then s
    else ClearBuffer(s.(files := s.files - (set p | p in removed && InCacheDir(s.dir, p))))
  }

  predicate InCacheDir(dir: string, p: P.Path) {
    |p| > |dir| + 8 && p[..|dir|] == dir && p[|dir|] == '/' && p[|p| - 7..] == ".aifill"
    && forall i :: |dir| < i < |p| ==> p[i] != '/'
  }

  datatype Event =
    | Knobs(dir: string, config: FillConfig)
    | Validates(acts1: seq<Act>, acts2: seq<Act>)
    | Bakes(press: Press)
    | Clears(isDirectory: bool, removed: set<P.Path>)
    | Others(act: Act)

  function Handle(s: State, e: Event): State {
    match e
    case Knobs(dir, config) => s.(dir := dir, config := config)
    case Validates(acts1, acts2) => Validate(s, acts1, acts2)
    case Bakes(p) => StartBake(s, p)
    case Clears(d, removed) => ClearCacheDir(s, d, removed)
    case Others(a) => DoAct(s, a)
  }

  function Run(s: State, events: seq<Event>): State {
    if events == [] then s else Handle(Run(s, events[..|events| - 1]), events[|events| - 1])
  }

  // ---- engine ----

  /** The image bounding box's lower left corner. */
  datatype Origin = Origin(x: int, y: int)

  datatype Channel = Red | Green | Blue | Alpha | OtherChannel

  function ChannelIndex(c: Channel): int {
    match c
    case Red => 0
    case Green => 1
    case Blue => 2
    case _ => -1
  }

  predicate UsesCache(s: State) {
    s.pixels != [] && s.width > 0 && s.height > 0 && s.loadedKey != "" && s.loadedKey == s.currentKey
  }

  /** Column cx, row cy, channel k of an HWC buffer. */
  function Offset(cy: int, cx: int, width: int, k: int): int {
    cy * width * 3 + (cx * 3 + k)
  }

  predicate Covers(s: State, o: Origin, c: Channel, y: int, x: int) {
    ChannelIndex(c) >= 0 && 0 <= y - o.y < s.height && 0 <= x - o.x < s.width
  }

  /** What engine() puts out at column x, row y of channel c over a source sample. */
  function EngineSample(s: State, o: Origin, c: Channel, y: int, x: int, src: u32): u32
    requires Shaped(s)
  {
    if UsesCache(s) && Covers(s, o, c, y, x) then
      OffsetInside(s.height, s.width, y - o.y, x - o.x, ChannelIndex(c));
      s.pixels[Offset(y - o.y, x - o.x, s.width, ChannelIndex(c))]
    else src
  }

  predicate Shaped(s: State) {
    UsesCache(s) ==> |s.pixels| == s.width * s.height * 3
  }

  lemma OffsetInside(height: int, width: int, cy: int, cx: int, k: int)
    requires 0 <= cy < height && 0 <= cx < width && 0 <= k < 3
    ensures 0 <= Offset(cy, cx, width, k) < width * height * 3
  {
    assert cy * width <= (height - 1) * width;
    assert cy * width * 3 + 3 * width <= height * width * 3;
  }

  // ---- The invariant ----

  /** Every cache file is a cut of an image written by a bake launched under the key in its name. */
  ghost predicate FilesOk(s: State) {
    forall dir: string, key: Key {:trigger ResultPath(dir, key)} ::
      Sha256Stream.HexKey(key) && ResultPath(dir, key).Some? && ResultPath(dir, key).value in s.files ==>
        P.CutOf(s.files[ResultPath(dir, key).value], Written(s.log, key))
  }

  predicate LogOk(s: State) {
    forall key, img :: key in s.log && img in s.log[key] ==> Bakeable(img)
  }

  predicate Holds(s: State, img: Image) {
    s.pixels == img.pixels && s.width == img.width && s.height == img.height
  }

  predicate BufferOk(s: State) {
    if s.loadedKey == "" then s.pixels == [] && s.width == 0 && s.height == 0
    else exists img :: img in Written(s.log, s.loadedKey) && Holds(s, img)
  }

  ghost predicate WorkerOk(s: State) {
    && (!s.worker.Idle? ==>
        s.bakingKey != "" && s.job.Some? && s.job.value.key == s.bakingKey
        && Sha256Stream.HexKey(s.bakingKey)
        && exists dir :: s.job.value.path == ResultPath(dir, s.bakingKey))
    && (s.worker.Done? || s.worker.Cancelled? ==> s.job.value.published.Some?)
    && (s.job.Some? && s.job.value.published.Some? ==>
        s.job.value.published.value in Written(s.log, s.job.value.key))
  }

  ghost predicate Inv(s: State) {
    FilesOk(s) && LogOk(s) && BufferOk(s) && WorkerOk(s)
  }

  /** A new Op in a directory left by earlier sessions. */
  ghost predicate Initial(s: State) {
    && s.currentKey == s.loadedKey == s.bakingKey == "" && s.pixels == [] && s.width == s.height == 0
    && s.worker.Idle? && s.job.None? && FilesOk(s) && LogOk(s)
  }

  // ---- Cache file names ----

  lemma ResultPathInjective(d1: string, k1: Key, d2: string, k2: Key)
    requires |k1| == |k2| == 64
    requires ResultPath(d1, k1).Some? && ResultPath(d1, k1) == ResultPath(d2, k2)
    ensures d1 == d2 && k1 == k2
  {
    var p1, p2 := ResultPath(d1, k1).value, ResultPath(d2, k2).value;
    var n := |d1|;
    assert n == |d2|;
    assert d1 == p1[..n] == p2[..n] == d2;
    assert k1 == p1[n + 1..n + 65] == p2[n + 1..n + 65] == k2;
  }

  // ---- Preservation ----

  lemma PublishKeeps(s: State, dir: string, key: Key, img: Image, kept: nat)
    requires FilesOk(s) && LogOk(s) && Bakeable(img) && Sha256Stream.HexKey(key) && ResultPath(dir, key).Some?
    ensures var s' := Publish(s, ResultPath(dir, key).value, key, img, kept); FilesOk(s') && LogOk(s')
  {
    hide Encode, ResultPath;
    var path := ResultPath(dir, key).value;
    var s' := Publish(s, path, key, img, kept);
    forall d: string, k: Key | Sha256Stream.HexKey(k) && ResultPath(d, k).Some? && ResultPath(d, k).value in s'.files
      ensures P.CutOf(s'.files[ResultPath(d, k).value], Written(s'.log, k))
    {
      if ResultPath(d, k).value == path {
        ResultPathInjective(d, k, dir, key);
        assert img in Written(s'.log, k) && s'.files[path] <= Encode(img);
      } else {
        var i :| i in Written(s.log, k) && Wellformed(i) && s.files[ResultPath(d, k).value] <= Encode(i);
        assert i in Written(s'.log, k);
      }
    }
  }

  lemma BufferKept(s: State, s': State)
    requires BufferOk(s)
    requires s'.pixels == s.pixels && s'.width == s.width && s'.height == s.height && s'.loadedKey == s.loadedKey
    requires Written(s.log, s.loadedKey) <= Written(s'.log, s.loadedKey)
    ensures BufferOk(s')
  {
    if s.loadedKey != "" {
      var img :| img in Written(s.log, s.loadedKey) && Holds(s, img);
      assert img in Written(s'.log, s'.loadedKey) && Holds(s', img);
    }
  }

  lemma InvAct(s: State, a: Act)
    requires Inv(s)
    ensures Inv(DoAct(s, a))
  {
    hide Encode, ResultPath, FilesOk, LogOk, BufferOk;
    var s' := DoAct(s, a);
    if s' != s {
      match a {
        case Publishes(img, kept) =>
          var dir :| s.job.value.path == ResultPath(dir, s.bakingKey);
          PublishKeeps(s, dir, s.bakingKey, img, kept);
          SameFiles(Publish(s, s.job.value.path.value, s.job.value.key, img, kept), s');
          BufferKept(s, s');
          assert s'.job.value.path == ResultPath(dir, s'.bakingKey);
        case Ends(_) =>
          SameFiles(s, s');
          BufferKept(s, s');
        case OtherPublishes(dir, key, img, kept) =>
          PublishKeeps(s, dir, key, img, kept);
          BufferKept(s, s');
        case OtherRemoves(path) =>
          FewerFiles(s, s');
          BufferKept(s, s');
      }
    }
  }

  lemma SameFiles(s: State, s': State)
    requires FilesOk(s) && LogOk(s) && s'.files == s.files && s'.log == s.log
    ensures FilesOk(s') && LogOk(s')
  {
  }

  lemma FewerFiles(s: State, s': State)
    requires FilesOk(s) && LogOk(s) && s'.log == s.log
    requires forall p :: p in s'.files ==> p in s.files && s'.files[p] == s.files[p]
    ensures FilesOk(s') && LogOk(s')
  {
  }

  lemma {:induction false} InvActs(s: State, acts: seq<Act>)
    requires Inv(s)
    ensures Inv(DoActs(s, acts))
    decreases |acts|
  {
    if acts != [] {
      InvAct(s, acts[0]);
      InvActs(DoAct(s, acts[0]), acts[1..]);
    }
  }

  lemma InvClear(s: State)
    requires Inv(s)
    ensures Inv(ClearBuffer(s))
  {
    hide FilesOk, LogOk;
    SameFiles(s, ClearBuffer(s));
  }

  lemma InvPoll(s: State)
    requires Inv(s)
    ensures Inv(PollWorker(s))
  {
    hide FilesOk, LogOk, BufferOk;
    var s' := PollWorker(s);
    SameFiles(s, s');
    InvClear(s);
    if s'.loadedKey == s.loadedKey && s'.pixels == s.pixels && s'.width == s.width && s'.height == s.height {
      BufferKept(s, s');
    } else {
      BufferKept(ClearBuffer(s), s');
    }
  }

  lemma InvTryLoad(s: State, key: Key, acts: seq<Act>)
    requires Inv(s) && Sha256Stream.HexKey(key)
    ensures Inv(TryLoad(s, key, acts))
    ensures TryLoad(s, key, acts).worker == DoActs(s, acts).worker || TryLoad(s, key, acts).worker == s.worker
  {
    hide Parse, Encode, DoActs, LogOk;
    InvActs(s, acts);
    InvClear(s);
    var path := ResultPath(s.dir, key);
    var s1 := DoActs(s, acts);
    InvClear(s1);
    DoActsKeeps(s, acts);
    var s' := TryLoad(s, key, acts);
    if path.Some? && path.value in s1.files && Parse(s1.files[path.value]).Ok? {
      var img :| img in Written(s1.log, key) && Wellformed(img) && s1.files[path.value] <= Encode(img);
      PrefixReadsWhole(img, s1.files[path.value]);
      if s' != s && s' != ClearBuffer(s) {
        SameFiles(s1, s');
        assert Holds(s', img) && img in Written(s'.log, s'.loadedKey);
      }
    }
  }

  /** Others touch neither the Op's own fields nor an idle worker. */
  lemma {:induction false} DoActsKeeps(s: State, acts: seq<Act>)
    ensures
      var s' := DoActs(s, acts);
      && s' == s.(worker := s'.worker, job := s'.job, files := s'.files, log := s'.log)
      && (s.worker.Idle? ==> s'.worker.Idle? && s'.job == s.job)
      && (forall key, img :: img in Written(s.log, key) ==> img in Written(s'.log, key))
    decreases |acts|
  {
    if acts != [] {
      hide Encode, ResultPath;
      DoActsKeeps(DoAct(s, acts[0]), acts[1..]);
    }
  }

  lemma InvSetCurrent(s: State, key: Key)
    requires Inv(s)
    ensures Inv(s.(currentKey := key))
  {
    hide FilesOk, LogOk, BufferOk;
    SameFiles(s, s.(currentKey := key));
    BufferKept(s, s.(currentKey := key));
  }

  lemma KeyForIsHex(c: FillConfig)
    ensures Sha256Stream.HexKey(KeyFor(c)) && KeyFor(c) != ""
  {
    CacheKey.KeysAreHexKeys(FillKeyFields(c), []);
  }

  lemma InvValidate(s: State, acts1: seq<Act>, acts2: seq<Act>)
    requires Inv(s)
    ensures Inv(Validate(s, acts1, acts2))
    ensures s.worker.Idle? ==> Validate(s, acts1, acts2).worker.Idle?
  {
    hide Inv, DoActs, TryLoad, KeyFor;
    InvPoll(s);
    InvActs(PollWorker(s), acts1);
    DoActsKeeps(PollWorker(s), acts1);
    var s1 := DoActs(PollWorker(s), acts1);
    KeyForIsHex(s1.config);
    InvSetCurrent(s1, KeyFor(s1.config));
    var s2 := s1.(currentKey := KeyFor(s1.config));
    DoActsKeeps(s2, acts2);
    InvTryLoad(s2, s2.currentKey, acts2);
  }

  lemma InvIdled(s: State)
    requires Inv(s)
    ensures Inv(s.(worker := W.Idle, job := None))
  {
    hide FilesOk, LogOk, BufferOk;
    SameFiles(s, s.(worker := W.Idle, job := None));
    BufferKept(s, s.(worker := W.Idle, job := None));
  }

  lemma InvLaunch(s: State, key: Key, p: Press)
    requires Inv(s) && Sha256Stream.HexKey(key)
    ensures Inv(Launch(s, key, p))
  {
    hide FilesOk, LogOk, BufferOk, ResultPath;
    SameFiles(s, Launch(s, key, p));
    BufferKept(s, Launch(s, key, p));
    assert Launch(s, key, p).job.value.path == ResultPath(s.dir, key);
  }

  lemma BeforeBakeIdle(s: State, p: Press)
    requires Inv(s) && !s.worker.Running?
    ensures Inv(BeforeBake(s, p)) && BeforeBake(s, p).worker.Idle?
  {
    hide Inv, Validate;
    InvIdled(s);
    var s1 := if s.worker.Idle? then s else s.(worker := W.Idle, job := None);
    InvValidate(s1, p.acts1, p.acts2);
  }

  lemma InvStartBake(s: State, p: Press)
    requires Inv(s)
    ensures Inv(StartBake(s, p))
  {
    hide Inv, DoActs, TryLoad, KeyFor, BeforeBake, Hit;
    InvIdled(s);
    if !s.worker.Running? {
      BeforeBakeIdle(s, p);
      var s2 := BeforeBake(s, p);
      var key := KeyFor(s2.config);
      KeyForIsHex(s2.config);
      InvSetCurrent(s2, key);
      InvTryLoad(s2.(currentKey := key), key, p.acts3);
      InvActs(s2, p.acts4);
      InvLaunch(DoActs(s2, p.acts4), key, p);
    }
  }

  lemma InvHandle(s: State, e: Event)
    requires Inv(s)
    ensures Inv(Handle(s, e))
  {
    hide FilesOk, LogOk, BufferOk, Validate, StartBake, DoAct, InCacheDir;
    match e {
      case Knobs(dir, config) =>
        SameFiles(s, Handle(s, e));
        BufferKept(s, Handle(s, e));
      case Validates(acts1, acts2) => InvValidate(s, acts1, acts2);
      case Bakes(p) => InvStartBake(s, p);
      case Clears(isDirectory, removed) =>
        var s1 := s.(files := s.files - (set p | p in removed && InCacheDir(s.dir, p)));
        FewerFiles(s, s1);
        BufferKept(s, s1);
        InvClear(s1);
      case Others(a) => InvAct(s, a);
    }
  }

  lemma {:induction false} InvRun(s: State, events: seq<Event>)
    requires Inv(s)
    ensures Inv(Run(s, events))
  {
    if events != [] {
      hide Inv, Handle;
      InvRun(s, events[..|events| - 1]);
      InvHandle(Run(s, events[..|events| - 1]), events[|events| - 1]);
    }
  }

  lemma InitialInv(s: State)
    requires Initial(s)
    ensures Inv(s)
  {
  }

  // ---- What every session keeps ----

  /** After any events, either the engine passes the source through everywhere, or there is one image, written by a
      bake launched under exactly the current key, that it shows wherever the image covers, and the source elsewhere. */
  lemma EngineShowsCurrentBake(s: State, events: seq<Event>)
    requires Initial(s)
    ensures
      var s' := Run(s, events);
      if !UsesCache(s') then Shaped(s') && forall o, c, y, x, src :: EngineSample(s', o, c, y, x, src) == src
      else exists img :: img in Written(s'.log, s'.currentKey) && Bakeable(img) && Shaped(s') && Shows(s', img)
  {
    hide FilesOk, WorkerOk, Run, Offset, Covers;
    InitialInv(s);
    InvRun(s, events);
    var s' := Run(s, events);
    if UsesCache(s') {
      var img :| img in Written(s'.log, s'.loadedKey) && Holds(s', img);
      assert Bakeable(img);
      assert Shows(s', img);
    }
  }

  function PixelAt(img: Image, cy: int, cx: int, k: int): u32
    requires Bakeable(img) && 0 <= cy < img.height && 0 <= cx < img.width && 0 <= k < 3
  {
    OffsetInside(img.height, img.width, cy, cx, k);
    img.pixels[Offset(cy, cx, img.width, k)]
  }

  /** The engine shows the pixels of img where it covers and the source elsewhere. */
  ghost predicate Shows(s: State, img: Image)
    requires Bakeable(img) && Shaped(s)
  {
    && Holds(s, img)
    && forall o, c, y, x, src :: EngineSample(s, o, c, y, x, src) ==
         if Covers(s, o, c, y, x) then PixelAt(img, y - o.y, x - o.x, ChannelIndex(c)) else src
  }

  /** A bake that gets as far as worker_.start finds the worker Idle, so it is never refused; and a worker that is
      not Idle always has the key it is baking. */
  lemma BakeNeverRefused(s: State, events: seq<Event>, p: Press)
    requires Initial(s)
    ensures
      var s' := Run(s, events);
      && (!s'.worker.Idle? ==> s'.bakingKey != "" && s'.job.Some? && s'.job.value.key == s'.bakingKey)
      && (Launches(s', p) ==>
          && DoActs(BeforeBake(s', p), p.acts4).worker.Idle?
          && StartBake(s', p).worker.Running? && StartBake(s', p).currentKey == StartBake(s', p).bakingKey)
  {
    hide FilesOk, LogOk, BufferOk, Run, BeforeBake, DoActs, KeyFor, Hit;
    InitialInv(s);
    InvRun(s, events);
    var s' := Run(s, events);
    if !s'.worker.Running? {
      BeforeBakeIdle(s', p);
      DoActsKeeps(BeforeBake(s', p), p.acts4);
    }
  }
}
