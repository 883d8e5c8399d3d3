/** What the events of the bake machine do when nobody interferes, said of files, engine samples and presses. */
module SmartFillLaws {
  import opened Bytes
  import opened ImageCodec
  import opened SmartFill
  import opened SmartFillServing
  import P = ImagePublish
  import W = AiWorker
  import CacheKey
  import OpKeys
  import Sha256Spec
  import Sha256Stream

  /** The cache file of a key in a directory. */
  function FileOf(dir: string, key: Key): P.Path {
    dir + "/" + key + ".aifill"
  }

  lemma HexKeyHasNoSlash(key: Key)
    requires Sha256Stream.HexKey(key)
    ensures '/' !in key
  {
  }

  /** The files directly in the directory whose names end in .aifill, after at least one other character. */
  lemma InCacheDirIff(dir: string, q: P.Path)
    ensures InCacheDir(dir, q) <==> exists name :: name != "" && '/' !in name && q == dir + "/" + name + ".aifill"
  {
    if InCacheDir(dir, q) {
      var name := q[|dir| + 1..|q| - 7];
      assert q == q[..|dir|] + [q[|dir|]] + name + q[|q| - 7..];
      assert name != "" && '/' !in name && q == dir + "/" + name + ".aifill";
    }
    forall name | name != "" && '/' !in name && q == dir + "/" + name + ".aifill"
      ensures InCacheDir(dir, q)
    {
      assert q[|q| - 7..] == ".aifill" && q[..|dir|] == dir;
      NoSlash(dir, name, q);
    }
  }

  lemma NoSlash(dir: string, name: string, q: P.Path)
    requires '/' !in name && q == dir + "/" + name + ".aifill"
    ensures forall i :: |dir| < i < |q| ==> q[i] != '/'
  {
    forall i | |dir| < i < |q|
      ensures q[i] != '/'
    {
      if i <= |dir| + |name| {
        assert q[i] == name[i - |dir| - 1];
      } else {
        assert q[i] == ".aifill"[i - |dir| - |name| - 1];
      }
    }
  }

  lemma FileOfKeyIsInCacheDir(dir: string, key: Key)
    requires Sha256Stream.HexKey(key)
    ensures InCacheDir(dir, FileOf(dir, key))
    ensures dir != "" ==> ResultPath(dir, key) == Some(FileOf(dir, key))
  {
    HexKeyHasNoSlash(key);
    hide InCacheDir;
    InCacheDirIff(dir, FileOf(dir, key));
  }

  /** Turning a knob changes nothing else. */
  lemma KnobsAreSet(s: State, dir: string, config: OpKeys.FillConfig)
    ensures
      var s' := Handle(s, Knobs(dir, config));
      s'.dir == dir && s'.config == config && s'.(dir := s.dir, config := s.config) == s
  {
  }

  /** Two configurations have the same key exactly when the digests of their streams agree, so when the streams do. */
  lemma SameKeyIff(c: OpKeys.FillConfig, d: OpKeys.FillConfig)
    ensures
      var x, y := CacheKey.Stream(OpKeys.FillKeyFields(c)), CacheKey.Stream(OpKeys.FillKeyFields(d));
      (KeyFor(c) == KeyFor(d) <==> Sha256Spec.Sha256(x) == Sha256Spec.Sha256(y)) && (x == y ==> KeyFor(c) == KeyFor(d))
  {
    hide CacheKey.Stream, OpKeys.FillKeyFields, Sha256Spec.Sha256, Sha256Stream.HexKey;
    CacheKey.KeysAreHexKeys(OpKeys.FillKeyFields(c), OpKeys.FillKeyFields(d));
  }

  // ---- Clearing ----

  /** Clearing takes every removable cache file away and no other file, and from then on the engine passes the source
      through; it touches neither the worker nor the knobs. */
  lemma ClearForgets(s: State, removed: set<P.Path>)
    requires s.dir != ""
    ensures
      var s' := Handle(s, Clears(true, removed));
      && (forall key :: Sha256Stream.HexKey(key) && FileOf(s.dir, key) in removed ==> FileOf(s.dir, key) !in s'.files)
      && (forall q :: q in s.files && (q !in removed || !InCacheDir(s.dir, q)) ==>
            q in s'.files && s'.files[q] == s.files[q])
      && (forall q :: q in s'.files ==> q in s.files)
      && Shaped(s') && (forall o, c, y, x, src :: EngineSample(s', o, c, y, x, src) == src)
      && s'.worker == s.worker && s'.job == s.job && s'.dir == s.dir && s'.config == s.config
      && s'.bakingKey == s.bakingKey && s'.currentKey == s.currentKey
  {
    hide InCacheDir;
    forall key | Sha256Stream.HexKey(key)
      ensures InCacheDir(s.dir, FileOf(s.dir, key))
    {
      FileOfKeyIsInCacheDir(s.dir, key);
    }
  }

  lemma NothingToClear(s: State, isDir: bool, removed: set<P.Path>)
    requires s.dir == "" || !isDir
    ensures Handle(s, Clears(isDir, removed)) == s
  {
  }

  // ---- Validating ----

  lemma NoActs(s: State)
    ensures DoActs(s, []) == s
  {
  }

  /** The buffer survives the poll and is for the current key. */
  predicate Kept(s: State) {
    s.loadedKey == KeyFor(s.config) && !(s.worker.Done? && s.loadedKey != s.bakingKey)
  }

  lemma TryLoadShows(t: State, key: Key)
    requires key != "" && t.currentKey == key
    requires t.loadedKey == key ==> t.pixels != [] && t.width > 0 && t.height > 0
    ensures
      var t' := TryLoad(t, key, []);
      var file := FileOf(t.dir, key);
      var readable := t.dir != "" && file in t.files && Parse(t.files[file]).Ok?;
      && t' == t.(pixels := t'.pixels, width := t'.width, height := t'.height, loadedKey := t'.loadedKey)
      && (if t.loadedKey == key then UsesCache(t') && SameBuffer(t', t)
          else if readable then UsesCache(t') && Holds(t', Parse(t.files[file]).img)
          else !UsesCache(t'))
  {
    hide Parse;
    NoActs(t);
    if t.dir != "" && FileOf(t.dir, key) in t.files && Parse(t.files[FileOf(t.dir, key)]).Ok? {
      ReadHasPixels(t.files[FileOf(t.dir, key)]);
    }
  }

  lemma PollShows(s: State)
    requires Inv(s)
    ensures
      var p := PollWorker(s);
      && p.files == s.files && p.dir == s.dir && p.config == s.config
      && (s.worker.Running? ==> p.worker.Running?) && (!s.worker.Running? ==> p.worker.Idle?)
      && (if s.worker.Done? && s.loadedKey != s.bakingKey then p.loadedKey == "" else SameBuffer(p, s))
  {
    hide Inv;
  }

  /** After a validation that nobody disturbs the engine shows the buffer it had for the current key; failing that the
      image in the current key's file, if it can be read; and failing that the source. The files stay as they are. */
  lemma ValidateShows(s: State)
    requires Inv(s)
    ensures
      var s' := Validate(s, [], []);
      var file := FileOf(s.dir, KeyFor(s.config));
      var readable := s.dir != "" && file in s.files && Parse(s.files[file]).Ok?;
      && s'.currentKey == KeyFor(s.config) && s'.files == s.files && s'.dir == s.dir && s'.config == s.config
      && (if Kept(s) then UsesCache(s') && SameBuffer(s', s)
          else if readable then UsesCache(s') && Holds(s', Parse(s.files[file]).img)
          else !UsesCache(s'))
      && (s.worker.Running? ==> s'.worker.Running?) && (!s.worker.Running? ==> s'.worker.Idle?)
  {
    hide Inv, KeyFor, Parse, PollWorker, TryLoad, UsesCache, FileOf;
    KeyForIsHex(s.config);
    PollShows(s);
    NoActs(PollWorker(s));
    if s.loadedKey == KeyFor(s.config) {
      BufferHasSize(s);
      BufferHasPixels(s);
    }
    TryLoadShows(PollWorker(s).(currentKey := KeyFor(s.config)), KeyFor(s.config));
  }

  lemma BufferHasPixels(s: State)
    requires Inv(s) && s.loadedKey != ""
    ensures s.pixels != []
  {
    hide FilesOk, WorkerOk;
    var img :| img in Written(s.log, s.loadedKey) && Holds(s, img);
    assert Bakeable(img);
    CountPositive(img.width, img.height, img.channels);
  }

  lemma ReadHasPixels(b: seq<byte>)
    requires Parse(b).Ok?
    ensures var img := Parse(b).img; img.width > 0 && img.height > 0 && img.pixels != []
  {
    var img := Parse(b).img;
    HeaderInRange(b);
    CountPositive(img.width, img.height, img.channels);
  }

  // ---- Pressing ----

  /** The circumstances of a press that nobody disturbs. */
  function QuietPress(source: bool, mask: bool, width: int, height: int, validates: bool, iops: bool): Press {
    Press(source, mask, width, height, validates, iops, [], [], [], [])
  }

  /** Such a press, unless a bake is running, reaches the worker exactly when both inputs are connected images, the
      source has a size, and the current key has no file; the task is then to write an image of the source's size to
      that file. */
  lemma PressLaunchesIff(s: State, source: bool, mask: bool, width: int, height: int, validates: bool, iops: bool)
    requires Inv(s)
    ensures
      var p := QuietPress(source, mask, width, height, validates, iops);
      var key, s' := KeyFor(s.config), StartBake(s, p);
      && (Launches(s, p) <==>
            && !s.worker.Running? && source && mask && width > 0 && height > 0 && iops
            && (s.dir == "" || FileOf(s.dir, key) !in s.files))
      && (Launches(s, p) ==>
            && s'.worker.Running? && s'.bakingKey == s'.currentKey == key && s'.files == s.files
            && s'.job == Some(Job(key, if s.dir == "" then None else Some(FileOf(s.dir, key)), width, height, None)))
      && (!Launches(s, p) && !s.worker.Running? ==> s'.worker.Idle? && s'.files == s.files)
  {
    hide Inv, KeyFor, Parse, Sha256Stream.HexKey, Validate;
    KeyForIsHex(s.config);
    var p := QuietPress(source, mask, width, height, validates, iops);
    var s1 := if s.worker.Idle? then s else s.(worker := W.Idle, job := None);
    InvIdled(s);
    ValidateShows(s1);
    var s2 := BeforeBake(s, p);
    NoActs(s2);
    NoActs(s2.(currentKey := KeyFor(s2.config)));
    if s.dir != "" {
      FileOfKeyIsInCacheDir(s.dir, KeyFor(s.config));
    }
  }

  /** When the current key has a readable file, such a press shows it, unless the buffer is for that key already. */
  lemma PressShowsFile(s: State, width: int, height: int, validates: bool, iops: bool)
    requires Inv(s) && s.dir != "" && !s.worker.Running? && width > 0 && height > 0
    requires
      var file := FileOf(s.dir, KeyFor(s.config));
      file in s.files && Parse(s.files[file]).Ok?
    ensures
      var s' := StartBake(s, QuietPress(true, true, width, height, validates, iops));
      && UsesCache(s') && s'.currentKey == KeyFor(s.config) && s'.worker.Idle?
      && if s.loadedKey == KeyFor(s.config) then SameBuffer(s', s)
         else Holds(s', Parse(s.files[FileOf(s.dir, KeyFor(s.config))]).img)
  {
    hide Inv, KeyFor, Parse, Sha256Stream.HexKey, Validate, TryLoad, FileOf, UsesCache;
    KeyForIsHex(s.config);
    FileOfKeyIsInCacheDir(s.dir, KeyFor(s.config));
    var p := QuietPress(true, true, width, height, validates, iops);
    var s1 := if s.worker.Idle? then s else s.(worker := W.Idle, job := None);
    InvIdled(s);
    ValidateShows(s1);
    BeforeBakeIdle(s, p);
    var s2 := BeforeBake(s, p);
    if s2.loadedKey == KeyFor(s.config) {
      BufferHasSize(s2);
      BufferHasPixels(s2);
    }
    TryLoadShows(s2.(currentKey := KeyFor(s2.config)), KeyFor(s2.config));
    ShownIsLoaded(s2);
  }

  lemma ShownIsLoaded(s: State)
    ensures UsesCache(s) ==> s.loadedKey == s.currentKey
  {
  }

  /** After its file has been cleared, or when it had none, the current key can be baked again. */
  lemma ClearedBakesAgain(s: State, removed: set<P.Path>, width: int, height: int, validates: bool)
    requires Inv(s) && s.dir != "" && !s.worker.Running? && width > 0 && height > 0
    requires FileOf(s.dir, KeyFor(s.config)) in s.files ==> FileOf(s.dir, KeyFor(s.config)) in removed
    ensures Launches(Handle(s, Clears(true, removed)), QuietPress(true, true, width, height, validates, true))
  {
    hide Inv, KeyFor, InCacheDir, Launches, Sha256Stream.HexKey;
    KeyForIsHex(s.config);
    var s' := Handle(s, Clears(true, removed));
    ClearForgets(s, removed);
    InvHandle(s, Clears(true, removed));
    PressLaunchesIff(s', true, true, width, height, validates, true);
  }

  /** Whatever happens meanwhile, the image that a bake writes has the size that the source had when it was pressed. */
  lemma {:induction false} BakeHasPressSize(s: State, acts: seq<Act>, width: int, height: int)
    requires s.job.Some? && s.job.value.width == width && s.job.value.height == height
    requires s.job.value.published.Some? ==>
      s.job.value.published.value.width == width && s.job.value.published.value.height == height
    ensures
      var s' := DoActs(s, acts);
      && s'.job.Some?
      && (s'.job.value.published.Some? ==>
            s'.job.value.published.value.width == width && s'.job.value.published.value.height == height)
    decreases |acts|
  {
    if acts != [] {
      hide ResultPath;
      BakeHasPressSize(DoAct(s, acts[0]), acts[1..], width, height);
    }
  }

  // ---- The engine ----

  /** Red, green and blue are the three samples of a pixel, in this order, rows one after another from the lower left
      corner of the bounding box; other channels, and pixels outside the image, are the source's. */
  lemma EngineLayout(s: State, o: Origin, y: int, x: int, src: u32)
    requires UsesCache(s) && |s.pixels| == s.width * s.height * 3
    ensures
      var at := 3 * ((y - o.y) * s.width + (x - o.x));
      if 0 <= y - o.y < s.height && 0 <= x - o.x < s.width then
        && 0 <= at && at + 2 < |s.pixels|
        && EngineSample(s, o, Red, y, x, src) == s.pixels[at]
        && EngineSample(s, o, Green, y, x, src) == s.pixels[at + 1]
        && EngineSample(s, o, Blue, y, x, src) == s.pixels[at + 2]
      else
        && EngineSample(s, o, Red, y, x, src) == src
        && EngineSample(s, o, Green, y, x, src) == src
        && EngineSample(s, o, Blue, y, x, src) == src
    ensures EngineSample(s, o, Alpha, y, x, src) == src && EngineSample(s, o, OtherChannel, y, x, src) == src
  {
    if 0 <= y - o.y < s.height && 0 <= x - o.x < s.width {
      OffsetInside(s.height, s.width, y - o.y, x - o.x, 0);
      OffsetInside(s.height, s.width, y - o.y, x - o.x, 2);
      OffsetIs(y - o.y, x - o.x, s.width);
    }
  }

  lemma OffsetIs(cy: int, cx: int, width: int)
    ensures forall k :: Offset(cy, cx, width, k) == 3 * (cy * width + cx) + k
  {
    assert cy * width * 3 == 3 * (cy * width);
  }
}
