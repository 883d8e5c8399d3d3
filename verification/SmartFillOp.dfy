/** The AISmartFill Op object. Each method is proved against the function of SmartFill that says what it does. */
module SmartFillOp {
  import opened Bytes
  import opened ImageCodec
  import opened OpKeys
  import opened SmartFill
  import P = ImagePublish
  import W = AiWorker

  class AISmartFill {
    // Knobs, and the upstream state the key is computed from.
    var dir: string
    var config: FillConfig

    var currentKey: Key
    var loadedKey: Key
    var bakingKey: Key
    var cachedPixels: seq<u32>
    var cachedW: int
    var cachedH: int

    // The worker and its task.
    var worker: W.WorkerState
    var job: Option<Job>

    // The cache directory's files, and what has been written into them.
    var files: map<P.Path, seq<byte>>
    var log: map<Key, set<Image>>

    function View(): State
      reads this
    {
      State(dir, config, currentKey, loadedKey, bakingKey, cachedPixels, cachedW, cachedH, worker, job, files, log)
    }

    constructor (dir: string, config: FillConfig, files: map<P.Path, seq<byte>>, log: map<Key, set<Image>>)
      ensures View() == State(dir, config, "", "", "", [], 0, 0, W.Idle, None, files, log)
    {
      this.dir, this.config, this.files, this.log := dir, config, files, log;
      currentKey, loadedKey, bakingKey := "", "", "";
      cachedPixels, cachedW, cachedH := [], 0, 0;
      worker, job := W.WorkerState.Idle, None;
    }

    /** The worker's task and other nodes act. */
    method Others(acts: seq<Act>)
      modifies this
      ensures View() == DoActs(old(View()), acts)
    {
      DoActsKeeps(View(), acts);
      var s := DoActs(View(), acts);
      worker, job, files, log := s.worker, s.job, s.files, s.log;
    }

    method ClearCached()
      modifies this`cachedPixels, this`cachedW, this`cachedH, this`loadedKey
      ensures View() == ClearBuffer(old(View()))
    {
      cachedPixels := [];
      cachedW := 0;
      cachedH := 0;
      loadedKey := "";
    }

    method PollWorker()
      modifies this
      ensures View() == SmartFill.PollWorker(old(View()))
    {
      if worker.Idle? || worker.Running? {
        return;
      }
      if worker.Done? {
        worker, job := W.WorkerState.Idle, None;
        if loadedKey != bakingKey {
          ClearCached();
        }
        bakingKey := "";
        return;
      }
      worker, job := W.WorkerState.Idle, None;
      bakingKey := "";
    }

    method TryLoadCacheForKey(key: Key, acts: seq<Act>)
      modifies this
      ensures View() == TryLoad(old(View()), key, acts)
    {
      hide Parse, DoActs, ResultPath;
      if key == "" {
        ClearCached();
        return;
      }
      if key == loadedKey && cachedPixels != [] {
        return;
      }
      var path := ResultPath(dir, key);
      if path.None? {
        return;
      }
      if path.value !in files {
        ClearCached();
        return;
      }
      Others(acts);
      var result := ImageCacheRead(if path.value in files then Some(files[path.value]) else None);
      if result.Fail? {
        ClearCached();
        return;
      }
      cachedPixels := result.img.pixels;
      cachedW := result.img.width;
      cachedH := result.img.height;
      loadedKey := key;
    }

    method Validate(acts1: seq<Act>, acts2: seq<Act>)
      modifies this
      ensures View() == SmartFill.Validate(old(View()), acts1, acts2)
    {
      hide DoActs, TryLoad, SmartFill.PollWorker, KeyFor;
      PollWorker();
      Others(acts1);
      currentKey := ComputeCacheKey();
      TryLoadCacheForKey(currentKey, acts2);
    }

    method ComputeCacheKey() returns (key: Key)
      ensures key == KeyFor(config) && key != ""
    {
      key := ComputeFillKey(config);
    }

    /** `asked` tells whether the press got as far as worker_.start, `accepted` what that returned. */
    method StartBake(p: Press) returns (asked: bool, accepted: bool)
      requires Inv(View())
      modifies this
      ensures View() == SmartFill.StartBake(old(View()), p) && Inv(View())
      ensures asked <==> Launches(old(View()), p)
      ensures asked ==> accepted
    {
      hide Inv, DoActs, TryLoad, SmartFill.Validate, KeyFor, ResultPath, Hit, Launch, Launches;
      ghost var s0 := View();
      InvStartBake(s0, p);
      asked, accepted := false, false;
      if worker.Running? {
        NoLaunchWithout(s0, p);
        return;
      }
      BeforeBakeIdle(s0, p);
      NoLaunchWithout(s0, p);
      if !worker.Idle? {
        worker, job := W.WorkerState.Idle, None;
      }
      if !p.source || !p.mask {
        return;
      }
      if p.validates {
        Validate(p.acts1, p.acts2);
      }
      assert View() == BeforeBake(s0, p);
      if p.width <= 0 || p.height <= 0 {
        return;
      }
      asked, accepted := BakeUnlessCached(p);
      LaunchesIff(s0, p);
    }

    /** The second half of a press: the existing result, or the launch. */
    method BakeUnlessCached(p: Press) returns (asked: bool, accepted: bool)
      requires worker.Idle?
      modifies this
      ensures
        var s2 := old(View());
        var key := KeyFor(s2.config);
        && View() == (if Hit(s2, key) then TryLoad(s2.(currentKey := key), key, p.acts3)
                      else if !p.iops then s2
                      else Launch(DoActs(s2, p.acts4), key, p))
        && (asked <==> p.iops && !Hit(s2, key))
        && (asked ==> accepted)
    {
      hide DoActs, TryLoad, KeyFor, ResultPath;
      asked, accepted := false, false;
      var key := ComputeCacheKey();
      var path := ResultPath(dir, key);
      if path.Some? && path.value in files {
        currentKey := key;
        TryLoadCacheForKey(key, p.acts3);
        return;
      }
      if !p.iops {
        return;
      }
      DoActsKeeps(View(), p.acts4);
      Others(p.acts4);
      bakingKey := key;
      currentKey := key;
      asked := true;
      accepted := worker.Idle?;
      if accepted {
        worker := W.WorkerState.Running;
        job := Some(Job(key, ResultPath(dir, key), p.width, p.height, None));
      }
    }

    method ClearCacheDir(isDirectory: bool, removed: set<P.Path>)
      modifies this
      ensures View() == SmartFill.ClearCacheDir(old(View()), isDirectory, removed)
    {
      if dir == "" {
        return;
      }
      if !isDirectory {
        return;
      }
      files := files - (set p | p in removed && InCacheDir(dir, p));
      ClearCached();
    }

    /** One output row: out[i][xi - x] is channel channels[i] at column xi. */
    method Engine(y: int, x: int, r: int, channels: seq<Channel>, src: seq<seq<u32>>, o: Origin)
      returns (out: seq<seq<u32>>)
      requires Shaped(View()) && x <= r
      requires |src| == |channels| && forall i :: 0 <= i < |src| ==> |src[i]| == r - x
      ensures |out| == |channels|
      ensures forall i :: 0 <= i < |out| ==> |out[i]| == r - x
      ensures forall i, j :: 0 <= i < |out| && 0 <= j < r - x ==>
        out[i][j] == EngineSample(View(), o, channels[i], y, x + j, src[i][j])
    {
      var useCache := cachedPixels != [] && cachedW > 0 && cachedH > 0 && loadedKey != "" && loadedKey == currentKey;
      if !useCache {
        return src;
      }
      out := [];
      for i := 0 to |channels|
        invariant |out| == i
        invariant forall k :: 0 <= k < i ==> |out[k]| == r - x
        invariant forall k, j :: 0 <= k < i && 0 <= j < r - x ==>
          out[k][j] == EngineSample(View(), o, channels[k], y, x + j, src[k][j])
      {
        var row := EngineChannel(y, x, r, channels[i], src[i], o);
        out := out + [row];
      }
    }

    method EngineChannel(y: int, x: int, r: int, c: Channel, src: seq<u32>, o: Origin) returns (row: seq<u32>)
      requires Shaped(View()) && UsesCache(View()) && x <= r && |src| == r - x
      ensures |row| == r - x
      ensures forall j :: 0 <= j < r - x ==> row[j] == EngineSample(View(), o, c, y, x + j, src[j])
    {
      var cacheY := y - o.y;
      var channelIdx := -1;
      if c.Red? {
        channelIdx := 0;
      } else if c.Green? {
        channelIdx := 1;
      } else if c.Blue? {
        channelIdx := 2;
      }
      if channelIdx < 0 || cacheY < 0 || cacheY >= cachedH {
        return src;
      }
      var outRow := new u32[r - x];
      for xi := x to r
        invariant forall j :: 0 <= j < xi - x ==> outRow[j] == EngineSample(View(), o, c, y, x + j, src[j])
      {
        var cacheX := xi - o.x;
        if 0 <= cacheX && cacheX < cachedW {
          OffsetInside(cachedH, cachedW, cacheY, cacheX, channelIdx);
          outRow[xi - x] := cachedPixels[cacheY * cachedW * 3 + (cacheX * 3 + channelIdx)];
        } else {
          outRow[xi - x] := src[xi - x];
        }
      }
      row := outRow[..];
    }
  }

  lemma LaunchesIff(s: State, p: Press)
    ensures Launches(s, p) <==>
      && !s.worker.Running? && p.source && p.mask && p.width > 0 && p.height > 0 && p.iops
      && !Hit(BeforeBake(s, p), KeyFor(BeforeBake(s, p).config))
  {
  }

  lemma NoLaunchWithout(s: State, p: Press)
    ensures s.worker.Running? || !p.source || !p.mask || p.width <= 0 || p.height <= 0 ==> !Launches(s, p)
  {
  }
}
