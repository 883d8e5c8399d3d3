/** What each Op feeds into its cache key, and what two equal pre-hash streams therefore agree on. */
module OpKeys {
  import opened Bytes
  import opened CacheKey
  import Sha256Stream

  const BACKSLASH: byte := '\\' as int
  const SLASH: byte := '/' as int

  /** AIGenerate's normalize_path: every backslash becomes a slash. */
  function Slashed(s: seq<byte>): (r: seq<byte>)
    ensures |r| == |s|
  {
    Replaced(s, BACKSLASH, SLASH)
  }

  method NormalizePath(s: seq<byte>) returns (out: seq<byte>)
    ensures out == Slashed(s)
    ensures |out| == |s| && forall i :: 0 <= i < |s| ==> out[i] == if s[i] == 92 then 47 else s[i]
  {
    out := s;
    for i := 0 to |s|
      invariant |out| == |s|
      invariant forall j :: 0 <= j < |s| ==> out[j] == if j < i then Slashed(s)[j] else s[j]
    {
      if out[i] == BACKSLASH {
        out := out[i := SLASH];
      }
    }
  }

  /** static_cast<int32_t> of a list length. */
  function ToInt32(n: nat): i32 {
    Signed(n % TWO_32, TWO_32)
  }

  /** The cast of a length to int: the one 32-bit integer that differs from it by a multiple of 2^32. */
  lemma CastIs(n: nat, i: int)
    ensures ToInt32(n) == i <==> -0x8000_0000 <= i < 0x8000_0000 && (n - i) % 0x1_0000_0000 == 0
  {
    assert n == n / TWO_32 * TWO_32 + n % TWO_32;
  }

  datatype Lora = Lora(path: seq<byte>, weight: u32)

  /** The state AIGenerate's key is computed from; hashes of absent inputs are None. */
  datatype Config = Config(
    modelType: i32, prompt: seq<byte>, negativePrompt: seq<byte>,
    width: i32, height: i32, steps: i32, cfgScale: u32, seed: i64,
    diffusionModel: seq<byte>, vae: seq<byte>, clipL: seq<byte>, t5xxl: seq<byte>,
    loras: seq<Lora>,
    strength: u32, source: Option<u64>,
    controlNet: seq<byte>, controlStrength: u32, control: Option<u64>)

  function InputFields(input: Option<u64>): seq<Field> {
    if input.Some? then [Int64(Signed(input.value, TWO_64))] else [Str(Ascii("no_input"))]
  }

  function ParameterFields(c: Config): (fs: seq<Field>)
    ensures |fs| == 9
  {
    [Str(Ascii("AIGenerate.v1")), Int32(c.modelType), Str(c.prompt), Str(c.negativePrompt),
     Int32(c.width), Int32(c.height), Int32(c.steps), Float(c.cfgScale), Int64(c.seed)]
  }

  function ModelFields(c: Config): (fs: seq<Field>)
    ensures |fs| == 4
  {
    [Str(Slashed(c.diffusionModel)), Str(Slashed(c.vae)), Str(Slashed(c.clipL)), Str(Slashed(c.t5xxl))]
  }

  function LoraFields(loras: seq<Lora>): (fs: seq<Field>)
    ensures |fs| == 2 * |loras|
  {
    if loras == [] then []
    else LoraFields(loras[..|loras| - 1]) + [Str(Slashed(loras[|loras| - 1].path)), Float(loras[|loras| - 1].weight)]
  }

  function SourceFields(c: Config): seq<Field> {
    [Str(Ascii("img2img"))] + (if c.source.Some? then [Float(c.strength)] else []) + InputFields(c.source)
  }

  function ControlFields(c: Config): seq<Field> {
    [Str(Ascii("controlnet")), Str(Slashed(c.controlNet))]
    + if c.controlNet == [] then [] else [Float(c.controlStrength)] + InputFields(c.control)
  }

  /** The builder calls of AIGenerate's compute_cache_key, in order. */
  function KeyFields(c: Config): seq<Field> {
    ParameterFields(c) + ModelFields(c)
    + [Str(Ascii("loras")), Int32(ToInt32(|c.loras|))] + LoraFields(c.loras)
    + (SourceFields(c) + ControlFields(c))
  }

  method ComputeCacheKey(c: Config) returns (key: string)
    ensures key == KeyOf(KeyFields(c)) && Sha256Stream.HexKey(key)
  {
    hide CacheKeyBuilder.Valid, KeyOf, Sha256Stream.HexKey, Ascii, ToInt32,
      ParameterFields, ModelFields, LoraFields, SourceFields, ControlFields;
    var kb := new CacheKeyBuilder();
    FeedParameters(kb, c);
    FeedModels(kb, c);
    kb.AddString(Ascii("loras"));
    kb.AddInt32(ToInt32(|c.loras|));
    FeedLoras(kb, c.loras);
    FeedSource(kb, c);
    FeedControl(kb, c);
    assert kb.fields == KeyFields(c);
    key := kb.Finalize();
  }

  method FeedParameters(kb: CacheKeyBuilder, c: Config)
    requires kb.Valid() && kb.fields == []
    modifies kb`fields, kb.hasher`bitLength, kb.hasher`bufferLen, kb.hasher`absorbed, kb.hasher.state, kb.hasher.buffer
    ensures kb.Valid() && kb.fields == ParameterFields(c)
  {
    hide CacheKeyBuilder.Valid, Ascii;
    kb.AddString(Ascii("AIGenerate.v1"));
    kb.AddInt32(c.modelType);
    kb.AddString(c.prompt);
    kb.AddString(c.negativePrompt);
    kb.AddInt32(c.width);
    kb.AddInt32(c.height);
    kb.AddInt32(c.steps);
    kb.AddFloat(c.cfgScale);
    kb.AddInt64(c.seed);
  }

  method FeedPath(kb: CacheKeyBuilder, path: seq<byte>)
    requires kb.Valid()
    modifies kb`fields, kb.hasher`bitLength, kb.hasher`bufferLen, kb.hasher`absorbed, kb.hasher.state, kb.hasher.buffer
    ensures kb.Valid() && kb.fields == old(kb.fields) + [Str(Slashed(path))]
  {
    hide *;
    var normalized := NormalizePath(path);
    kb.AddString(normalized);
  }

  method FeedModels(kb: CacheKeyBuilder, c: Config)
    requires kb.Valid()
    modifies kb`fields, kb.hasher`bitLength, kb.hasher`bufferLen, kb.hasher`absorbed, kb.hasher.state, kb.hasher.buffer
    ensures kb.Valid() && kb.fields == old(kb.fields) + ModelFields(c)
  {
    hide CacheKeyBuilder.Valid, Slashed;
    FeedPath(kb, c.diffusionModel);
    FeedPath(kb, c.vae);
    FeedPath(kb, c.clipL);
    FeedPath(kb, c.t5xxl);
  }

  method FeedLoras(kb: CacheKeyBuilder, loras: seq<Lora>)
    requires kb.Valid()
    modifies kb`fields, kb.hasher`bitLength, kb.hasher`bufferLen, kb.hasher`absorbed, kb.hasher.state, kb.hasher.buffer
    ensures kb.Valid() && kb.fields == old(kb.fields) + LoraFields(loras)
  {
    hide CacheKeyBuilder.Valid, Slashed;
    for i := 0 to |loras|
      invariant kb.Valid() && kb.fields == old(kb.fields) + LoraFields(loras[..i])
    {
      assert loras[..i + 1][..i] == loras[..i];
      FeedPath(kb, loras[i].path);
      kb.AddFloat(loras[i].weight);
    }
    assert loras[..|loras|] == loras;
  }

  method FeedInput(kb: CacheKeyBuilder, input: Option<u64>)
    requires kb.Valid()
    modifies kb`fields, kb.hasher`bitLength, kb.hasher`bufferLen, kb.hasher`absorbed, kb.hasher.state, kb.hasher.buffer
    ensures kb.Valid() && kb.fields == old(kb.fields) + InputFields(input)
  {
    hide CacheKeyBuilder.Valid, Ascii;
    if input.Some? {
      kb.AddInt64(Signed(input.value, TWO_64));
    } else {
      kb.AddString(Ascii("no_input"));
    }
  }

  method FeedSource(kb: CacheKeyBuilder, c: Config)
    requires kb.Valid()
    modifies kb`fields, kb.hasher`bitLength, kb.hasher`bufferLen, kb.hasher`absorbed, kb.hasher.state, kb.hasher.buffer
    ensures kb.Valid() && kb.fields == old(kb.fields) + SourceFields(c)
  {
    hide CacheKeyBuilder.Valid, InputFields, Ascii;
    kb.AddString(Ascii("img2img"));
    if c.source.Some? {
      kb.AddFloat(c.strength);
    }
    FeedInput(kb, c.source);
  }

  method FeedControl(kb: CacheKeyBuilder, c: Config)
    requires kb.Valid()
    modifies kb`fields, kb.hasher`bitLength, kb.hasher`bufferLen, kb.hasher`absorbed, kb.hasher.state, kb.hasher.buffer
    ensures kb.Valid() && kb.fields == old(kb.fields) + ControlFields(c)
  {
    hide CacheKeyBuilder.Valid, InputFields, Slashed, Ascii;
    kb.AddString(Ascii("controlnet"));
    FeedPath(kb, c.controlNet);
    if c.controlNet != [] {
      kb.AddFloat(c.controlStrength);
      FeedInput(kb, c.control);
    }
  }

  // ---- What a key determines ----

  function SlashedLoras(loras: seq<Lora>): (r: seq<Lora>)
    ensures |r| == |loras|
  {
    seq(|loras|, i requires 0 <= i < |loras| => Lora(Slashed(loras[i].path), loras[i].weight))
  }

  /** The part of a configuration the key depends on: slashes unified, and strengths and
      control inputs blanked where the code does not look at them. */
  function Keyed(c: Config): Config {
    c.(diffusionModel := Slashed(c.diffusionModel), vae := Slashed(c.vae),
       clipL := Slashed(c.clipL), t5xxl := Slashed(c.t5xxl),
       loras := SlashedLoras(c.loras),
       strength := if c.source.Some? then c.strength else 0,
       controlNet := Slashed(c.controlNet),
       controlStrength := if c.controlNet == [] then 0 else c.controlStrength,
       control := if c.controlNet == [] then None else c.control)
  }

  predicate ConfigFits(c: Config) {
    && |c.prompt| < TWO_32 && |c.negativePrompt| < TWO_32
    && |c.diffusionModel| < TWO_32 && |c.vae| < TWO_32 && |c.clipL| < TWO_32 && |c.t5xxl| < TWO_32
    && |c.controlNet| < TWO_32
    && forall i :: 0 <= i < |c.loras| ==> |c.loras[i].path| < TWO_32
  }

  lemma {:induction false} LoraFieldsAt(loras: seq<Lora>, i: nat)
    requires i < |loras|
    ensures LoraFields(loras)[2 * i] == Str(Slashed(loras[i].path))
    ensures LoraFields(loras)[2 * i + 1] == Float(loras[i].weight)
  {
    if i < |loras| - 1 {
      LoraFieldsAt(loras[..|loras| - 1], i);
    }
  }

  /** The LoRA list ends where its fields say so: a longer list never reads as a shorter one and what follows it. */
  lemma LoraListEnds(c1: Config, c2: Config)
    requires |c1.loras| < |c2.loras|
    ensures LoraFields(c1.loras) + (SourceFields(c1) + ControlFields(c1))
         != LoraFields(c2.loras) + (SourceFields(c2) + ControlFields(c2))
  {
    hide Slashed, Ascii;
    var n := |c1.loras|;
    var all1 := LoraFields(c1.loras) + (SourceFields(c1) + ControlFields(c1));
    var all2 := LoraFields(c2.loras) + (SourceFields(c2) + ControlFields(c2));
    assert all1[2 * n + 1] == (SourceFields(c1) + ControlFields(c1))[1];
    assert all1[2 * n + 2] == (SourceFields(c1) + ControlFields(c1))[2];
    LoraFieldsAt(c2.loras, n);
    assert all2[2 * n + 1] == LoraFields(c2.loras)[2 * n + 1];
    if n + 1 < |c2.loras| {
      LoraFieldsAt(c2.loras, n + 1);
      assert all2[2 * n + 2] == LoraFields(c2.loras)[2 * (n + 1)];
    } else {
      assert all2[2 * n + 2] == SourceFields(c2)[0];
    }
  }

  lemma LoraFieldsInjective(l1: seq<Lora>, l2: seq<Lora>)
    requires LoraFields(l1) == LoraFields(l2)
    ensures SlashedLoras(l1) == SlashedLoras(l2)
  {
    forall i | 0 <= i < |l1|
      ensures SlashedLoras(l1)[i] == SlashedLoras(l2)[i]
    {
      LoraFieldsAt(l1, i);
      LoraFieldsAt(l2, i);
    }
  }

  lemma {:induction false} LoraFieldsOfSlashed(l1: seq<Lora>, l2: seq<Lora>)
    requires SlashedLoras(l1) == SlashedLoras(l2)
    ensures LoraFields(l1) == LoraFields(l2)
  {
    var n := |l1|;
    assert n == |SlashedLoras(l1)| == |l2|;
    if n > 0 {
      assert SlashedLoras(l1[..n - 1]) == SlashedLoras(l1)[..n - 1];
      assert SlashedLoras(l2[..n - 1]) == SlashedLoras(l2)[..n - 1];
      LoraFieldsOfSlashed(l1[..n - 1], l2[..n - 1]);
      assert SlashedLoras(l1)[n - 1] == SlashedLoras(l2)[n - 1];
    }
  }

  lemma InputFieldsInjective(a: Option<u64>, b: Option<u64>)
    requires InputFields(a) == InputFields(b)
    ensures a == b
  {
    if a.Some? && b.Some? {
      assert Signed(a.value, TWO_64) == Signed(b.value, TWO_64);
    }
  }

  lemma ControlTail(c: Config)
    requires c.controlNet != []
    ensures |ControlFields(c)| >= 3 && ControlFields(c)[2] == Float(c.controlStrength)
    ensures ControlFields(c)[3..] == InputFields(c.control)
  {
    hide Slashed, Ascii;
  }

  lemma TailInjective(c1: Config, c2: Config)
    requires SourceFields(c1) + ControlFields(c1) == SourceFields(c2) + ControlFields(c2)
    ensures Keyed(c1).source == Keyed(c2).source && Keyed(c1).strength == Keyed(c2).strength
    ensures Keyed(c1).controlNet == Keyed(c2).controlNet
    ensures Keyed(c1).controlStrength == Keyed(c2).controlStrength && Keyed(c1).control == Keyed(c2).control
  {
    hide Slashed, Ascii, Signed, SlashedLoras;
    var t1, t2 := SourceFields(c1) + ControlFields(c1), SourceFields(c2) + ControlFields(c2);
    assert t1[1] == t2[1];
    assert c1.source.Some? == c2.source.Some?;
    var n := |SourceFields(c1)|;
    assert n == |SourceFields(c2)|;
    assert SourceFields(c1) == t1[..n] == SourceFields(c2);
    assert ControlFields(c1) == t1[n..] == ControlFields(c2);
    var k := n - |InputFields(c1.source)|;
    assert InputFields(c1.source) == SourceFields(c1)[k..] == InputFields(c2.source);
    InputFieldsInjective(c1.source, c2.source);
    if c1.source.Some? {
      assert SourceFields(c1)[1] == Float(c1.strength) && SourceFields(c2)[1] == Float(c2.strength);
    }
    assert ControlFields(c1)[1] == ControlFields(c2)[1];
    assert |c1.controlNet| == |c2.controlNet|;
    if c1.controlNet != [] {
      ControlTail(c1);
      ControlTail(c2);
      InputFieldsInjective(c1.control, c2.control);
    }
  }

  lemma HeadInjective(c1: Config, c2: Config)
    requires ParameterFields(c1) == ParameterFields(c2) && ModelFields(c1) == ModelFields(c2)
    ensures Keyed(c1) == Keyed(c2).(loras := Keyed(c1).loras, strength := Keyed(c1).strength, source := c1.source,
      controlNet := Keyed(c1).controlNet, controlStrength := Keyed(c1).controlStrength, control := Keyed(c1).control)
  {
    hide Slashed, Ascii, SlashedLoras;
    var p1, p2 := ParameterFields(c1), ParameterFields(c2);
    assert p1[1] == p2[1] && p1[2] == p2[2] && p1[3] == p2[3] && p1[4] == p2[4];
    assert p1[5] == p2[5] && p1[6] == p2[6] && p1[7] == p2[7] && p1[8] == p2[8];
    var m1, m2 := ModelFields(c1), ModelFields(c2);
    assert m1[0] == m2[0] && m1[1] == m2[1] && m1[2] == m2[2] && m1[3] == m2[3];
  }

  lemma KeyFieldsDetermineKeyed(c1: Config, c2: Config)
    requires KeyFields(c1) == KeyFields(c2)
    ensures Keyed(c1) == Keyed(c2)
  {
    hide Slashed, Ascii, SlashedLoras, ParameterFields, ModelFields, LoraFields, SourceFields, ControlFields;
    var t1, t2 := SourceFields(c1) + ControlFields(c1), SourceFields(c2) + ControlFields(c2);
    var f1, f2 := KeyFields(c1), KeyFields(c2);
    assert f1[..9] == ParameterFields(c1) && f2[..9] == ParameterFields(c2);
    assert f1[9..13] == ModelFields(c1) && f2[9..13] == ModelFields(c2);
    HeadInjective(c1, c2);
    assert f1[15..] == LoraFields(c1.loras) + t1 && f2[15..] == LoraFields(c2.loras) + t2;
    if |c1.loras| < |c2.loras| { LoraListEnds(c1, c2); }
    if |c2.loras| < |c1.loras| { LoraListEnds(c2, c1); }
    var n := 2 * |c1.loras|;
    assert LoraFields(c1.loras) == (LoraFields(c1.loras) + t1)[..n] == LoraFields(c2.loras);
    assert t1 == (LoraFields(c1.loras) + t1)[n..] == t2;
    LoraFieldsInjective(c1.loras, c2.loras);
    TailInjective(c1, c2);
  }

  lemma KeyedDeterminesKeyFields(c1: Config, c2: Config)
    requires Keyed(c1) == Keyed(c2)
    ensures KeyFields(c1) == KeyFields(c2)
  {
    hide Slashed, Ascii, SlashedLoras;
    assert |c1.loras| == |SlashedLoras(c1.loras)| == |c2.loras|;
    assert |c1.controlNet| == |Slashed(c1.controlNet)| == |c2.controlNet|;
    LoraFieldsOfSlashed(c1.loras, c2.loras);
    assert ParameterFields(c1) == ParameterFields(c2);
    assert ModelFields(c1) == ModelFields(c2);
    assert SourceFields(c1) == SourceFields(c2);
    assert ControlFields(c1) == ControlFields(c2);
  }

  lemma KeyFieldsFit(c: Config)
    requires ConfigFits(c)
    ensures AllFit(KeyFields(c))
  {
    hide Slashed, Ascii;
    var lf := LoraFields(c.loras);
    forall j | 0 <= j < |lf|
      ensures Fits(lf[j])
    {
      LoraFieldsAt(c.loras, j / 2);
      assert j == 2 * (j / 2) || j == 2 * (j / 2) + 1;
    }
    assert AllFit(ParameterFields(c)) && AllFit(ModelFields(c)) && AllFit(SourceFields(c)) && AllFit(ControlFields(c));
  }

  /** Two configurations have the same pre-hash stream exactly when they agree on everything keyed. */
  lemma SameStreamIffSameKeyed(c1: Config, c2: Config)
    requires ConfigFits(c1) && ConfigFits(c2)
    ensures Stream(KeyFields(c1)) == Stream(KeyFields(c2)) <==> Keyed(c1) == Keyed(c2)
  {
    hide Keyed, KeyFields, Stream;
    KeyFieldsFit(c1);
    KeyFieldsFit(c2);
    if Stream(KeyFields(c1)) == Stream(KeyFields(c2)) {
      StreamInjective(KeyFields(c1), KeyFields(c2));
      KeyFieldsDetermineKeyed(c1, c2);
    }
    if Keyed(c1) == Keyed(c2) {
      KeyedDeterminesKeyFields(c1, c2);
    }
  }

  // ---- The same, said of the configurations ----

  /** Equal but that a slash may stand for a backslash. */
  predicate SamePath(x: seq<byte>, y: seq<byte>) {
    |x| == |y| && forall i :: 0 <= i < |x| ==> x[i] == y[i] || (x[i] in {47, 92} && y[i] in {47, 92})
  }

  lemma SlashedSame(x: seq<byte>, y: seq<byte>)
    ensures Slashed(x) == Slashed(y) <==> SamePath(x, y)
  {
    if Slashed(x) == Slashed(y) {
      assert |x| == |Slashed(x)| == |y|;
      forall i | 0 <= i < |x|
        ensures x[i] == y[i] || (x[i] in {47, 92} && y[i] in {47, 92})
      {
        assert Slashed(x)[i] == Slashed(y)[i];
      }
    }
  }

  predicate SameLoras(l1: seq<Lora>, l2: seq<Lora>) {
    |l1| == |l2| && forall i :: 0 <= i < |l1| ==> SamePath(l1[i].path, l2[i].path) && l1[i].weight == l2[i].weight
  }

  lemma SlashedLorasSame(l1: seq<Lora>, l2: seq<Lora>)
    ensures SlashedLoras(l1) == SlashedLoras(l2) <==> SameLoras(l1, l2)
  {
    hide Slashed, SamePath;
    forall x, y
      ensures Slashed(x) == Slashed(y) <==> SamePath(x, y)
    {
      SlashedSame(x, y);
    }
    if SlashedLoras(l1) == SlashedLoras(l2) {
      assert |l1| == |SlashedLoras(l1)| == |l2|;
      forall i | 0 <= i < |l1|
        ensures SamePath(l1[i].path, l2[i].path) && l1[i].weight == l2[i].weight
      {
        assert SlashedLoras(l1)[i] == SlashedLoras(l2)[i];
      }
    }
  }

  predicate SameConfig(c: Config, d: Config) {
    && c.modelType == d.modelType && c.prompt == d.prompt && c.negativePrompt == d.negativePrompt
    && c.width == d.width && c.height == d.height && c.steps == d.steps && c.cfgScale == d.cfgScale && c.seed == d.seed
    && SamePath(c.diffusionModel, d.diffusionModel) && SamePath(c.vae, d.vae)
    && SamePath(c.clipL, d.clipL) && SamePath(c.t5xxl, d.t5xxl)
    && SameLoras(c.loras, d.loras)
    && c.source == d.source && (c.source.Some? ==> c.strength == d.strength)
    && SamePath(c.controlNet, d.controlNet)
    && (c.controlNet != [] ==> c.controlStrength == d.controlStrength && c.control == d.control)
  }

  lemma SameKeyedIffSameConfig(c: Config, d: Config)
    ensures Keyed(c) == Keyed(d) <==> SameConfig(c, d)
  {
    hide Slashed, SamePath, SlashedLoras, SameLoras;
    SlashedSame(c.diffusionModel, d.diffusionModel);
    SlashedSame(c.vae, d.vae);
    SlashedSame(c.clipL, d.clipL);
    SlashedSame(c.t5xxl, d.t5xxl);
    SlashedSame(c.controlNet, d.controlNet);
    SlashedLorasSame(c.loras, d.loras);
    assert |Slashed(c.controlNet)| == |c.controlNet| && |Slashed(d.controlNet)| == |d.controlNet|;
  }

  /** Two configurations have the same pre-hash stream exactly when they are the same up to slashes in paths, the
      strength of an absent source, and the strength and input of an absent ControlNet. */
  lemma SameStreamIffSameConfig(c1: Config, c2: Config)
    requires ConfigFits(c1) && ConfigFits(c2)
    ensures Stream(KeyFields(c1)) == Stream(KeyFields(c2)) <==> SameConfig(c1, c2)
  {
    hide Keyed, KeyFields, Stream, SameConfig;
    SameStreamIffSameKeyed(c1, c2);
    SameKeyedIffSameConfig(c1, c2);
  }

  /** With no source connected every strength gives the same stream; with no ControlNet model so does every ControlNet
      strength and input. */
  lemma UnusedStrengthsNotKeyed(c: Config, strength: u32, controlStrength: u32, control: Option<u64>)
    ensures c.source.None? ==> Stream(KeyFields(c.(strength := strength))) == Stream(KeyFields(c))
    ensures c.controlNet == [] ==>
      Stream(KeyFields(c.(controlStrength := controlStrength, control := control))) == Stream(KeyFields(c))
  {
    hide Stream, KeyFields;
    if c.source.None? {
      KeyedDeterminesKeyFields(c.(strength := strength), c);
    }
    if c.controlNet == [] {
      KeyedDeterminesKeyFields(c.(controlStrength := controlStrength, control := control), c);
    }
  }

  // ---- AISmartFill ----

  /** Upstream hashes (zero when an input is missing), threshold, backend and model path. */
  datatype FillConfig = FillConfig(source: Option<u64>, mask: Option<u64>, threshold: u32, backend: i32,
                                    model: seq<byte>)

  predicate IsSpaceByte(b: byte) {
    IsSpace(b as char)
  }

  function DropTrailingSpace(s: seq<byte>): seq<byte> {
    DropEnd(s, IsSpaceByte)
  }

  function OrZero(h: Option<u64>): u64 {
    if h.Some? then h.value else 0
  }

  function FillKeyFields(c: FillConfig): seq<Field> {
    [Str(Ascii("AISmartFill.v1")), OpHash(OrZero(c.source)), OpHash(OrZero(c.mask)),
     Float(c.threshold), Int32(c.backend), Str(Slashed(DropTrailingSpace(c.model)))]
  }

  method ComputeFillKey(c: FillConfig) returns (key: string)
    ensures key == KeyOf(FillKeyFields(c)) && Sha256Stream.HexKey(key)
  {
    hide CacheKeyBuilder.Valid, KeyOf, Sha256Stream.HexKey, Slashed, Ascii, DropTrailingSpace;
    var kb := new CacheKeyBuilder();
    kb.AddString(Ascii("AISmartFill.v1"));
    kb.AddOpHash(if c.source.Some? then c.source.value else 0);
    kb.AddOpHash(if c.mask.Some? then c.mask.value else 0);
    kb.AddFloat(c.threshold);
    kb.AddInt32(c.backend);
    var s := TrimEnd(c.model);
    FeedPath(kb, s);
    assert kb.fields == FillKeyFields(c);
    key := kb.Finalize();
  }

  /** The first loop of AISmartFill's normalize_path. */
  method TrimEnd(path: seq<byte>) returns (s: seq<byte>)
    ensures s == DropTrailingSpace(path)
  {
    s := path;
    while s != [] && IsSpaceByte(s[|s| - 1])
      invariant DropTrailingSpace(s) == DropTrailingSpace(path)
    {
      s := s[..|s| - 1];
    }
  }

  predicate IsBlank(b: byte) {
    b == 9 || b == 10 || b == 13 || b == 32
  }

  /** t is the path without its trailing blanks, tabs, line feeds and carriage returns. */
  predicate IsTrimmed(path: seq<byte>, t: seq<byte>) {
    && t <= path && (t != [] ==> !IsBlank(t[|t| - 1]))
    && forall i :: |t| <= i < |path| ==> IsBlank(path[i])
  }

  lemma {:induction false} DropTrailingSpaceTrims(path: seq<byte>)
    ensures IsTrimmed(path, DropTrailingSpace(path))
  {
    if path != [] && IsSpaceByte(path[|path| - 1]) {
      DropTrailingSpaceTrims(path[..|path| - 1]);
    }
  }

  lemma TrimmedIsUnique(path: seq<byte>, t: seq<byte>, u: seq<byte>)
    requires IsTrimmed(path, t) && IsTrimmed(path, u)
    ensures t == u
  {
  }

  /** A missing input counts as one of hash zero. */
  predicate SameInput(a: Option<u64>, b: Option<u64>) {
    a == b || (a == None && b == Some(0)) || (a == Some(0) && b == None)
  }

  /** Two AISmartFill configurations have the same stream exactly when their inputs have the same hashes, threshold
      bits and backend are equal, and the trimmed model paths agree up to slashes. */
  lemma SameFillStreamIff(f1: FillConfig, f2: FillConfig, path1: seq<byte>, path2: seq<byte>)
    requires |f1.model| < TWO_32 && |f2.model| < TWO_32
    requires IsTrimmed(f1.model, path1) && IsTrimmed(f2.model, path2)
    ensures Stream(FillKeyFields(f1)) == Stream(FillKeyFields(f2)) <==>
      && SameInput(f1.source, f2.source) && SameInput(f1.mask, f2.mask)
      && f1.threshold == f2.threshold && f1.backend == f2.backend && SamePath(path1, path2)
  {
    hide Stream, Slashed, Ascii, SamePath, IsTrimmed, DropTrailingSpace;
    DropTrailingSpaceShrinks(f1.model);
    DropTrailingSpaceShrinks(f2.model);
    DropTrailingSpaceTrims(f1.model);
    DropTrailingSpaceTrims(f2.model);
    TrimmedIsUnique(f1.model, path1, DropTrailingSpace(f1.model));
    TrimmedIsUnique(f2.model, path2, DropTrailingSpace(f2.model));
    SlashedSame(path1, path2);
    var k1, k2 := FillKeyFields(f1), FillKeyFields(f2);
    if Stream(k1) == Stream(k2) {
      StreamInjective(k1, k2);
      assert k1[1] == k2[1] && k1[2] == k2[2] && k1[3] == k2[3] && k1[4] == k2[4] && k1[5] == k2[5];
    }
  }

  /** The fields of an AISmartFill key, in order. */
  lemma FillFieldsOf()
    ensures FillKeyFields(FillConfig(Some(1), Some(7), 5, -6, [109, 92, 32, 10])) ==
      [Str(AI_SMART_FILL_V1), OpHash(1), OpHash(7), Float(5), Int32(-6), Str([109, 47])]
    ensures FillKeyFields(FillConfig(None, None, 0, 0, [])) ==
      [Str(AI_SMART_FILL_V1), OpHash(0), OpHash(0), Float(0), Int32(0), Str([])]
  {
    assert Ascii("AISmartFill.v1") == AI_SMART_FILL_V1;
    var m: seq<byte> := [109, 92, 32, 10];
    DropTrailingSpaceTrims(m);
    assert IsTrimmed(m, [109, 92]);
    TrimmedIsUnique(m, [109, 92], DropTrailingSpace(m));
    assert Slashed([109, 92]) == [109, 47];
    DropTrailingSpaceTrims([]);
    TrimmedIsUnique([], [], DropTrailingSpace([]));
    assert Slashed([]) == [];
  }

  const AI_SMART_FILL_V1: seq<byte> := [65, 73, 83, 109, 97, 114, 116, 70, 105, 108, 108, 46, 118, 49]
  const AI_GENERATE_V1: seq<byte> := [65, 73, 71, 101, 110, 101, 114, 97, 116, 101, 46, 118, 49]
  const LORAS: seq<byte> := [108, 111, 114, 97, 115]
  const IMG2IMG: seq<byte> := [105, 109, 103, 50, 105, 109, 103]
  const NO_INPUT: seq<byte> := [110, 111, 95, 105, 110, 112, 117, 116]
  const CONTROLNET: seq<byte> := [99, 111, 110, 116, 114, 111, 108, 110, 101, 116]

  lemma Markers()
    ensures Ascii("AIGenerate.v1") == AI_GENERATE_V1 && Ascii("loras") == LORAS && Ascii("img2img") == IMG2IMG
    ensures Ascii("no_input") == NO_INPUT && Ascii("controlnet") == CONTROLNET
  {
  }

  /** The fields of two AIGenerate keys, in order: with nothing connected, and with everything and two LoRAs. */
  lemma GenerateFieldsOf()
    ensures
      var c := Config(1, [2], [3], 4, 5, 6, 7, 8, [9], [10], [11], [12], [], 13, None, [], 14, Some(15));
      KeyFields(c) ==
        [Str(AI_GENERATE_V1), Int32(1), Str([2]), Str([3]), Int32(4), Int32(5), Int32(6), Float(7), Int64(8)]
        + [Str([9]), Str([10]), Str([11]), Str([12])] + [Str(LORAS), Int32(0)]
        + [Str(IMG2IMG), Str(NO_INPUT)] + [Str(CONTROLNET), Str([])]
    ensures
      var loras := [Lora([20], 21), Lora([22], 23)];
      var c := Config(1, [2], [3], 4, 5, 6, 7, 8, [9], [10], [11], [12], loras, 13, Some(16), [17], 18, Some(19));
      KeyFields(c) ==
        [Str(AI_GENERATE_V1), Int32(1), Str([2]), Str([3]), Int32(4), Int32(5), Int32(6), Float(7), Int64(8)]
        + [Str([9]), Str([10]), Str([11]), Str([12])] + [Str(LORAS), Int32(2)]
        + [Str([20]), Float(21), Str([22]), Float(23)]
        + [Str(IMG2IMG), Float(13), Int64(16)] + [Str(CONTROLNET), Str([17]), Float(18), Int64(19)]
  {
    Markers();
    PlainPaths();
    NoLoras();
    TwoLoras(Lora([20], 21), Lora([22], 23));
    hide Slashed, Ascii, LoraFields;
  }

  lemma NoLoras()
    ensures LoraFields([]) == []
  {
  }

  lemma TwoLoras(a: Lora, b: Lora)
    ensures LoraFields([a, b]) == [Str(Slashed(a.path)), Float(a.weight), Str(Slashed(b.path)), Float(b.weight)]
  {
    hide Slashed;
    assert [a, b][..1] == [a] && [a][..0] == [];
  }

  /** Bytes other than backslashes stay. */
  lemma PlainPaths()
    ensures Slashed([]) == [] && forall b: byte :: b != 92 ==> Slashed([b]) == [b]
  {
  }

  /** The two Ops never hash the same stream, whatever their knobs. */
  lemma OpsNeverShareAStream(c: Config, f: FillConfig)
    requires ConfigFits(c) && |f.model| < TWO_32
    ensures Stream(KeyFields(c)) != Stream(FillKeyFields(f))
  {
    hide Stream;
    KeyFieldsFit(c);
    DropTrailingSpaceShrinks(f.model);
    StreamDecodes(KeyFields(c));
    StreamDecodes(FillKeyFields(f));
    assert KeyFields(c)[1] == Int32(c.modelType) && FillKeyFields(f)[1].OpHash?;
  }

  lemma DropTrailingSpaceShrinks(s: seq<byte>)
    ensures |DropTrailingSpace(s)| <= |s|
  {
  }
}
