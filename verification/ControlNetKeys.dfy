/**
 convert_key and the conversion loop of the ControlNet converter. A tensor name is handled as the list of its
 dot-separated segments: a prefix test or partition at dots is a test or cut of that list.
 */
module ControlNetKeys {
  import opened Bytes
  import L = LoraList

  type Name = seq<string>

  // ---- Names as segments ----

  function Split(s: string): (segs: Name)
    ensures segs != []
  {
    var k := L.IndexOf(s, '.');
    if k < |s| then [s[..k]] + Split(s[k + 1..]) else [s]
  }

  function Join(segs: Name): string
    requires segs != []
  {
    if |segs| == 1 then segs[0] else segs[0] + "." + Join(segs[1..])
  }

  predicate Plain(s: string) {
    '.' !in s
  }

  predicate Dotless(segs: Name) {
    forall i :: 0 <= i < |segs| ==> Plain(segs[i])
  }

  lemma {:induction false} JoinSplit(s: string)
    ensures Join(Split(s)) == s && Dotless(Split(s))
    decreases |s|
  {
    var k := L.IndexOf(s, '.');
    if k < |s| {
      JoinSplit(s[k + 1..]);
      assert Split(s)[1..] == Split(s[k + 1..]);
      assert s == s[..k] + "." + s[k + 1..];
    }
  }

  lemma SplitFirst(a: string, t: string)
    requires Plain(a)
    ensures Split(a + "." + t) == [a] + Split(t)
  {
    hide L.IndexOf;
    var s := a + "." + t;
    L.IndexOfUnique(s, '.', |a|);
    assert s[..|a|] == a && s[|a| + 1..] == t;
  }

  lemma {:induction false} SplitJoin(segs: Name)
    requires segs != [] && Dotless(segs)
    ensures Split(Join(segs)) == segs
  {
    hide L.IndexOf;
    if |segs| == 1 {
      L.IndexOfUnique(segs[0], '.', |segs[0]|);
    } else {
      hide Split;
      SplitJoin(segs[1..]);
      SplitFirst(segs[0], Join(segs[1..]));
      assert segs == [segs[0]] + segs[1..];
    }
  }

  /** What str.partition(".") leaves after the first dot; the empty string when there is none. */
  function Tail(segs: Name): (t: Name)
    requires segs != []
    ensures t != []
  {
    if |segs| == 1 then [""] else segs[1..]
  }

  // ---- int() ----

  /** Digits, with single underscores between them. */
  predicate Grouped(s: string) {
    && s != "" && L.IsDigit(s[0]) && L.IsDigit(s[|s| - 1])
    && (forall i :: 0 <= i < |s| ==> L.IsDigit(s[i]) || s[i] == '_')
    && (forall i :: 0 < i < |s| ==> !(s[i - 1] == '_' && s[i] == '_'))
  }

  function Ungrouped(s: string): string {
    if s == "" then "" else Ungrouped(s[..|s| - 1]) + if s[|s| - 1] == '_' then "" else [s[|s| - 1]]
  }

  lemma {:induction false} UngroupedDigits(s: string)
    requires forall i :: 0 <= i < |s| ==> L.IsDigit(s[i]) || s[i] == '_'
    ensures L.AllDigits(Ungrouped(s))
    ensures L.AllDigits(s) ==> Ungrouped(s) == s
  {
    if s != "" {
      UngroupedDigits(s[..|s| - 1]);
      assert s == s[..|s| - 1] + [s[|s| - 1]];
    }
  }

  predicate IsPySpace(c: char) {
    c == ' ' || '\t' <= c <= '\r'
  }

  function Strip(s: string): (t: string)
    ensures s != "" && !IsPySpace(s[0]) && !IsPySpace(s[|s| - 1]) ==> t == s
    decreases |s|
  {
    if s == "" then s
    else if IsPySpace(s[0]) then Strip(s[1..])
    else if IsPySpace(s[|s| - 1]) then Strip(s[..|s| - 1])
    else s
  }

  /** Python's int() on ASCII text; None is the ValueError. */
  function PyInt(s: string): Option<int> {
    var t := Strip(s);
    var signed := t != "" && (t[0] == '-' || t[0] == '+');
    var u := if signed then t[1..] else t;
    if !Grouped(u) then None
    else
      UngroupedDigits(u);
      var v: int := L.DigitsValue(Ungrouped(u));
      Some(if signed && t[0] == '-' then -v else v)
  }

  /** The canonical numeral. */
  function Num(n: nat): (s: string)
    ensures s != "" && L.AllDigits(s)
  {
    var d := ['0' + (n % 10) as char];
    if n < 10 then d else Num(n / 10) + d
  }

  lemma {:induction false} NumValue(n: nat)
    ensures L.DigitsValue(Num(n)) == n
  {
    var s := Num(n);
    if n < 10 {
      assert s[..|s| - 1] == "";
    } else {
      NumValue(n / 10);
      assert s[..|s| - 1] == Num(n / 10);
    }
  }

  lemma DigitsParse(s: string)
    requires s != "" && L.AllDigits(s)
    ensures PyInt(s) == Some(L.DigitsValue(s))
  {
    hide Strip, Ungrouped, L.DigitsValue;
    assert L.IsDigit(s[0]) && L.IsDigit(s[|s| - 1]);
    UngroupedDigits(s);
  }

  lemma NumParses(n: nat)
    ensures PyInt(Num(n)) == Some(n) && Plain(Num(n))
  {
    hide PyInt, Num, L.DigitsValue;
    NumValue(n);
    DigitsParse(Num(n));
    assert forall i :: 0 <= i < |Num(n)| ==> L.IsDigit(Num(n)[i]);
  }

  // ---- convert_key ----

  datatype Converted = Mapped(name: Name) | Unmapped | ValueError

  function ResnetLayer(layer: string): Option<Name> {
    match layer
    case "conv1" => Some(["in_layers", "2"])
    case "norm1" => Some(["in_layers", "0"])
    case "conv2" => Some(["out_layers", "3"])
    case "norm2" => Some(["out_layers", "0"])
    case "time_emb_proj" => Some(["emb_layers", "1"])
    case "conv_shortcut" => Some(["skip_connection"])
    case _ => None
  }

  /** _RESNET_SUB: each layer has a weight and a bias. */
  function ResnetSub(sub: Name): Option<Name> {
    if |sub| != 2 || (sub[1] != "weight" && sub[1] != "bias") || ResnetLayer(sub[0]).None? then None
    else Some(ResnetLayer(sub[0]).value + [sub[1]])
  }

  /** _RESNET_TO_IB, _ATTN_TO_IB, _DOWN_TO_IB and _COND_EMBED_TO_HINT. */
  function ResnetBlock(b: int, r: int): Option<nat> {
    if 0 <= b <= 2 && 0 <= r <= 1 then Some(3 * b + r + 1) else None
  }

  function AttentionBlock(b: int, a: int): Option<nat> {
    if 1 <= b <= 2 && 0 <= a <= 1 then Some(3 * b + a + 1) else None
  }

  function DownBlock(b: int): Option<nat> {
    if 0 <= b <= 1 then Some(3 * b + 3) else None
  }

  function HintBlock(i: int): Option<nat> {
    if 0 <= i <= 5 then Some(2 * i + 2) else None
  }

  /** startswith("a.") and startswith("a.b."). */
  predicate Starts(k: Name, a: string) {
    |k| > 1 && k[0] == a
  }

  predicate StartsTwo(k: Name, a: string, b: string) {
    |k| > 2 && k[0] == a && k[1] == b
  }

  predicate EndsInConv(seg: string) {
    |seg| >= 4 && seg[|seg| - 4..] == "conv"
  }

  /** What partition("conv.") leaves: the segments after the first inner one that ends in "conv". */
  function AfterConv(segs: Name): (t: Name)
    requires segs != []
    ensures t != []
  {
    if |segs| == 1 then [""]
    else if EndsInConv(segs[0]) then segs[1..]
    else AfterConv(segs[1..])
  }

  function ConvertDown(k: Name): (r: Converted)
    requires |k| > 1
    ensures r.Mapped? ==> r.name != []
  {
    var block, after := PyInt(k[1]), Tail(k[1..]);
    var kind, after2 := after[0], Tail(after);
    if block.None? then ValueError
    else if kind == "resnets" then
      var rn := PyInt(after2[0]);
      if rn.None? then ValueError
      else
        var ib, sub := ResnetBlock(block.value, rn.value), ResnetSub(Tail(after2));
        if ib.None? || sub.None? then Unmapped
        else Mapped(["input_blocks", Num(ib.value), "0"] + sub.value)
    else if kind == "attentions" then
      var an := PyInt(after2[0]);
      if an.None? then ValueError
      else
        var ib := AttentionBlock(block.value, an.value);
        if ib.None? then Unmapped else Mapped(["input_blocks", Num(ib.value), "1"] + Tail(after2))
    else if kind == "downsamplers" then
      var ib := DownBlock(block.value);
      if ib.None? then Unmapped else Mapped(["input_blocks", Num(ib.value), "0", "op"] + AfterConv(after2))
    else Unmapped
  }

  function ConvertMid(k: Name): (r: Converted)
    requires |k| > 1
    ensures r.Mapped? ==> r.name != []
  {
    var kind, after := k[1], Tail(k[1..]);
    if kind == "resnets" then
      var rn := PyInt(after[0]);
      if rn.None? then ValueError
      else
        var sub := ResnetSub(Tail(after));
        if sub.None? then Unmapped
        else Mapped(["middle_block", if rn.value == 0 then "0" else "2"] + sub.value)
    else if kind == "attentions" then Mapped(["middle_block", "1"] + Tail(after))
    else Unmapped
  }

  function ConvertSegments(k: Name): (r: Converted)
    ensures r.Mapped? ==> r.name != []
  {
    if Starts(k, "conv_in") then Mapped(["input_blocks", "0", "0"] + k[1..])
    else if StartsTwo(k, "time_embedding", "linear_1") then Mapped(["time_embed", "0"] + k[2..])
    else if StartsTwo(k, "time_embedding", "linear_2") then Mapped(["time_embed", "2"] + k[2..])
    else if StartsTwo(k, "add_embedding", "linear_1") then Mapped(["label_emb", "0", "0"] + k[2..])
    else if StartsTwo(k, "add_embedding", "linear_2") then Mapped(["label_emb", "0", "2"] + k[2..])
    else if StartsTwo(k, "controlnet_cond_embedding", "conv_in") then Mapped(["input_hint_block", "0"] + k[2..])
    else if StartsTwo(k, "controlnet_cond_embedding", "conv_out") then Mapped(["input_hint_block", "14"] + k[2..])
    else if StartsTwo(k, "controlnet_cond_embedding", "blocks") then
      var i := PyInt(k[2]);
      if i.None? then ValueError
      else
        var j := HintBlock(i.value);
        if j.None? then Unmapped else Mapped(["input_hint_block", Num(j.value)] + Tail(k[2..]))
    else if Starts(k, "controlnet_down_blocks") then Mapped(["zero_convs", k[1], "0"] + Tail(k[1..]))
    else if Starts(k, "controlnet_mid_block") then Mapped(["middle_block_out", "0"] + k[1..])
    else if Starts(k, "down_blocks") then ConvertDown(k)
    else if Starts(k, "mid_block") then ConvertMid(k)
    else Unmapped
  }

  /** convert_key on names as strings. */
  datatype Outcome = NewName(name: string) | NoName | Raises

  function ConvertKey(k: string): Outcome {
    match ConvertSegments(Split(k))
    case Mapped(segs) => NewName(Join(segs))
    case Unmapped => NoName
    case ValueError => Raises
  }

  // ---- The diffusers key grammar ----

  /** The well-formed names: canonical numerals, a non-empty remainder after the fixed part. */
  datatype Key =
    | ConvIn(rest: Name)
    | TimeEmbed1(rest: Name) | TimeEmbed2(rest: Name)
    | AddEmbed1(rest: Name) | AddEmbed2(rest: Name)
    | CondConvIn(rest: Name) | CondConvOut(rest: Name) | CondBlock(i: nat, rest: Name)
    | DownZero(index: string, rest: Name) | MidZero(rest: Name)
    | DownResnet(b: nat, r: nat, rest: Name) | DownAttention(b: nat, a: nat, rest: Name)
    | Downsampler(b: nat, rest: Name)
    | MidResnet(second: bool, rest: Name) | MidAttention(rest: Name)

  function Segments(k: Key): Name {
    match k
    case ConvIn(s) => ["conv_in"] + s
    case TimeEmbed1(s) => ["time_embedding", "linear_1"] + s
    case TimeEmbed2(s) => ["time_embedding", "linear_2"] + s
    case AddEmbed1(s) => ["add_embedding", "linear_1"] + s
    case AddEmbed2(s) => ["add_embedding", "linear_2"] + s
    case CondConvIn(s) => ["controlnet_cond_embedding", "conv_in"] + s
    case CondConvOut(s) => ["controlnet_cond_embedding", "conv_out"] + s
    case CondBlock(i, s) => ["controlnet_cond_embedding", "blocks", Num(i)] + s
    case DownZero(index, s) => ["controlnet_down_blocks", index] + s
    case MidZero(s) => ["controlnet_mid_block"] + s
    case DownResnet(b, r, s) => ["down_blocks", Num(b), "resnets", Num(r)] + s
    case DownAttention(b, a, s) => ["down_blocks", Num(b), "attentions", Num(a)] + s
    case Downsampler(b, s) => ["down_blocks", Num(b), "downsamplers", "0", "conv"] + s
    case MidResnet(second, s) => ["mid_block", "resnets", if second then "1" else "0"] + s
    case MidAttention(s) => ["mid_block", "attentions", "0"] + s
  }

  /** The legacy name, where there is one. */
  function Legacy(k: Key): (r: Option<Name>)
    ensures r.Some? ==> r.value != []
  {
    match k
    case ConvIn(s) => Some(["input_blocks", "0", "0"] + s)
    case TimeEmbed1(s) => Some(["time_embed", "0"] + s)
    case TimeEmbed2(s) => Some(["time_embed", "2"] + s)
    case AddEmbed1(s) => Some(["label_emb", "0", "0"] + s)
    case AddEmbed2(s) => Some(["label_emb", "0", "2"] + s)
    case CondConvIn(s) => Some(["input_hint_block", "0"] + s)
    case CondConvOut(s) => Some(["input_hint_block", "14"] + s)
    case CondBlock(i, s) => if i <= 5 then Some(["input_hint_block", Num(2 * i + 2)] + s) else None
    case DownZero(index, s) => Some(["zero_convs", index, "0"] + s)
    case MidZero(s) => Some(["middle_block_out", "0"] + s)
    case DownResnet(b, r, s) =>
      if b <= 2 && r <= 1 && ResnetSub(s).Some?
      then Some(["input_blocks", Num(3 * b + r + 1), "0"] + ResnetSub(s).value)
      else None
    case DownAttention(b, a, s) =>
      if 1 <= b <= 2 && a <= 1 then Some(["input_blocks", Num(3 * b + a + 1), "1"] + s) else None
    case Downsampler(b, s) => if b <= 1 then Some(["input_blocks", Num(3 * b + 3), "0", "op"] + s) else None
    case MidResnet(second, s) =>
      if ResnetSub(s).Some? then Some(["middle_block", if second then "2" else "0"] + ResnetSub(s).value) else None
    case MidAttention(s) => Some(["middle_block", "1"] + s)
  }

  lemma SmallNumerals()
    ensures Num(0) == "0" && Num(1) == "1" && Num(2) == "2" && Num(14) == "14"
    ensures PyInt("0") == Some(0) && PyInt("1") == Some(1)
  {
    assert Num(1) == "1" && Num(14 / 10) == "1";
    NumParses(0);
    NumParses(1);
  }

  lemma DownParts(k: Key, block: string, after: Name)
    requires Segments(k) == ["down_blocks", block] + after && |after| >= 3
    ensures |Segments(k)| > 1 && Segments(k)[1] == block
    ensures Tail(Segments(k)[1..]) == after && Tail(after) == after[1..] && Tail(Tail(after)) == after[2..]
  {
  }

  lemma ResnetConverts(k: Key)
    requires k.DownResnet? && k.rest != []
    ensures ConvertDown(Segments(k)) == (if Legacy(k).Some? then Mapped(Legacy(k).value) else Unmapped)
  {
    hide Num, PyInt, ResnetSub, Tail;
    NumParses(k.b);
    NumParses(k.r);
    var after := ["resnets", Num(k.r)] + k.rest;
    DownParts(k, Num(k.b), after);
    assert after[2..] == k.rest && after[1..][0] == Num(k.r);
  }

  lemma AttentionConverts(k: Key)
    requires k.DownAttention? && k.rest != []
    ensures ConvertDown(Segments(k)) == (if Legacy(k).Some? then Mapped(Legacy(k).value) else Unmapped)
  {
    hide Num, PyInt, ResnetSub, Tail;
    NumParses(k.b);
    NumParses(k.a);
    var after := ["attentions", Num(k.a)] + k.rest;
    DownParts(k, Num(k.b), after);
    assert after[2..] == k.rest && after[1..][0] == Num(k.a);
  }

  lemma DownsamplerConverts(k: Key)
    requires k.Downsampler? && k.rest != []
    ensures ConvertDown(Segments(k)) == (if Legacy(k).Some? then Mapped(Legacy(k).value) else Unmapped)
  {
    hide Num, PyInt, ResnetSub, AfterConv, Tail;
    NumParses(k.b);
    DownParts(k, Num(k.b), ["downsamplers", "0", "conv"] + k.rest);
    ConvCut("0", k.rest);
    assert (["downsamplers", "0", "conv"] + k.rest)[1..] == ["0", "conv"] + k.rest;
  }

  lemma ConvCut(index: string, s: Name)
    requires s != [] && !EndsInConv(index)
    ensures AfterConv([index, "conv"] + s) == s
  {
    var segs := [index, "conv"] + s;
    assert segs[1..] == ["conv"] + s && segs[1..][1..] == s;
    assert "conv"[0..] == "conv";
    assert AfterConv(segs) == AfterConv(segs[1..]);
  }

  lemma MidConverts(k: Key)
    requires k.rest != [] && (k.MidResnet? || k.MidAttention?)
    ensures ConvertMid(Segments(k)) == (if Legacy(k).Some? then Mapped(Legacy(k).value) else Unmapped)
  {
    hide Num, PyInt, ResnetSub;
    SmallNumerals();
    match k {
      case MidResnet(second, s) =>
        var i := if second then "1" else "0";
        assert Tail(Segments(k)[1..]) == [i] + s && Tail([i] + s) == s;
        assert PyInt(i) == Some(if second then 1 else 0);
        assert ConvertMid(Segments(k)) ==
          if ResnetSub(s).None? then Unmapped
            else Mapped(["middle_block", if second then "2" else "0"] + ResnetSub(s).value);
      case MidAttention(s) =>
        assert Tail(Segments(k)[1..]) == ["0"] + s && Tail(["0"] + s) == s;
    }
  }

  /** The keys of one fixed segment, or two. */
  lemma FixedConverts(k: Key)
    requires k.ConvIn? || k.TimeEmbed1? || k.TimeEmbed2? || k.AddEmbed1? || k.AddEmbed2? || k.MidZero?
    requires k.rest != []
    ensures ConvertSegments(Segments(k)) == Mapped(Legacy(k).value)
  {
    hide Num, PyInt, ResnetSub, ConvertDown, ConvertMid, Tail;
    assert "linear_1"[7] != "linear_2"[7];
    if k.ConvIn? || k.MidZero? {
      assert Segments(k)[1..] == k.rest;
    } else {
      assert Segments(k)[2..] == k.rest;
    }
  }

  lemma CondConverts(k: Key)
    requires (k.CondConvIn? || k.CondConvOut? || k.CondBlock?) && k.rest != []
    ensures ConvertSegments(Segments(k)) == (if Legacy(k).Some? then Mapped(Legacy(k).value) else Unmapped)
  {
    hide Num, PyInt, ResnetSub, ConvertDown, ConvertMid;
    if k.CondBlock? {
      NumParses(k.i);
      assert Tail(Segments(k)[2..]) == k.rest;
    } else {
      assert Segments(k)[2..] == k.rest;
    }
  }

  lemma DownZeroConverts(k: Key)
    requires k.DownZero? && k.rest != []
    ensures ConvertSegments(Segments(k)) == Mapped(Legacy(k).value)
  {
    hide Num, PyInt, ResnetSub, ConvertDown, ConvertMid;
    assert Tail(Segments(k)[1..]) == k.rest;
  }

  lemma BlocksDispatch(k: Key)
    requires k.rest != []
    ensures k.DownResnet? || k.DownAttention? || k.Downsampler? ==>
      ConvertSegments(Segments(k)) == ConvertDown(Segments(k))
    ensures k.MidResnet? || k.MidAttention? ==> ConvertSegments(Segments(k)) == ConvertMid(Segments(k))
  {
    hide Num, PyInt, ResnetSub, ConvertDown, ConvertMid, Tail;
  }

  /** On the grammar convert_key does what the conversion summary says. */
  lemma ConvertsToLegacy(k: Key)
    requires k.rest != []
    ensures ConvertSegments(Segments(k)) == (if Legacy(k).Some? then Mapped(Legacy(k).value) else Unmapped)
  {
    hide Num, PyInt, ResnetSub, ConvertDown, ConvertMid, ConvertSegments, Segments;
    BlocksDispatch(k);
    match k {
      case DownResnet(_, _, _) => ResnetConverts(k);
      case DownAttention(_, _, _) => AttentionConverts(k);
      case Downsampler(_, _) => DownsamplerConverts(k);
      case MidResnet(_, _) => MidConverts(k);
      case MidAttention(_) => MidConverts(k);
      case CondConvIn(_) => CondConverts(k);
      case CondConvOut(_) => CondConverts(k);
      case CondBlock(_, _) => CondConverts(k);
      case DownZero(_, _) => DownZeroConverts(k);
      case _ => FixedConverts(k);
    }
  }

  // ---- No two names collide ----

  /** The inverse of _RESNET_SUB. */
  function ResnetSubBack(legacy: Name): Name
    requires |legacy| >= 2
  {
    [ if legacy[0] == "skip_connection" then "conv_shortcut"
      else if legacy[0] == "emb_layers" then "time_emb_proj"
      else if legacy[0] == "in_layers" then (if legacy[1] == "2" then "conv1" else "norm1")
      else if legacy[1] == "3" then "conv2"
      else "norm2",
      legacy[|legacy| - 1] ]
  }

  function NumBack(s: string): nat {
    match PyInt(s)
    case Some(v) => if v >= 0 then v else 0
    case None => 0
  }

  function BackInput(n: Name): Key
    requires |n| >= 3
  {
    var ib := NumBack(n[1]);
    if ib == 0 then ConvIn(n[3..])
    else if n[2] == "1" then DownAttention((ib - 1) / 3, (ib - 1) % 3, n[3..])
    else if ib % 3 == 0 then Downsampler(ib / 3 - 1, if |n| > 4 then n[4..] else [])
    else DownResnet((ib - 1) / 3, (ib - 1) % 3, if |n| >= 5 then ResnetSubBack(n[3..]) else [])
  }

  function BackHint(n: Name): Key
    requires |n| >= 3
  {
    var j := NumBack(n[1]);
    if j == 0 then CondConvIn(n[2..])
    else if j == 14 then CondConvOut(n[2..])
    else CondBlock(if j >= 2 then (j - 2) / 2 else 0, n[2..])
  }

  function BackMid(n: Name): Key
    requires |n| >= 3
  {
    if n[1] == "1" then MidAttention(n[2..]) else MidResnet(n[1] == "2", if |n| >= 4 then ResnetSubBack(n[2..]) else [])
  }

  function BackEmbed(n: Name): Key
    requires |n| >= 3
  {
    if n[0] == "time_embed" then if n[1] == "0" then TimeEmbed1(n[2..]) else TimeEmbed2(n[2..])
    else if n[2] == "0" then AddEmbed1(n[3..])
    else AddEmbed2(n[3..])
  }

  /** The diffusers key of a legacy name. */
  function Back(n: Name): Key
    requires |n| >= 3
  {
    if n[0] == "input_blocks" then BackInput(n)
    else if n[0] == "time_embed" || n[0] == "label_emb" then BackEmbed(n)
    else if n[0] == "input_hint_block" then BackHint(n)
    else if n[0] == "zero_convs" then DownZero(n[1], n[3..])
    else if n[0] == "middle_block_out" then MidZero(n[2..])
    else BackMid(n)
  }

  lemma ResnetSubInvertible(sub: Name)
    requires ResnetSub(sub).Some?
    ensures |sub| == 2 && |ResnetSub(sub).value| >= 2 && ResnetSubBack(ResnetSub(sub).value) == sub
  {
    assert "0"[0] != "2"[0] && "0"[0] != "3"[0] && "in_layers"[0] != "emb_layers"[0];
    assert "emb_layers"[0] != "out_layers"[0];
    assert sub == [sub[0], sub[1]];
  }

  lemma NumBackNum(n: nat)
    ensures NumBack(Num(n)) == n
  {
    hide Num, PyInt;
    NumParses(n);
  }

  lemma HeadsDiffer()
    ensures "input_blocks" != "middle_block" && "time_embed" != "zero_convs" && "input_hint_block" != "middle_block_out"
    ensures "0" != "1" && "0" != "2" && "1" != "2"
  {
    assert "input_blocks"[0] != "middle_block"[0] && "time_embed"[0] != "zero_convs"[0];
    assert "input_hint_block"[0] != "middle_block_out"[0] && "0"[0] != "1"[0] && "0"[0] != "2"[0] && "1"[0] != "2"[0];
  }

  lemma ConvInInvertible(k: Key)
    requires k.ConvIn?
    ensures BackInput(Legacy(k).value) == k
  {
    hide Num, NumBack, ResnetSub, ResnetSubBack;
    SmallNumerals();
    NumBackNum(0);
    assert Legacy(k).value[3..] == k.rest;
  }

  lemma EmbedInvertible(k: Key)
    requires k.rest != [] && (k.TimeEmbed1? || k.TimeEmbed2? || k.AddEmbed1? || k.AddEmbed2?)
    ensures BackEmbed(Legacy(k).value) == k
  {
    HeadsDiffer();
    var n := Legacy(k).value;
    if k.AddEmbed1? || k.AddEmbed2? {
      assert n[3..] == k.rest;
    } else {
      assert n[2..] == k.rest;
    }
  }

  lemma ZeroInvertible(k: Key)
    requires k.rest != [] && (k.DownZero? || k.MidZero?)
    ensures Back(Legacy(k).value) == k
  {
    hide Num, NumBack, BackInput, BackHint, BackEmbed, BackMid;
    HeadsDiffer();
    if k.DownZero? {
      assert Legacy(k).value[3..] == k.rest;
    } else {
      assert Legacy(k).value[2..] == k.rest;
    }
  }

  lemma CondInvertible(k: Key)
    requires k.rest != [] && Legacy(k).Some? && (k.CondConvIn? || k.CondConvOut? || k.CondBlock?)
    ensures BackHint(Legacy(k).value) == k
  {
    hide Num, NumBack, ResnetSub;
    var n := Legacy(k).value;
    assert n[2..] == k.rest;
    if k.CondBlock? {
      NumBackNum(2 * k.i + 2);
    } else {
      SmallNumerals();
      NumBackNum(if k.CondConvIn? then 0 else 14);
    }
  }

  lemma ResnetInvertible(k: Key)
    requires Legacy(k).Some? && k.DownResnet?
    ensures BackInput(Legacy(k).value) == k
  {
    hide Num, NumBack, ResnetSub, ResnetSubBack;
    HeadsDiffer();
    NumBackNum(3 * k.b + k.r + 1);
    ResnetSubInvertible(k.rest);
    assert Legacy(k).value[3..] == ResnetSub(k.rest).value;
  }

  lemma AttentionInvertible(k: Key)
    requires Legacy(k).Some? && k.DownAttention?
    ensures BackInput(Legacy(k).value) == k
  {
    hide Num, NumBack, ResnetSub, ResnetSubBack;
    HeadsDiffer();
    NumBackNum(3 * k.b + k.a + 1);
    assert Legacy(k).value[3..] == k.rest;
  }

  lemma DownsamplerInvertible(k: Key)
    requires k.rest != [] && Legacy(k).Some? && k.Downsampler?
    ensures BackInput(Legacy(k).value) == k
  {
    hide Num, NumBack, ResnetSub, ResnetSubBack;
    HeadsDiffer();
    NumBackNum(3 * k.b + 3);
    assert Legacy(k).value[4..] == k.rest;
  }

  lemma MidInvertible(k: Key)
    requires k.rest != [] && Legacy(k).Some? && (k.MidResnet? || k.MidAttention?)
    ensures BackMid(Legacy(k).value) == k
  {
    hide Num, NumBack, ResnetSub, ResnetSubBack;
    HeadsDiffer();
    if k.MidResnet? {
      ResnetSubInvertible(k.rest);
      assert Legacy(k).value[2..] == ResnetSub(k.rest).value;
    } else {
      assert Legacy(k).value[2..] == k.rest;
    }
  }

  lemma LegacyLength(k: Key)
    requires k.rest != [] && Legacy(k).Some?
    ensures |Legacy(k).value| >= 3
  {
    hide Num, ResnetSub;
    if k.DownResnet? || k.MidResnet? {
      ResnetSubInvertible(k.rest);
    }
  }

  lemma BackDispatch(k: Key)
    requires Legacy(k).Some? && |Legacy(k).value| >= 3
    ensures
      var n := Legacy(k).value;
      match k
      case ConvIn(_) | DownResnet(_, _, _) | DownAttention(_, _, _) | Downsampler(_, _) => Back(n) == BackInput(n)
      case TimeEmbed1(_) | TimeEmbed2(_) | AddEmbed1(_) | AddEmbed2(_) => Back(n) == BackEmbed(n)
      case CondConvIn(_) | CondConvOut(_) | CondBlock(_, _) => Back(n) == BackHint(n)
      case MidResnet(_, _) | MidAttention(_) => Back(n) == BackMid(n)
      case DownZero(_, _) | MidZero(_) => true
  {
    hide Num, ResnetSub, BackInput, BackHint, BackEmbed, BackMid;
    HeadsDiffer();
  }

  /** Nothing in a legacy name is lost. */
  lemma LegacyInvertible(k: Key)
    requires k.rest != [] && Legacy(k).Some?
    ensures |Legacy(k).value| >= 3 && Back(Legacy(k).value) == k
  {
    hide Legacy, Back;
    LegacyLength(k);
    BackDispatch(k);
    match k {
      case ConvIn(_) => ConvInInvertible(k);
      case DownZero(_, _) => ZeroInvertible(k);
      case MidZero(_) => ZeroInvertible(k);
      case CondConvIn(_) => CondInvertible(k);
      case CondConvOut(_) => CondInvertible(k);
      case CondBlock(_, _) => CondInvertible(k);
      case DownResnet(_, _, _) => ResnetInvertible(k);
      case DownAttention(_, _, _) => AttentionInvertible(k);
      case Downsampler(_, _) => DownsamplerInvertible(k);
      case MidResnet(_, _) => MidInvertible(k);
      case MidAttention(_) => MidInvertible(k);
      case _ => EmbedInvertible(k);
    }
  }

  /** The names of the grammar. */
  ghost predicate WellFormed(name: string) {
    exists k: Key :: k.rest != [] && Segments(k) == Split(name)
  }

  lemma DotlessParts(a: Name, b: Name)
    ensures Dotless(a + b) <==> Dotless(a) && Dotless(b)
  {
    if Dotless(a + b) {
      assert forall i :: 0 <= i < |a| ==> (a + b)[i] == a[i];
      assert forall i :: 0 <= i < |b| ==> (a + b)[|a| + i] == b[i];
    }
  }

  /** The one segment a key takes over as it is. */
  predicate PlainIndex(k: Key) {
    k.DownZero? ==> Plain(k.index)
  }

  lemma RestDotless(k: Key)
    requires Dotless(Segments(k))
    ensures Dotless(k.rest) && PlainIndex(k)
  {
    hide Num, Dotless, PlainIndex;
    var n := Segments(k);
    IndexPlain(k);
    var cut := |n| - |k.rest|;
    assert n[cut..] == k.rest;
    DotlessParts(n[..cut], n[cut..]);
    assert n == n[..cut] + n[cut..];
  }

  lemma IndexPlain(k: Key)
    requires Dotless(Segments(k))
    ensures PlainIndex(k)
  {
    hide Num, Plain;
    if k.DownZero? {
      assert Segments(k)[1] == k.index;
    }
  }

  lemma ResnetSubDotless(sub: Name)
    requires ResnetSub(sub).Some? && Dotless(sub)
    ensures Dotless(ResnetSub(sub).value)
  {
    DotlessParts(ResnetLayer(sub[0]).value, [sub[1]]);
  }

  /** What of a legacy name does not come from the remainder of the key. */
  function LegacyHead(k: Key): Name
    requires !k.DownResnet? && !k.MidResnet?
  {
    match k
    case ConvIn(_) => ["input_blocks", "0", "0"]
    case TimeEmbed1(_) => ["time_embed", "0"]
    case TimeEmbed2(_) => ["time_embed", "2"]
    case AddEmbed1(_) => ["label_emb", "0", "0"]
    case AddEmbed2(_) => ["label_emb", "0", "2"]
    case CondConvIn(_) => ["input_hint_block", "0"]
    case CondConvOut(_) => ["input_hint_block", "14"]
    case CondBlock(i, _) => ["input_hint_block", Num(2 * i + 2)]
    case DownZero(index, _) => ["zero_convs", index, "0"]
    case MidZero(_) => ["middle_block_out", "0"]
    case DownAttention(b, a, _) => ["input_blocks", Num(3 * b + a + 1), "1"]
    case Downsampler(b, _) => ["input_blocks", Num(3 * b + 3), "0", "op"]
    case MidAttention(_) => ["middle_block", "1"]
  }

  lemma WordsArePlain()
    ensures Plain("input_blocks") && Plain("time_embed") && Plain("label_emb") && Plain("input_hint_block")
    ensures Plain("zero_convs") && Plain("middle_block_out") && Plain("middle_block") && Plain("op")
    ensures Plain("0") && Plain("1") && Plain("2") && Plain("14")
  {
  }

  lemma NumberedDotless(n: nat)
    ensures Dotless(["input_hint_block", Num(n)])
    ensures Dotless(["input_blocks", Num(n), "0"]) && Dotless(["input_blocks", Num(n), "1"])
    ensures Dotless(["input_blocks", Num(n), "0", "op"])
  {
    hide Num, Plain;
    WordsArePlain();
    NumParses(n);
  }

  lemma LegacyHeadDotless(k: Key)
    requires !k.DownResnet? && !k.MidResnet? && PlainIndex(k)
    ensures Dotless(LegacyHead(k))
  {
    hide Num, Plain;
    WordsArePlain();
    match k {
      case CondBlock(i, _) => NumberedDotless(2 * i + 2);
      case DownAttention(b, a, _) => NumberedDotless(3 * b + a + 1);
      case Downsampler(b, _) => NumberedDotless(3 * b + 3);
      case _ =>
    }
  }

  lemma MidHead(second: bool)
    ensures Dotless(["middle_block", if second then "2" else "0"])
  {
    hide Plain;
    WordsArePlain();
  }

  lemma LegacyDotless(k: Key)
    requires Legacy(k).Some? && Dotless(k.rest) && PlainIndex(k)
    ensures Dotless(Legacy(k).value)
  {
    hide Num, ResnetSub, Dotless, PlainIndex;
    match k {
      case DownResnet(b, r, s) =>
        ResnetSubDotless(s);
        NumberedDotless(3 * b + r + 1);
        DotlessParts(["input_blocks", Num(3 * b + r + 1), "0"], ResnetSub(s).value);
      case MidResnet(second, s) =>
        ResnetSubDotless(s);
        MidHead(second);
        DotlessParts(["middle_block", if second then "2" else "0"], ResnetSub(s).value);
      case _ =>
        LegacyHeadDotless(k);
        DotlessParts(LegacyHead(k), k.rest);
    }
  }

  /** On the grammar the new name is the legacy name; the conversion never raises there. */
  lemma ConvertKeyOnGrammar(name: string, k: Key)
    requires k.rest != [] && Segments(k) == Split(name)
    ensures ConvertKey(name) == (if Legacy(k).Some? then NewName(Join(Legacy(k).value)) else NoName)
    ensures Legacy(k).Some? ==> Dotless(Legacy(k).value)
  {
    hide Legacy, Segments, ConvertSegments, Dotless, PlainIndex;
    ConvertsToLegacy(k);
    JoinSplit(name);
    RestDotless(k);
    if Legacy(k).Some? {
      LegacyDotless(k);
    }
  }

  /** Distinct names of the grammar never get the same new name. */
  lemma ConvertKeyInjective(a: string, b: string)
    requires WellFormed(a) && WellFormed(b)
    requires ConvertKey(a).NewName? && ConvertKey(a) == ConvertKey(b)
    ensures a == b
  {
    hide Legacy, Segments, ConvertKey, Back, Dotless, Join, Split;
    var ka: Key :| ka.rest != [] && Segments(ka) == Split(a);
    var kb: Key :| kb.rest != [] && Segments(kb) == Split(b);
    ConvertKeyOnGrammar(a, ka);
    ConvertKeyOnGrammar(b, kb);
    LegacyInvertible(ka);
    LegacyInvertible(kb);
    SplitJoin(Legacy(ka).value);
    SplitJoin(Legacy(kb).value);
    JoinSplit(a);
    JoinSplit(b);
  }

  // ---- Names outside the grammar ----

  function MeaningDown(k: Name): Option<Key>
    requires |k| > 1
  {
    var block, after := PyInt(k[1]), Tail(k[1..]);
    var kind, after2 := after[0], Tail(after);
    if block.None? then None
    else if kind == "resnets" then
      var rn := PyInt(after2[0]);
      if rn.None? || ResnetBlock(block.value, rn.value).None? || ResnetSub(Tail(after2)).None? then None
      else Some(DownResnet(block.value, rn.value, Tail(after2)))
    else if kind == "attentions" then
      var an := PyInt(after2[0]);
      if an.None? || AttentionBlock(block.value, an.value).None? then None
      else Some(DownAttention(block.value, an.value, Tail(after2)))
    else if kind == "downsamplers" && DownBlock(block.value).Some?
      then Some(Downsampler(block.value, AfterConv(after2)))
    else None
  }

  function MeaningMid(k: Name): Option<Key>
    requires |k| > 1
  {
    var kind, after := k[1], Tail(k[1..]);
    if kind == "resnets" then
      var rn := PyInt(after[0]);
      if rn.None? || ResnetSub(Tail(after)).None? then None else Some(MidResnet(rn.value != 0, Tail(after)))
    else if kind == "attentions" then Some(MidAttention(Tail(after)))
    else None
  }

  function MeaningCond(k: Name): Option<Key>
    requires |k| > 2
  {
    var i := PyInt(k[2]);
    if i.None? || HintBlock(i.value).None? then None else Some(CondBlock(i.value, Tail(k[2..])))
  }

  /** The well-formed key that a name, canonical or not, is taken for. */
  function Meaning(k: Name): Option<Key> {
    if Starts(k, "conv_in") then Some(ConvIn(k[1..]))
    else if StartsTwo(k, "time_embedding", "linear_1") then Some(TimeEmbed1(k[2..]))
    else if StartsTwo(k, "time_embedding", "linear_2") then Some(TimeEmbed2(k[2..]))
    else if StartsTwo(k, "add_embedding", "linear_1") then Some(AddEmbed1(k[2..]))
    else if StartsTwo(k, "add_embedding", "linear_2") then Some(AddEmbed2(k[2..]))
    else if StartsTwo(k, "controlnet_cond_embedding", "conv_in") then Some(CondConvIn(k[2..]))
    else if StartsTwo(k, "controlnet_cond_embedding", "conv_out") then Some(CondConvOut(k[2..]))
    else if StartsTwo(k, "controlnet_cond_embedding", "blocks") then MeaningCond(k)
    else if Starts(k, "controlnet_down_blocks") then Some(DownZero(k[1], Tail(k[1..])))
    else if Starts(k, "controlnet_mid_block") then Some(MidZero(k[1..]))
    else if Starts(k, "down_blocks") then MeaningDown(k)
    else if Starts(k, "mid_block") then MeaningMid(k)
    else None
  }

  /** A name is converted to the legacy name of its meaning. */
  predicate ConvertsAs(r: Converted, m: Option<Key>) {
    && (r.Mapped? <==> m.Some?)
    && (m.Some? ==> m.value.rest != [] && Legacy(m.value) == Some(r.name))
  }

  lemma DownMeaning(k: Name)
    requires |k| > 1
    ensures ConvertsAs(ConvertDown(k), MeaningDown(k))
  {
    hide Num, PyInt, ResnetSub, AfterConv, Tail;
  }

  lemma MidMeaning(k: Name)
    requires |k| > 1
    ensures ConvertsAs(ConvertMid(k), MeaningMid(k))
  {
    hide Num, PyInt, ResnetSub, AfterConv, Tail;
  }

  lemma MeaningConverts(k: Name)
    ensures ConvertsAs(ConvertSegments(k), Meaning(k))
  {
    hide Num, PyInt, ResnetSub, AfterConv, Tail, ConvertDown, ConvertMid, Meaning, ConvertsAs;
    if |k| > 1 {
      DownMeaning(k);
      MidMeaning(k);
      BlocksMean(k);
    }
    if |k| <= 1 || (k[0] != "down_blocks" && k[0] != "mid_block") {
      OtherMeaning(k);
    }
  }

  lemma OtherMeaning(k: Name)
    requires |k| <= 1 || (k[0] != "down_blocks" && k[0] != "mid_block")
    ensures ConvertsAs(ConvertSegments(k), Meaning(k))
  {
    hide Num, PyInt, ResnetSub, AfterConv, Tail, ConvertDown, ConvertMid, MeaningDown, MeaningMid;
  }

  lemma TailDotless(k: Name)
    requires k != [] && Dotless(k)
    ensures Dotless(Tail(k))
  {
  }

  lemma {:induction false} AfterConvDotless(k: Name)
    requires k != [] && Dotless(k)
    ensures Dotless(AfterConv(k))
  {
    if |k| > 1 {
      AfterConvDotless(k[1..]);
    }
  }

  lemma CutDotless(k: Name, n: nat)
    requires n <= |k| && Dotless(k)
    ensures Dotless(k[n..])
  {
  }

  lemma MeaningDotless(k: Name)
    requires Dotless(k) && Meaning(k).Some?
    ensures Dotless(Meaning(k).value.rest) && PlainIndex(Meaning(k).value)
  {
    hide Num, PyInt, ResnetSub, AfterConv, Tail, Dotless, Plain;
    if |k| > 1 {
      CutDotless(k, 1);
      TailDotless(k[1..]);
      TailDotless(Tail(k[1..]));
      TailDotless(Tail(Tail(k[1..])));
      AfterConvDotless(Tail(Tail(k[1..])));
      assert Plain(k[1]) by { SegmentPlain(k, 1); }
    }
    if |k| > 2 {
      CutDotless(k, 2);
      TailDotless(k[2..]);
    }
  }

  lemma SegmentPlain(k: Name, n: nat)
    requires Dotless(k) && n < |k|
    ensures Plain(k[n])
  {
  }

  lemma NewNameOf(name: string)
    ensures ConvertKey(name).NewName? <==> Meaning(Split(name)).Some?
    ensures ConvertKey(name).NewName? ==>
      var k := Meaning(Split(name)).value;
      k.rest != [] && Legacy(k).Some? && Dotless(Legacy(k).value) && ConvertKey(name) == NewName(Join(Legacy(k).value))
  {
    hide Legacy, Meaning, ConvertSegments, Dotless, PlainIndex, Join, Split;
    MeaningConverts(Split(name));
    if ConvertKey(name).NewName? {
      JoinSplit(name);
      MeaningDotless(Split(name));
      LegacyDotless(Meaning(Split(name)).value);
    }
  }

  /** For all names: two that are converted get the same new name if and only if they mean the same key. */
  lemma SameNewNameIff(a: string, b: string)
    requires ConvertKey(a).NewName? && ConvertKey(b).NewName?
    ensures ConvertKey(a) == ConvertKey(b) <==> Meaning(Split(a)) == Meaning(Split(b))
  {
    hide Legacy, Meaning, ConvertKey, Back, Dotless, Join, Split;
    NewNameOf(a);
    NewNameOf(b);
    var ka, kb := Meaning(Split(a)).value, Meaning(Split(b)).value;
    LegacyInvertible(ka);
    LegacyInvertible(kb);
    SplitJoin(Legacy(ka).value);
    SplitJoin(Legacy(kb).value);
  }

  lemma SameNewNameOfSegments(x: Name, y: Name)
    requires x != [] && y != [] && Dotless(x) && Dotless(y) && Meaning(x).Some? && Meaning(y).Some?
    ensures ConvertKey(Join(x)).NewName? && ConvertKey(Join(y)).NewName?
    ensures ConvertKey(Join(x)) == ConvertKey(Join(y)) <==> Meaning(x) == Meaning(y)
  {
    hide Legacy, Meaning, ConvertKey, Dotless, Join, Split;
    SplitJoin(x);
    SplitJoin(y);
    NewNameOf(Join(x));
    NewNameOf(Join(y));
    SameNewNameIff(Join(x), Join(y));
  }

  lemma BlocksMean(k: Name)
    requires |k| > 1
    ensures k[0] == "down_blocks" ==> Meaning(k) == MeaningDown(k)
    ensures k[0] == "mid_block" ==> Meaning(k) == MeaningMid(k)
  {
    hide PyInt, ResnetSub, MeaningDown, MeaningMid, Tail, AfterConv;
  }

  /** A well-formed name with a legacy name means itself. */
  lemma MeaningOfSegments(k: Key)
    requires k.rest != [] && Legacy(k).Some?
    ensures Meaning(Segments(k)) == Some(k)
  {
    hide Legacy, Segments, ConvertSegments, Meaning, Back;
    ConvertsToLegacy(k);
    MeaningConverts(Segments(k));
    LegacyInvertible(k);
    LegacyInvertible(Meaning(Segments(k)).value);
  }

  function MidResnetName(index: string, sub: Name): Name {
    ["mid_block", "resnets", index] + sub
  }

  /** Every mid_block resnet index but 0 goes to middle_block.2, whatever numeral it is written as. */
  lemma MidResnetsCollideIff(i: string, j: string, s1: Name, s2: Name)
    requires PyInt(i).Some? && PyInt(j).Some? && ResnetSub(s1).Some? && ResnetSub(s2).Some?
    requires Dotless(MidResnetName(i, s1)) && Dotless(MidResnetName(j, s2))
    ensures ConvertKey(Join(MidResnetName(i, s1))) == ConvertKey(Join(MidResnetName(j, s2))) <==>
      s1 == s2 && (PyInt(i) == PyInt(j) || (PyInt(i).value != 0 && PyInt(j).value != 0))
  {
    hide ConvertKey, PyInt, ResnetSub, Join, Dotless, Meaning;
    MidResnetMeans(i, s1);
    MidResnetMeans(j, s2);
    SameNewNameOfSegments(MidResnetName(i, s1), MidResnetName(j, s2));
  }

  lemma MidResnetMeans(i: string, s: Name)
    requires PyInt(i).Some? && ResnetSub(s).Some?
    ensures Meaning(MidResnetName(i, s)) == Some(MidResnet(PyInt(i).value != 0, s))
  {
    hide PyInt, ResnetSub, Meaning;
    BlocksMean(MidResnetName(i, s));
    ResnetSubInvertible(s);
    assert Tail(MidResnetName(i, s)[1..]) == [i] + s && Tail([i] + s) == s;
  }

  function MidAttentionName(index: string, sub: Name): Name {
    ["mid_block", "attentions", index] + sub
  }

  /** The index of a mid_block attention is ignored: it need not even be a number. */
  lemma MidAttentionsCollideIff(i: string, j: string, s1: Name, s2: Name)
    requires s1 != [] && s2 != [] && Dotless(MidAttentionName(i, s1)) && Dotless(MidAttentionName(j, s2))
    ensures ConvertKey(Join(MidAttentionName(i, s1))) == ConvertKey(Join(MidAttentionName(j, s2))) <==> s1 == s2
  {
    hide ConvertKey, Join, Dotless, Meaning;
    MidAttentionMeans(i, s1);
    MidAttentionMeans(j, s2);
    SameNewNameOfSegments(MidAttentionName(i, s1), MidAttentionName(j, s2));
  }

  lemma MidAttentionMeans(i: string, s: Name)
    requires s != []
    ensures Meaning(MidAttentionName(i, s)) == Some(MidAttention(s))
  {
    hide PyInt, ResnetSub, Meaning;
    BlocksMean(MidAttentionName(i, s));
    assert Tail(MidAttentionName(i, s)[1..]) == [i] + s && Tail([i] + s) == s;
  }

  function DownsamplerName(block: string, index: string, sub: Name): Name {
    ["down_blocks", block, "downsamplers", index, "conv"] + sub
  }

  /** So is the index of a downsampler; and the block counts as a number, not as the numeral it is written as. */
  lemma DownsamplersCollideIff(b: string, c: string, i: string, j: string, s1: Name, s2: Name)
    requires s1 != [] && s2 != [] && !EndsInConv(i) && !EndsInConv(j)
    requires PyInt(b).Some? && 0 <= PyInt(b).value <= 1 && PyInt(c).Some? && 0 <= PyInt(c).value <= 1
    requires Dotless(DownsamplerName(b, i, s1)) && Dotless(DownsamplerName(c, j, s2))
    ensures ConvertKey(Join(DownsamplerName(b, i, s1))) == ConvertKey(Join(DownsamplerName(c, j, s2))) <==>
      s1 == s2 && PyInt(b) == PyInt(c)
  {
    hide ConvertKey, PyInt, Join, Dotless, Meaning, EndsInConv;
    DownsamplerMeans(b, i, s1);
    DownsamplerMeans(c, j, s2);
    SameNewNameOfSegments(DownsamplerName(b, i, s1), DownsamplerName(c, j, s2));
  }

  lemma DownsamplerMeans(b: string, i: string, s: Name)
    requires s != [] && !EndsInConv(i) && PyInt(b).Some? && 0 <= PyInt(b).value <= 1
    ensures Meaning(DownsamplerName(b, i, s)) == Some(Downsampler(PyInt(b).value, s))
  {
    hide PyInt, Meaning, AfterConv, ResnetSub, EndsInConv;
    var k := DownsamplerName(b, i, s);
    BlocksMean(k);
    assert Tail(k[1..]) == ["downsamplers", i, "conv"] + s;
    assert Tail(["downsamplers", i, "conv"] + s) == [i, "conv"] + s;
    ConvCut(i, s);
  }

  lemma TailAfter(head: string, segs: Name, rest: Name)
    requires rest != [] && segs == [head] + rest
    ensures Tail(segs) == rest
  {
  }

  function DownResnetName(block: string, index: string, sub: Name): Name {
    ["down_blocks", block, "resnets", index] + sub
  }

  lemma ZeroTwice()
    ensures PyInt("00") == PyInt("0") == Some(0) && Plain("00") && Plain("0")
  {
    DigitsParse("00");
    DigitsParse("0");
    assert "00"[..1] == "0" && "0"[..0] == "";
    assert L.DigitsValue("0") == 0;
  }

  /** Elsewhere a numeral counts as its number: "0" and "00" are the same resnet. */
  lemma DownResnetsCollideIff(b: string, c: string, i: string, j: string, s1: Name, s2: Name)
    requires Meaning(DownResnetName(b, i, s1)).Some? && Meaning(DownResnetName(c, j, s2)).Some?
    requires Dotless(DownResnetName(b, i, s1)) && Dotless(DownResnetName(c, j, s2)) && s1 != [] && s2 != []
    ensures ConvertKey(Join(DownResnetName(b, i, s1))) == ConvertKey(Join(DownResnetName(c, j, s2))) <==>
      s1 == s2 && PyInt(b) == PyInt(c) && PyInt(i) == PyInt(j)
  {
    hide ConvertKey, PyInt, Join, Dotless, Meaning;
    DownResnetMeans(b, i, s1);
    DownResnetMeans(c, j, s2);
    SameNewNameOfSegments(DownResnetName(b, i, s1), DownResnetName(c, j, s2));
  }

  lemma DownResnetMeans(b: string, i: string, s: Name)
    requires Meaning(DownResnetName(b, i, s)).Some? && s != []
    ensures PyInt(b).Some? && 0 <= PyInt(b).value && PyInt(i).Some? && 0 <= PyInt(i).value
    ensures Meaning(DownResnetName(b, i, s)) == Some(DownResnet(PyInt(b).value, PyInt(i).value, s))
  {
    hide PyInt, Meaning, AfterConv, ResnetSub, Tail;
    var k := DownResnetName(b, i, s);
    BlocksMean(k);
    TailAfter(b, k[1..], ["resnets", i] + s);
    TailAfter("resnets", ["resnets", i] + s, [i] + s);
    TailAfter(i, [i] + s, s);
  }

  // ---- The conversion loop ----

  /** A tensor's elements in row-major order, as raw words. */
  datatype Tensor = Tensor(shape: seq<nat>, data: seq<int>)

  predicate EndsWith(s: string, suffix: string) {
    |s| >= |suffix| && s[|s| - |suffix|..] == suffix
  }

  predicate NeedsReshape(name: string, t: Tensor) {
    (EndsWith(name, ".proj_in.weight") || EndsWith(name, ".proj_out.weight")) && |t.shape| == 2
  }

  function Product(shape: seq<nat>): nat {
    if shape == [] then 1 else Product(shape[..|shape| - 1]) * shape[|shape| - 1]
  }

  /** A two-dimensional projection weight becomes a 1 by 1 convolution: no element is added, lost or moved. */
  function Shaped(name: string, t: Tensor): (u: Tensor)
    ensures u.data == t.data && Product(u.shape) == Product(t.shape)
    ensures u.shape == if NeedsReshape(name, t) then [t.shape[0], t.shape[1], 1, 1] else t.shape
  {
    if NeedsReshape(name, t) then
      assert (t.shape + [1, 1])[..3] == t.shape + [1] && (t.shape + [1])[..2] == t.shape;
      Tensor(t.shape + [1, 1], t.data)
    else t
  }

  predicate Readable(keys: seq<string>, file: map<string, Tensor>) {
    forall i :: 0 <= i < |keys| ==> keys[i] in file
  }

  /** The output tensors after these keys; a later key overwrites an earlier one of the same new name. */
  function Tensors(keys: seq<string>, file: map<string, Tensor>): map<string, Tensor>
    requires Readable(keys, file)
  {
    if keys == [] then map[]
    else
      var last := keys[|keys| - 1];
      var before := Tensors(keys[..|keys| - 1], file);
      match ConvertKey(last)
      case NewName(name) => before[name := Shaped(name, file[last])]
      case _ => before
  }

  function Dropped(keys: seq<string>): seq<string> {
    if keys == [] then []
    else Dropped(keys[..|keys| - 1]) + if ConvertKey(keys[|keys| - 1]).NoName? then [keys[|keys| - 1]] else []
  }

  function Reshaped(keys: seq<string>, file: map<string, Tensor>): seq<string>
    requires Readable(keys, file)
  {
    if keys == [] then []
    else
      var last := keys[|keys| - 1];
      Reshaped(keys[..|keys| - 1], file)
      + match ConvertKey(last)
        case NewName(name) => if NeedsReshape(name, file[last]) then [name] else []
        case _ => []
  }

  lemma LoopStarts(file: map<string, Tensor>)
    ensures Tensors([], file) == map[] && Dropped([]) == [] && Reshaped([], file) == []
  {
  }

  lemma LoopStep(keys: seq<string>, file: map<string, Tensor>, n: nat)
    requires Readable(keys, file) && n < |keys|
    ensures
      var k, before, after := keys[n], keys[..n], keys[..n + 1];
      match ConvertKey(k)
      case NewName(name) =>
        && Tensors(after, file) == Tensors(before, file)[name := Shaped(name, file[k])]
        && Dropped(after) == Dropped(before)
        && Reshaped(after, file) == Reshaped(before, file) + if NeedsReshape(name, file[k]) then [name] else []
      case _ =>
        && Tensors(after, file) == Tensors(before, file) && Reshaped(after, file) == Reshaped(before, file)
        && Dropped(after) == Dropped(before) + if ConvertKey(k).NoName? then [k] else []
  {
    hide ConvertKey, Shaped, NeedsReshape;
    assert keys[..n + 1][..n] == keys[..n];
  }

  /** main's loop; a ValueError ends the program before anything is written. */
  method ConvertAll(keys: seq<string>, file: map<string, Tensor>)
    returns (ok: bool, tensors: map<string, Tensor>, unmapped: seq<string>, reshaped: seq<string>)
    requires Readable(keys, file)
    ensures ok <==> forall i :: 0 <= i < |keys| ==> !ConvertKey(keys[i]).Raises?
    ensures ok ==> tensors == Tensors(keys, file) && unmapped == Dropped(keys) && reshaped == Reshaped(keys, file)
  {
    hide ConvertKey, Shaped, NeedsReshape, Tensors, Dropped, Reshaped;
    tensors, unmapped, reshaped := map[], [], [];
    LoopStarts(file);
    for n := 0 to |keys|
      invariant forall i :: 0 <= i < n ==> !ConvertKey(keys[i]).Raises?
      invariant tensors == Tensors(keys[..n], file)
      invariant unmapped == Dropped(keys[..n]) && reshaped == Reshaped(keys[..n], file)
    {
      var k := keys[n];
      LoopStep(keys, file, n);
      match ConvertKey(k) {
        case Raises =>
          return false, tensors, unmapped, reshaped;
        case NoName =>
          unmapped := unmapped + [k];
        case NewName(name) =>
          if NeedsReshape(name, file[k]) {
            reshaped := reshaped + [name];
          }
          tensors := tensors[name := Shaped(name, file[k])];
      }
    }
    assert keys[..|keys|] == keys;
    return true, tensors, unmapped, reshaped;
  }

  predicate Distinct(keys: seq<string>) {
    forall i, j :: 0 <= i < j < |keys| ==> keys[i] != keys[j]
  }

  /** Key i is the last of these keys to get the name. */
  predicate LastWriter(keys: seq<string>, name: string, i: int) {
    && 0 <= i < |keys| && ConvertKey(keys[i]) == NewName(name)
    && forall j :: i < j < |keys| ==> ConvertKey(keys[j]) != NewName(name)
  }

  /** Every output tensor comes from its last writer, and every name that a key maps to is there. */
  lemma {:induction false} LastWriterWins(keys: seq<string>, file: map<string, Tensor>, name: string, i: int)
    requires Readable(keys, file) && LastWriter(keys, name, i)
    ensures name in Tensors(keys, file) && Tensors(keys, file)[name] == Shaped(name, file[keys[i]])
  {
    hide ConvertKey, Shaped;
    var m := |keys| - 1;
    if i < m {
      assert ConvertKey(keys[m]) != NewName(name);
      LastWriterWins(keys[..m], file, name, i);
    }
  }

  lemma {:induction false} TensorsHaveWriters(keys: seq<string>, file: map<string, Tensor>, name: string)
    returns (i: int)
    requires Readable(keys, file) && name in Tensors(keys, file)
    ensures LastWriter(keys, name, i)
  {
    hide ConvertKey, Shaped;
    var m := |keys| - 1;
    if ConvertKey(keys[m]) == NewName(name) {
      i := m;
    } else {
      i := TensorsHaveWriters(keys[..m], file, name);
    }
  }

  predicate Clash(a: string, b: string) {
    ConvertKey(a).NewName? && ConvertKey(a) == ConvertKey(b)
  }

  predicate NoClash(keys: seq<string>) {
    forall i, j :: 0 <= i < j < |keys| ==> !Clash(keys[i], keys[j])
  }

  predicate NeverRaises(keys: seq<string>) {
    forall i :: 0 <= i < |keys| ==> !ConvertKey(keys[i]).Raises?
  }

  /** The output has at most one tensor for each key that is not dropped, and exactly one if and only if no two keys get
      the same new name. */
  lemma {:induction false} NothingOverwrittenIff(keys: seq<string>, file: map<string, Tensor>)
    requires Readable(keys, file) && NeverRaises(keys)
    ensures |Tensors(keys, file)| + |Dropped(keys)| <= |keys|
    ensures |Tensors(keys, file)| + |Dropped(keys)| == |keys| <==> NoClash(keys)
  {
    hide ConvertKey, Shaped, NoClash, Tensors, Dropped;
    if keys == [] {
      LoopStarts(file);
      NoClashYet();
    } else {
      var m := |keys| - 1;
      NothingOverwrittenIff(keys[..m], file);
      assert keys[..m + 1] == keys;
      LoopStep(keys, file, m);
      ClashesOfLast(keys, file);
    }
  }

  lemma NoClashYet()
    ensures NoClash([])
  {
  }

  /** The last key clashes with an earlier one exactly when its new name is there already. */
  lemma ClashesOfLast(keys: seq<string>, file: map<string, Tensor>)
    requires Readable(keys, file) && keys != []
    ensures
      var m := |keys| - 1;
      NoClash(keys) <==>
        NoClash(keys[..m]) && (ConvertKey(keys[m]).NewName? ==> ConvertKey(keys[m]).name !in Tensors(keys[..m], file))
  {
    hide ConvertKey, Tensors;
    var m := |keys| - 1;
    var init, last := keys[..m], keys[m];
    assert forall i :: 0 <= i < m ==> init[i] == keys[i];
    if ConvertKey(last).NewName? && ConvertKey(last).name in Tensors(init, file) {
      var i := TensorsHaveWriters(init, file, ConvertKey(last).name);
      assert Clash(keys[i], keys[m]);
    }
    forall i | 0 <= i < m && Clash(init[i], last)
      ensures ConvertKey(last).NewName? && ConvertKey(last).name in Tensors(init, file)
    {
      NamesAreWritten(init, file, i);
    }
  }

  lemma {:induction false} NamesAreWritten(keys: seq<string>, file: map<string, Tensor>, i: nat)
    requires Readable(keys, file) && i < |keys| && ConvertKey(keys[i]).NewName?
    ensures ConvertKey(keys[i]).name in Tensors(keys, file)
  {
    hide ConvertKey, Shaped;
    if i < |keys| - 1 {
      NamesAreWritten(keys[..|keys| - 1], file, i);
    }
  }

  /** Without a clash every key's tensor is there, whoever else is. */
  lemma NoClashKeepsAll(keys: seq<string>, file: map<string, Tensor>, i: nat)
    requires Readable(keys, file) && NoClash(keys) && i < |keys| && ConvertKey(keys[i]).NewName?
    ensures
      var name := ConvertKey(keys[i]).name;
      name in Tensors(keys, file) && Tensors(keys, file)[name] == Shaped(name, file[keys[i]])
  {
    hide ConvertKey, Shaped;
    var name := ConvertKey(keys[i]).name;
    forall j | i < j < |keys| ensures ConvertKey(keys[j]) != NewName(name) {
      assert !Clash(keys[i], keys[j]);
    }
    LastWriterWins(keys, file, name, i);
  }

  /** On distinct names of the grammar nothing raises, nothing is overwritten, and each key is converted or reported. */
  lemma NothingLost(keys: seq<string>, file: map<string, Tensor>)
    requires Readable(keys, file) && Distinct(keys) && forall i :: 0 <= i < |keys| ==> WellFormed(keys[i])
    ensures forall i :: 0 <= i < |keys| ==> !ConvertKey(keys[i]).Raises?
    ensures forall i :: 0 <= i < |keys| ==>
        match ConvertKey(keys[i])
        case NewName(name) => name in Tensors(keys, file) && Tensors(keys, file)[name] == Shaped(name, file[keys[i]])
        case _ => keys[i] in Dropped(keys)
    ensures |Tensors(keys, file)| + |Dropped(keys)| == |keys|
  {
    hide ConvertKey, Shaped, WellFormed, Tensors, Dropped;
    forall i | 0 <= i < |keys| ensures !ConvertKey(keys[i]).Raises? {
      GrammarNeverRaises(keys[i]);
    }
    forall i, j | 0 <= i < j < |keys| ensures !Clash(keys[i], keys[j]) {
      if Clash(keys[i], keys[j]) {
        ConvertKeyInjective(keys[i], keys[j]);
      }
    }
    NothingOverwrittenIff(keys, file);
    forall i | 0 <= i < |keys|
      ensures match ConvertKey(keys[i])
        case NewName(name) => name in Tensors(keys, file) && Tensors(keys, file)[name] == Shaped(name, file[keys[i]])
        case _ => keys[i] in Dropped(keys)
    {
      if ConvertKey(keys[i]).NewName? {
        NoClashKeepsAll(keys, file, i);
      } else {
        DroppedAreReported(keys, i);
      }
    }
  }

  lemma {:induction false} DroppedAreReported(keys: seq<string>, i: nat)
    requires i < |keys| && ConvertKey(keys[i]).NoName?
    ensures keys[i] in Dropped(keys)
  {
    hide ConvertKey;
    if i < |keys| - 1 {
      DroppedAreReported(keys[..|keys| - 1], i);
    }
  }

  lemma GrammarNeverRaises(name: string)
    requires WellFormed(name)
    ensures !ConvertKey(name).Raises?
  {
    var k: Key :| k.rest != [] && Segments(k) == Split(name);
    ConvertKeyOnGrammar(name, k);
  }

  // ---- What the converter's summary says ----

  lemma Numerals()
    ensures Num(0) == "0" && Num(1) == "1" && Num(2) == "2" && Num(3) == "3" && Num(4) == "4" && Num(5) == "5"
    ensures Num(6) == "6" && Num(7) == "7" && Num(8) == "8" && Num(10) == "10" && Num(12) == "12"
  {
    assert Num(10 / 10) == "1" && Num(12 / 10) == "1";
  }

  lemma ConvertedFixed(s: Name)
    requires s != []
    ensures ConvertSegments(["conv_in"] + s) == Mapped(["input_blocks", "0", "0"] + s)
    ensures ConvertSegments(["time_embedding", "linear_1"] + s) == Mapped(["time_embed", "0"] + s)
    ensures ConvertSegments(["time_embedding", "linear_2"] + s) == Mapped(["time_embed", "2"] + s)
    ensures ConvertSegments(["add_embedding", "linear_1"] + s) == Mapped(["label_emb", "0", "0"] + s)
    ensures ConvertSegments(["add_embedding", "linear_2"] + s) == Mapped(["label_emb", "0", "2"] + s)
    ensures ConvertSegments(["controlnet_mid_block"] + s) == Mapped(["middle_block_out", "0"] + s)
  {
    hide ConvertSegments;
    ConvertsToLegacy(ConvIn(s));
    ConvertsToLegacy(TimeEmbed1(s));
    ConvertsToLegacy(TimeEmbed2(s));
    ConvertsToLegacy(AddEmbed1(s));
    ConvertsToLegacy(AddEmbed2(s));
    ConvertsToLegacy(MidZero(s));
  }

  lemma ConvertedHints(s: Name)
    requires s != []
    ensures ConvertSegments(["controlnet_cond_embedding", "conv_in"] + s) == Mapped(["input_hint_block", "0"] + s)
    ensures ConvertSegments(["controlnet_cond_embedding", "conv_out"] + s) == Mapped(["input_hint_block", "14"] + s)
    ensures ConvertSegments(["controlnet_cond_embedding", "blocks", "0"] + s) == Mapped(["input_hint_block", "2"] + s)
    ensures ConvertSegments(["controlnet_cond_embedding", "blocks", "1"] + s) == Mapped(["input_hint_block", "4"] + s)
    ensures ConvertSegments(["controlnet_cond_embedding", "blocks", "2"] + s) == Mapped(["input_hint_block", "6"] + s)
    ensures ConvertSegments(["controlnet_cond_embedding", "blocks", "3"] + s) == Mapped(["input_hint_block", "8"] + s)
    ensures ConvertSegments(["controlnet_cond_embedding", "blocks", "4"] + s) == Mapped(["input_hint_block", "10"] + s)
    ensures ConvertSegments(["controlnet_cond_embedding", "blocks", "5"] + s) == Mapped(["input_hint_block", "12"] + s)
  {
    hide ConvertSegments, Num;
    Numerals();
    ConvertsToLegacy(CondConvIn(s));
    ConvertsToLegacy(CondConvOut(s));
    ConvertsToLegacy(CondBlock(0, s));
    ConvertsToLegacy(CondBlock(1, s));
    ConvertsToLegacy(CondBlock(2, s));
    ConvertsToLegacy(CondBlock(3, s));
    ConvertsToLegacy(CondBlock(4, s));
    ConvertsToLegacy(CondBlock(5, s));
  }

  /** The first index goes over as it is; the second part of the block comes after it. */
  lemma ConvertedZeroConvs(index: string, s: Name)
    requires s != []
    ensures ConvertSegments(["controlnet_down_blocks", index] + s) == Mapped(["zero_convs", index, "0"] + s)
  {
    hide ConvertSegments;
    ConvertsToLegacy(DownZero(index, s));
  }

  lemma ConvertedAttentions(s: Name)
    requires s != []
    ensures ConvertSegments(["down_blocks", "1", "attentions", "0"] + s) == Mapped(["input_blocks", "4", "1"] + s)
    ensures ConvertSegments(["down_blocks", "1", "attentions", "1"] + s) == Mapped(["input_blocks", "5", "1"] + s)
    ensures ConvertSegments(["down_blocks", "2", "attentions", "0"] + s) == Mapped(["input_blocks", "7", "1"] + s)
    ensures ConvertSegments(["down_blocks", "2", "attentions", "1"] + s) == Mapped(["input_blocks", "8", "1"] + s)
    ensures ConvertSegments(["mid_block", "attentions", "0"] + s) == Mapped(["middle_block", "1"] + s)
  {
    hide ConvertSegments, Num;
    Numerals();
    ConvertsToLegacy(DownAttention(1, 0, s));
    ConvertsToLegacy(DownAttention(1, 1, s));
    ConvertsToLegacy(DownAttention(2, 0, s));
    ConvertsToLegacy(DownAttention(2, 1, s));
    ConvertsToLegacy(MidAttention(s));
  }

  lemma ConvertedDownsamplers(s: Name)
    requires s != []
    ensures ConvertSegments(["down_blocks", "0", "downsamplers", "0", "conv"] + s) ==
      Mapped(["input_blocks", "3", "0", "op"] + s)
    ensures ConvertSegments(["down_blocks", "1", "downsamplers", "0", "conv"] + s) ==
      Mapped(["input_blocks", "6", "0", "op"] + s)
  {
    hide ConvertSegments, Num;
    Numerals();
    ConvertsToLegacy(Downsampler(0, s));
    ConvertsToLegacy(Downsampler(1, s));
  }

  lemma LayersDiffer()
    ensures "conv2" != "conv1" && "norm2" != "norm1" && "norm1" != "conv1" && "norm2" != "conv2"
    ensures "norm2" != "conv1" && "conv2" != "norm1" && "conv_shortcut" != "time_emb_proj"
  {
    assert "conv2"[4] != "conv1"[4] && "norm2"[4] != "norm1"[4] && "norm1"[0] != "conv1"[0] && "norm2"[0] != "conv2"[0];
    assert "norm2"[0] != "conv1"[0] && "conv2"[0] != "norm1"[0] && "conv_shortcut"[0] != "time_emb_proj"[0];
  }

  lemma RenamedLayers()
    ensures ResnetLayer("conv1") == Some(["in_layers", "2"]) && ResnetLayer("norm1") == Some(["in_layers", "0"])
    ensures ResnetLayer("conv2") == Some(["out_layers", "3"]) && ResnetLayer("norm2") == Some(["out_layers", "0"])
    ensures ResnetLayer("time_emb_proj") == Some(["emb_layers", "1"])
    ensures ResnetLayer("conv_shortcut") == Some(["skip_connection"])
  {
    LayersDiffer();
  }

  /** A layer's weight and bias are renamed with it, and nothing else is. */
  lemma RenamedIff(layer: string, part: string, new_layer: Name)
    ensures ResnetSub([layer, part]) == Some(new_layer + [part]) <==>
      ResnetLayer(layer) == Some(new_layer) && part in {"weight", "bias"}
    ensures forall sub :: ResnetSub(sub).Some? ==> |sub| == 2
  {
    hide ResnetLayer;
    if ResnetLayer(layer).Some? {
      var x, y := ResnetLayer(layer).value + [part], new_layer + [part];
      if x == y {
        assert ResnetLayer(layer).value == x[..|x| - 1] == y[..|y| - 1] == new_layer;
      }
    }
  }

  /** A resnet's layer is renamed and put at its block's place. */
  lemma ConvertedDownResnets(s: Name, new_s: Name)
    requires s != [] && ResnetSub(s) == Some(new_s)
    ensures ConvertSegments(["down_blocks", "0", "resnets", "0"] + s) == Mapped(["input_blocks", "1", "0"] + new_s)
    ensures ConvertSegments(["down_blocks", "0", "resnets", "1"] + s) == Mapped(["input_blocks", "2", "0"] + new_s)
    ensures ConvertSegments(["down_blocks", "1", "resnets", "0"] + s) == Mapped(["input_blocks", "4", "0"] + new_s)
    ensures ConvertSegments(["down_blocks", "1", "resnets", "1"] + s) == Mapped(["input_blocks", "5", "0"] + new_s)
    ensures ConvertSegments(["down_blocks", "2", "resnets", "0"] + s) == Mapped(["input_blocks", "7", "0"] + new_s)
    ensures ConvertSegments(["down_blocks", "2", "resnets", "1"] + s) == Mapped(["input_blocks", "8", "0"] + new_s)
  {
    hide ConvertSegments, Num, ResnetSub, Segments, Legacy;
    Numerals();
    DownResnetAt(0, 0, s, new_s);
    DownResnetAt(0, 1, s, new_s);
    DownResnetAt(1, 0, s, new_s);
    DownResnetAt(1, 1, s, new_s);
    DownResnetAt(2, 0, s, new_s);
    DownResnetAt(2, 1, s, new_s);
  }

  lemma DownResnetAt(b: nat, r: nat, s: Name, new_s: Name)
    requires b <= 2 && r <= 1 && s != [] && ResnetSub(s) == Some(new_s)
    ensures ConvertSegments(["down_blocks", Num(b), "resnets", Num(r)] + s) ==
      Mapped(["input_blocks", Num(3 * b + r + 1), "0"] + new_s)
  {
    hide ConvertSegments, Num, ResnetSub;
    ConvertsToLegacy(DownResnet(b, r, s));
  }

  lemma ConvertedMidResnets(s: Name, new_s: Name)
    requires s != [] && ResnetSub(s) == Some(new_s)
    ensures ConvertSegments(["mid_block", "resnets", "0"] + s) == Mapped(["middle_block", "0"] + new_s)
    ensures ConvertSegments(["mid_block", "resnets", "1"] + s) == Mapped(["middle_block", "2"] + new_s)
  {
    hide ConvertSegments, ResnetSub;
    ConvertsToLegacy(MidResnet(false, s));
    ConvertsToLegacy(MidResnet(true, s));
  }

  /** Exactly the two-dimensional projection weights are reshaped. */
  lemma ReshapedIff(name: string, t: Tensor)
    ensures NeedsReshape(name, t) <==>
      |t.shape| == 2 && exists prefix :: name == prefix + ".proj_in.weight" || name == prefix + ".proj_out.weight"
  {
    EndsWithIff(name, ".proj_in.weight");
    EndsWithIff(name, ".proj_out.weight");
    hide EndsWith;
  }

  lemma EndsWithIff(s: string, suffix: string)
    ensures EndsWith(s, suffix) <==> exists prefix :: s == prefix + suffix
  {
    if EndsWith(s, suffix) {
      assert s == s[..|s| - |suffix|] + suffix;
    }
  }

  lemma {:induction false} UngroupedJoins(a: string, b: string)
    ensures Ungrouped(a + b) == Ungrouped(a) + Ungrouped(b)
    decreases |b|
  {
    if b == "" {
      assert a + b == a;
    } else {
      assert (a + b)[..|a + b| - 1] == a + b[..|b| - 1];
      UngroupedJoins(a, b[..|b| - 1]);
    }
  }

  /** A sign before a numeral counts. */
  lemma SignedForms(s: string)
    requires s != "" && L.IsDigit(s[0]) && !IsPySpace(s[|s| - 1])
    ensures PyInt("+" + s) == PyInt(s)
    ensures PyInt("-" + s) == match PyInt(s) case None => None case Some(v) => Some(-v)
  {
    hide L.DigitsValue, Ungrouped, Strip, Grouped;
    var p, m := "+" + s, "-" + s;
    assert p[1..] == s && m[1..] == s && p[|s|] == m[|s|] == s[|s| - 1];
    assert Strip(p) == p && Strip(m) == m && Strip(s) == s;
  }

  /** White space around a numeral does not. */
  lemma SpacedForms(s: string, c: char)
    requires IsPySpace(c)
    ensures PyInt([c] + s) == PyInt(s)
    ensures s != "" && !IsPySpace(s[0]) ==> PyInt(s + [c]) == PyInt(s)
  {
    hide PyInt, Strip;
    StripSkips(s, c);
    SameStripped([c] + s, s);
    if s != "" && !IsPySpace(s[0]) {
      SameStripped(s + [c], s);
    }
  }

  lemma SameStripped(s: string, t: string)
    requires Strip(s) == Strip(t)
    ensures PyInt(s) == PyInt(t)
  {
    hide Strip, Grouped, Ungrouped, L.DigitsValue;
  }

  lemma StripSkips(s: string, c: char)
    requires IsPySpace(c)
    ensures Strip([c] + s) == Strip(s)
    ensures s != "" && !IsPySpace(s[0]) ==> Strip(s + [c]) == Strip(s)
  {
    assert ([c] + s)[1..] == s && (s + [c])[..|s|] == s;
  }

  /** One underscore between digits is left out. */
  lemma GroupedForms(a: string, b: string)
    requires a != "" && L.AllDigits(a) && b != "" && L.AllDigits(b)
    ensures PyInt(a + "_" + b) == PyInt(a + b)
  {
    hide PyInt, L.DigitsValue, Strip;
    var s, t := a + "_" + b, a + b;
    assert Grouped(s) && Grouped(t) by { PairGrouped(a, b); }
    assert Ungrouped(s) == Ungrouped(t) by { UngroupedPair(a, b); }
    hide Grouped, Ungrouped, L.AllDigits;
    SameInt(s, t);
  }

  lemma SameInt(s: string, t: string)
    requires Grouped(s) && Grouped(t) && Ungrouped(s) == Ungrouped(t)
    ensures PyInt(s) == PyInt(t)
  {
    hide L.DigitsValue, Strip, Ungrouped;
    assert Strip(s) == s && Strip(t) == t;
  }

  lemma PairGrouped(a: string, b: string)
    requires a != "" && L.AllDigits(a) && b != "" && L.AllDigits(b)
    ensures Grouped(a + "_" + b) && Grouped(a + b)
  {
    var s, t := a + "_" + b, a + b;
    assert s[0] == t[0] == a[0] && s[|s| - 1] == t[|t| - 1] == b[|b| - 1];
    assert forall i :: 0 <= i < |s| ==> s[i] == if i < |a| then a[i] else if i == |a| then '_' else b[i - |a| - 1];
    assert forall i :: 0 <= i < |t| ==> t[i] == if i < |a| then a[i] else b[i - |a|];
  }

  lemma UngroupedPair(a: string, b: string)
    requires L.AllDigits(a) && L.AllDigits(b)
    ensures Ungrouped(a + "_" + b) == Ungrouped(a + b)
  {
    assert Ungrouped("_") == Ungrouped("") == "";
    hide Ungrouped;
    UngroupedJoins(a + "_", b);
    UngroupedJoins(a, "_");
    UngroupedJoins(a, b);
    assert Ungrouped(a) + "" == Ungrouped(a);
  }

  /** Nothing else is a number: two underscores in a row, and any other character. */
  lemma NotInt(s: string, i: nat)
    requires 0 < i < |s| && !IsPySpace(s[0]) && !IsPySpace(s[|s| - 1])
    requires (!L.IsDigit(s[i]) && s[i] != '_') || (i + 1 < |s| && s[i] == '_' && s[i + 1] == '_')
    ensures PyInt(s) == None
  {
    hide L.DigitsValue, Strip, Ungrouped;
    var signed := s[0] == '-' || s[0] == '+';
    var u := if signed then s[1..] else s;
    var k := if signed then i - 1 else i;
    assert u[k] == s[i] && (i + 1 < |s| ==> u[k + 1] == s[i + 1]);
  }
}
