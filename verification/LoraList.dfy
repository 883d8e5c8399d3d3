/**
 The multi-line LoRA list of AIGenerate: `path : weight` lines, comments and blanks. How a weight is written is up to
 the number parser, which may be any function; plain decimals are one.
 */
module LoraList {
  import opened Bytes

  /** std::stof when it consumes the whole text, the test for a zero weight, and the weight of a line without one. */
  datatype Weights<!W> = Weights(parse: string -> Option<W>, isZero: W -> bool, one: W)

  datatype Spec<W> = Spec(path: string, weight: W)

  function Trim(s: string): (r: string)
    ensures |r| <= |s|
    decreases |s|
  {
    if s == "" then s
    else if IsSpace(s[0]) then Trim(s[1..])
    else if IsSpace(s[|s| - 1]) then Trim(s[..|s| - 1])
    else s
  }

  /** The index of the first c, or the length. */
  function IndexOf(s: string, c: char): (k: nat)
    ensures k <= |s| && (k < |s| ==> s[k] == c) && forall j :: 0 <= j < k ==> s[j] != c
  {
    if s == "" || s[0] == c then 0 else 1 + IndexOf(s[1..], c)
  }

  /** The index of the last c, or -1. */
  function LastIndexOf(s: string, c: char): (k: int)
    ensures -1 <= k < |s| && (k >= 0 ==> s[k] == c) && forall j :: k < j < |s| ==> s[j] != c
  {
    if s == "" then -1 else if s[|s| - 1] == c then |s| - 1 else LastIndexOf(s[..|s| - 1], c)
  }

  // ---- Weights ----

  predicate IsDigit(c: char) {
    '0' <= c <= '9'
  }

  predicate AllDigits(s: string) {
    forall i :: 0 <= i < |s| ==> IsDigit(s[i])
  }

  function DigitsValue(s: string): nat
    requires AllDigits(s)
  {
    if s == "" then 0 else 10 * DigitsValue(s[..|s| - 1]) + (s[|s| - 1] as int - '0' as int)
  }

  function Pow10(n: nat): (p: nat)
    ensures p > 0
  {
    if n == 0 then 1 else 10 * Pow10(n - 1)
  }

  function Magnitude(whole: string, frac: string): real
    requires AllDigits(whole) && AllDigits(frac)
  {
    (DigitsValue(whole) * Pow10(|frac|) + DigitsValue(frac)) as real / Pow10(|frac|) as real
  }

  /** Digits and an optional fraction, not both empty. */
  function ParseUnsigned(t: string): Option<real> {
    var k := IndexOf(t, '.');
    var whole, frac := t[..k], if k < |t| then t[k + 1..] else "";
    if (whole == "" && frac == "") || !AllDigits(whole) || !AllDigits(frac) then None
    else Some(Magnitude(whole, frac))
  }

  /** A whole decimal number with an optional sign. */
  function ParseWeight(s: string): Option<real> {
    if s != "" && s[0] == '-' then
      match ParseUnsigned(s[1..])
      case None => None
      case Some(m) => Some(-m)
    else if s != "" && s[0] == '+' then ParseUnsigned(s[1..])
    else ParseUnsigned(s)
  }

  // ---- Lines ----

  predicate IsAbsolute(path: string) {
    (|path| >= 1 && (path[0] == '/' || path[0] == '\\')) || (|path| >= 2 && path[1] == ':')
  }

  function Resolve(path: string, dir: string): string {
    if !IsAbsolute(path) && dir != "" then dir + "/" + path else path
  }

  /** The path and weight of a trimmed line: the last colon separates them, unless it stands at a drive letter or what
      follows is no number. */
  function SplitLine<W>(t: string, ws: Weights<W>): (string, W) {
    var k := LastIndexOf(t, ':');
    if k > 1 && ws.parse(Trim(t[k + 1..])).Some? then (Trim(t[..k]), ws.parse(Trim(t[k + 1..])).value)
    else (t, ws.one)
  }

  /** What one line contributes. */
  function ParseLine<W>(line: string, dir: string, ws: Weights<W>): seq<Spec<W>> {
    var t := Trim(line);
    if t == "" || t[0] == '#' then []
    else
      var (path, weight) := SplitLine(t, ws);
      if path == "" || ws.isZero(weight) then [] else [Spec(Resolve(path, dir), weight)]
  }

  /** std::getline until the text is used up: a final newline ends the last line, and opens none. */
  function ParseText<W>(text: string, dir: string, ws: Weights<W>): seq<Spec<W>>
    decreases |text|
  {
    if text == "" then []
    else
      var k := IndexOf(text, '\n');
      ParseLine(text[..k], dir, ws) + if k < |text| then ParseText(text[k + 1..], dir, ws) else []
  }

  // ---- The parser ----

  method TrimInPlace(s: string) returns (r: string)
    ensures r == Trim(s)
  {
    r := s;
    while r != "" && (IsSpace(r[0]) || IsSpace(r[|r| - 1]))
      invariant Trim(r) == Trim(s)
      decreases |r|
    {
      if IsSpace(r[0]) {
        r := r[1..];
      } else {
        r := r[..|r| - 1];
      }
    }
  }

  /** parse_loras; None is a null knob. */
  method ParseLoras<W>(text: Option<string>, dir: string, ws: Weights<W>) returns (result: seq<Spec<W>>)
    ensures result == if text.Some? then ParseText(text.value, dir, ws) else []
  {
    hide ParseLine, ParseText, IndexOf;
    result := [];
    NoText(dir, ws);
    if text.None? || text.value == "" {
      return;
    }
    var rest := text.value;
    while rest != ""
      invariant result + ParseText(rest, dir, ws) == ParseText(text.value, dir, ws)
      decreases |rest|
    {
      TextStep(rest, dir, ws);
      var k := IndexOf(rest, '\n');
      var line := rest[..k];
      var after := if k < |rest| then rest[k + 1..] else "";
      ghost var sofar := result;
      var spec := ParseOne(line, dir, ws);
      if spec.Some? {
        result := result + [spec.value];
      }
      assert result + ParseText(after, dir, ws) == sofar + (ParseLine(line, dir, ws) + ParseText(after, dir, ws));
      rest := after;
    }
  }

  lemma NoText<W>(dir: string, ws: Weights<W>)
    ensures ParseText("", dir, ws) == []
  {
  }

  lemma TextStep<W>(text: string, dir: string, ws: Weights<W>)
    requires text != ""
    ensures
      var k := IndexOf(text, '\n');
      var after := if k < |text| then text[k + 1..] else "";
      ParseText(text, dir, ws) == ParseLine(text[..k], dir, ws) + ParseText(after, dir, ws)
  {
    hide ParseLine;
  }

  /** The body of the line loop; None is a line that is skipped. */
  method ParseOne<W>(text: string, dir: string, ws: Weights<W>) returns (spec: Option<Spec<W>>)
    ensures ParseLine(text, dir, ws) == if spec.Some? then [spec.value] else []
  {
    var line := TrimInPlace(text);
    if line == "" || line[0] == '#' {
      return None;
    }
    var path, weight := line, ws.one;
    var colon := LastIndexOf(line, ':');
    if colon > 1 {
      var maybe := TrimInPlace(line[colon + 1..]);
      var w := ws.parse(maybe);
      if w.Some? {
        weight := w.value;
        path := TrimInPlace(line[..colon]);
      }
    }
    if path == "" {
      return None;
    }
    if ws.isZero(weight) {
      return None;
    }
    var absolute := false;
    if |path| >= 1 && (path[0] == '/' || path[0] == '\\') {
      absolute := true;
    }
    if |path| >= 2 && path[1] == ':' {
      absolute := true;
    }
    if !absolute && dir != "" {
      path := dir + "/" + path;
    }
    return Some(Spec(path, weight));
  }

  // ---- Joining texts ----

  lemma IndexOfUnique(s: string, c: char, k: nat)
    requires k <= |s| && (k < |s| ==> s[k] == c) && forall j :: 0 <= j < k ==> s[j] != c
    ensures IndexOf(s, c) == k
  {
  }

  /** The list of two texts joined by a newline is the two lists in a row. */
  lemma {:induction false} ParseJoin<W>(a: string, b: string, dir: string, ws: Weights<W>)
    ensures ParseText(a + "\n" + b, dir, ws) == ParseText(a, dir, ws) + ParseText(b, dir, ws)
    decreases |a|
  {
    hide ParseLine;
    var k := IndexOf(a, '\n');
    var joined := a + "\n" + b;
    IndexOfUnique(joined, '\n', k);
    assert joined[..k] == a[..k];
    if k < |a| {
      assert joined[k + 1..] == a[k + 1..] + "\n" + b;
      ParseJoin(a[k + 1..], b, dir, ws);
    } else {
      assert joined[k + 1..] == b && a[..k] == a;
      BlankLine(dir, ws);
    }
  }

  lemma BlankLine<W>(dir: string, ws: Weights<W>)
    ensures ParseLine("", dir, ws) == []
  {
  }

  /** Blank lines and comments between two texts leave no trace, whatever white space stands before the mark. */
  lemma CommentsLeaveNoTrace<W>(a: string, comment: string, b: string, dir: string, ws: Weights<W>)
    requires '\n' !in comment && (Trim(comment) == "" || Trim(comment)[0] == '#')
    ensures ParseText(a + "\n" + comment + "\n" + b, dir, ws) == ParseText(a + "\n" + b, dir, ws)
  {
    hide ParseText;
    ParseJoin(a, comment + "\n" + b, dir, ws);
    assert a + "\n" + comment + "\n" + b == a + "\n" + (comment + "\n" + b);
    ParseJoin(comment, b, dir, ws);
    ParseJoin(a, b, dir, ws);
    CommentIsEmpty(comment, dir, ws);
    assert ParseText(a, dir, ws) + ([] + ParseText(b, dir, ws)) == ParseText(a, dir, ws) + ParseText(b, dir, ws);
  }

  lemma CommentIsEmpty<W>(comment: string, dir: string, ws: Weights<W>)
    requires '\n' !in comment && (Trim(comment) == "" || Trim(comment)[0] == '#')
    ensures ParseText(comment, dir, ws) == []
  {
    hide Trim, SplitLine, IndexOf;
    if comment != "" {
      OneLine(comment, dir, ws);
    }
  }

  /** A line without a weight, a drive letter's colon aside, has the default weight. */
  lemma BarePathHasWeightOne<W>(p: string, dir: string, ws: Weights<W>)
    requires ValidPath(p) && forall i :: 1 < i < |p| ==> p[i] != ':'
    ensures ParseText(p, dir, ws) == if ws.isZero(ws.one) then [] else [Spec(Resolve(p, dir), ws.one)]
  {
    hide Trim, IndexOf, Resolve;
    TrimmedIsTrim(p);
    OneLine(p, dir, ws);
  }

  /** White space at both ends goes, and nothing else. */
  lemma {:induction false} TrimIs(s: string) returns (i: nat, j: nat)
    ensures i <= j <= |s| && Trim(s) == s[i..j]
    ensures forall k :: 0 <= k < i || j <= k < |s| ==> s[k] in {' ', '\t', '\r', '\n'}
    ensures i < j ==> s[i] !in {' ', '\t', '\r', '\n'} && s[j - 1] !in {' ', '\t', '\r', '\n'}
    decreases |s|
  {
    if s != "" && IsSpace(s[0]) {
      i, j := TrimIs(s[1..]);
      i, j := i + 1, j + 1;
    } else if s != "" && IsSpace(s[|s| - 1]) {
      i, j := TrimIs(s[..|s| - 1]);
    } else {
      i, j := 0, |s|;
    }
  }

  /** A path is prefixed exactly when there is a directory and the path starts with neither slash nor a drive letter. */
  lemma ResolveIs(path: string, dir: string)
    ensures Resolve(path, dir) ==
      if dir == "" || (path != "" && (path[0] == '/' || path[0] == '\\')) || (|path| > 1 && path[1] == ':') then path
      else dir + "/" + path
  {
  }

  /** A colon that no number follows belongs to the path, which then has the default weight. */
  lemma ColonWithoutWeight<W>(line: string, k: nat, dir: string, ws: Weights<W>)
    requires ValidPath(line) && 1 < k < |line| && line[k] == ':' && forall i :: k < i < |line| ==> line[i] != ':'
    requires ws.parse(Trim(line[k + 1..])) == None
    ensures ParseText(line, dir, ws) == if ws.isZero(ws.one) then [] else [Spec(Resolve(line, dir), ws.one)]
  {
    hide Trim, IndexOf, LastIndexOf, Resolve;
    TrimmedIsTrim(line);
    LastIndexOfUnique(line, ':', k);
    OneLine(line, dir, ws);
  }

  // ---- Printing a list ----

  /** A path and a weight as it is written. */
  datatype Item = Item(path: string, weight: string)

  /** A trimmed, non-empty, one-line path that is no comment. */
  predicate ValidPath(p: string) {
    p != "" && !IsSpace(p[0]) && !IsSpace(p[|p| - 1]) && p[0] != '#' && '\n' !in p
  }

  /** Trimmed text without a colon, on one line. */
  predicate ValidNumeral(t: string) {
    t != "" && !IsSpace(t[0]) && !IsSpace(t[|t| - 1]) && forall i :: 0 <= i < |t| ==> t[i] != ':' && t[i] != '\n'
  }

  predicate ValidItem<W>(i: Item, ws: Weights<W>) {
    ValidPath(i.path) && ValidNumeral(i.weight) && ws.parse(i.weight).Some?
  }

  predicate AllValid<W>(items: seq<Item>, ws: Weights<W>) {
    forall i :: i in items ==> ValidItem(i, ws)
  }

  function PrintItem(i: Item): string {
    i.path + " : " + i.weight
  }

  function PrintList(items: seq<Item>): string {
    if items == [] then "" else PrintItem(items[0]) + "\n" + PrintList(items[1..])
  }

  function Effect<W>(i: Item, dir: string, ws: Weights<W>): seq<Spec<W>>
    requires ws.parse(i.weight).Some?
  {
    var weight := ws.parse(i.weight).value;
    if ws.isZero(weight) then [] else [Spec(Resolve(i.path, dir), weight)]
  }

  /** The items with a weight, resolved. */
  function Effective<W>(items: seq<Item>, dir: string, ws: Weights<W>): seq<Spec<W>>
    requires AllValid(items, ws)
  {
    if items == [] then []
    else
      assert ValidItem(items[0], ws);
      Effect(items[0], dir, ws) + Effective(items[1..], dir, ws)
  }

  lemma TrimmedIsTrim(s: string)
    requires s != "" && !IsSpace(s[0]) && !IsSpace(s[|s| - 1])
    ensures Trim(s) == s && Trim(" " + s) == s && Trim(s + " ") == s
  {
    assert (" " + s)[1..] == s;
    assert (s + " ")[..|s|] == s;
  }

  lemma LastIndexOfUnique(s: string, c: char, k: int)
    requires 0 <= k < |s| && s[k] == c && forall j :: k < j < |s| ==> s[j] != c
    ensures LastIndexOf(s, c) == k
  {
  }

  lemma PrintedItemParses<W>(i: Item, dir: string, ws: Weights<W>)
    requires ValidItem(i, ws)
    ensures ParseLine(PrintItem(i), dir, ws) == Effect(i, dir, ws)
    ensures '\n' !in PrintItem(i) && PrintItem(i) != ""
  {
    hide Resolve, Trim, LastIndexOf, IndexOf;
    var line, w, k := PrintItem(i), i.weight, |i.path| + 1;
    assert line[|line| - 1] == w[|w| - 1];
    TrimmedIsTrim(line);
    assert forall j :: k < j < |line| ==> line[j] == ' ' || line[j] in w;
    LastIndexOfUnique(line, ':', k);
    assert line[k + 1..] == " " + w && line[..k] == i.path + " ";
    TrimmedIsTrim(w);
    TrimmedIsTrim(i.path);
  }

  lemma OneLine<W>(line: string, dir: string, ws: Weights<W>)
    requires line != "" && '\n' !in line
    ensures ParseText(line, dir, ws) == ParseLine(line, dir, ws)
  {
    hide ParseLine;
    IndexOfUnique(line, '\n', |line|);
    assert line[..|line|] == line;
  }

  /** However weights are parsed: printing a list and parsing it gives the list back in order, without its zero weights
      and with relative paths resolved. */
  lemma {:induction false} PrintedListParses<W>(items: seq<Item>, dir: string, ws: Weights<W>)
    requires AllValid(items, ws)
    ensures ParseText(PrintList(items), dir, ws) == Effective(items, dir, ws)
  {
    if items == [] {
      NoText(dir, ws);
    } else {
      hide ValidItem, PrintItem, ParseLine, Effect, Resolve, IndexOf, ParseText;
      assert ValidItem(items[0], ws);
      PrintedItemParses(items[0], dir, ws);
      PrintedListParses(items[1..], dir, ws);
      ParseJoin(PrintItem(items[0]), PrintList(items[1..]), dir, ws);
      OneLine(PrintItem(items[0]), dir, ws);
    }
  }

  // ---- Plain decimals ----

  const DECIMALS: Weights<real> := Weights(ParseWeight, w => w == 0.0, 1.0)

  datatype Decimal = Decimal(negative: bool, whole: string, frac: string)

  predicate ValidDecimal(d: Decimal) {
    d.whole != "" && AllDigits(d.whole) && AllDigits(d.frac)
  }

  function DecimalValue(d: Decimal): real
    requires ValidDecimal(d)
  {
    if d.negative then -Magnitude(d.whole, d.frac) else Magnitude(d.whole, d.frac)
  }

  function PrintMagnitude(d: Decimal): string {
    d.whole + (if d.frac == "" then "" else "." + d.frac)
  }

  function PrintDecimal(d: Decimal): string {
    (if d.negative then "-" else "") + PrintMagnitude(d)
  }

  lemma MagnitudeSplits(d: Decimal)
    requires ValidDecimal(d)
    ensures
      var t := PrintMagnitude(d);
      && IndexOf(t, '.') == |d.whole| && t[..|d.whole|] == d.whole
      && (if |d.whole| < |t| then t[|d.whole| + 1..] else "") == d.frac
      && ParseUnsigned(t) == Some(Magnitude(d.whole, d.frac))
      && t != "" && IsDigit(t[0]) && IsDigit(t[|t| - 1])
      && forall i :: 0 <= i < |t| ==> IsDigit(t[i]) || t[i] == '.'
  {
    hide Magnitude;
    var t := PrintMagnitude(d);
    IndexOfUnique(t, '.', |d.whole|);
    assert t[..|d.whole|] == d.whole;
    assert |d.whole| < |t| ==> t[|d.whole| + 1..] == d.frac;
  }

  lemma SignParses(t: string)
    requires t != "" && IsDigit(t[0]) && ParseUnsigned(t).Some?
    ensures ParseWeight(t) == ParseUnsigned(t)
    ensures ParseWeight("-" + t) == Some(-ParseUnsigned(t).value)
  {
    hide ParseUnsigned;
    assert ("-" + t)[1..] == t;
  }

  /** A printed decimal is a numeral, and its parse is its value. */
  lemma PrintedWeightParses(d: Decimal)
    requires ValidDecimal(d)
    ensures ValidNumeral(PrintDecimal(d)) && DECIMALS.parse(PrintDecimal(d)) == Some(DecimalValue(d))
  {
    hide Magnitude, ParseUnsigned, ParseWeight, PrintMagnitude, IsDigit;
    var t := PrintMagnitude(d);
    assert t != "" && IsDigit(t[0]) && ParseUnsigned(t) == Some(Magnitude(d.whole, d.frac)) by { MagnitudeSplits(d); }
    SignParses(t);
    PrintedIsNumeral(d);
    if d.negative {
      assert PrintDecimal(d) == "-" + t;
    } else {
      assert PrintDecimal(d) == t;
    }
  }

  lemma PrintedIsNumeral(d: Decimal)
    requires ValidDecimal(d)
    ensures ValidNumeral(PrintDecimal(d))
  {
  }

  datatype DecimalItem = DecimalItem(path: string, weight: Decimal)

  predicate AllDecimal(items: seq<DecimalItem>) {
    forall i :: 0 <= i < |items| ==> ValidPath(items[i].path) && ValidDecimal(items[i].weight)
  }

  function Written(items: seq<DecimalItem>): (r: seq<Item>)
    ensures |r| == |items|
  {
    seq(|items|, i requires 0 <= i < |items| => Item(items[i].path, PrintDecimal(items[i].weight)))
  }

  function DecimalEffective(items: seq<DecimalItem>, dir: string): seq<Spec<real>>
    requires AllDecimal(items)
  {
    if items == [] then []
    else
      var v := DecimalValue(items[0].weight);
      (if v == 0.0 then [] else [Spec(Resolve(items[0].path, dir), v)]) + DecimalEffective(items[1..], dir)
  }

  lemma EffectiveFirst<W>(first: Item, rest: seq<Item>, dir: string, ws: Weights<W>)
    requires ValidItem(first, ws) && AllValid(rest, ws)
    ensures AllValid([first] + rest, ws)
    ensures Effective([first] + rest, dir, ws) == Effect(first, dir, ws) + Effective(rest, dir, ws)
  {
    hide ValidItem, Effect;
    assert ([first] + rest)[1..] == rest;
  }

  lemma {:induction false} EffectiveDecimals(items: seq<DecimalItem>, dir: string)
    requires AllDecimal(items)
    ensures AllValid(Written(items), DECIMALS)
    ensures Effective(Written(items), dir, DECIMALS) == DecimalEffective(items, dir)
  {
    if items != [] {
      hide ValidPath, ValidNumeral, ParseWeight, DecimalValue, PrintDecimal, Resolve, ValidDecimal;
      hide AllValid, Effective, Written;
      var first, rest := Item(items[0].path, PrintDecimal(items[0].weight)), items[1..];
      PrintedWeightParses(items[0].weight);
      EffectiveDecimals(rest, dir);
      EffectiveFirst(first, Written(rest), dir, DECIMALS);
      WrittenFirst(items);
    }
  }

  lemma WrittenFirst(items: seq<DecimalItem>)
    requires items != []
    ensures Written(items) == [Item(items[0].path, PrintDecimal(items[0].weight))] + Written(items[1..])
  {
    hide PrintDecimal;
  }

  /** With plain decimals the weights come back with their values. */
  lemma PrintedDecimalsParse(items: seq<DecimalItem>, dir: string)
    requires AllDecimal(items)
    ensures ParseText(PrintList(Written(items)), dir, DECIMALS) == DecimalEffective(items, dir)
  {
    EffectiveDecimals(items, dir);
    PrintedListParses(Written(items), dir, DECIMALS);
  }

  lemma DigitsGrow(s: string, c: char)
    requires AllDigits(s) && IsDigit(c)
    ensures DigitsValue(s + [c]) == 10 * DigitsValue(s) + (c as int - 48)
  {
    assert (s + [c])[..|s|] == s;
  }

  lemma TwoDigitValue(a: char, b: char)
    requires IsDigit(a) && IsDigit(b)
    ensures DigitsValue([a, b]) == 10 * (a as int - 48) + (b as int - 48)
  {
    assert DigitsValue("") == 0;
    hide DigitsValue;
    DigitsGrow("", a);
    DigitsGrow([a], b);
    assert "" + [a] == [a];
    assert [a] + [b] == [a, b];
  }

  lemma DecimalExample()
    ensures PrintDecimal(Decimal(true, "12", "05")) == "-12.05"
    ensures DecimalValue(Decimal(true, "12", "05")) == -12.05
    ensures DECIMALS.one == 1.0 && forall w :: DECIMALS.isZero(w) <==> w == 0.0
  {
    TwoDigitValue('1', '2');
    TwoDigitValue('0', '5');
    assert Pow10(1) == 10 && Pow10(2) == 100;
    hide DigitsValue, Pow10;
    assert Magnitude("12", "05") == 1205.0 / 100.0;
    assert "-" + ("12" + ("." + "05")) == "-12.05";
  }
}
