/** AiCache::prune over one directory, and normalize_dir. */
module AiCache {
  import opened Bytes
  import OpKeys
  import Sha256Stream

  type Name = string

  /** The key of an entry `<key>.exr`. */
  predicate IsEntry(name: Name) {
    |name| == 68 && Sha256Stream.HexKey(name[..64]) && name[64..] == ".exr"
  }

  function Sidecar(name: Name): Name
    requires IsEntry(name)
  {
    name[..64] + ".json"
  }

  /** Modification times are clock ticks; None cannot be read. */
  type Files = map<Name, Option<int>>

  const TICKS_PER_SECOND := 10_000_000

  /** duration_cast to whole seconds truncates toward zero. */
  function Seconds(ticks: int): int {
    if ticks >= 0 then ticks / TICKS_PER_SECOND else -(-ticks / TICKS_PER_SECOND)
  }

  lemma SecondsMonotone(a: int, b: int)
    requires a <= b
    ensures Seconds(a) <= Seconds(b)
  {
  }

  function Age(now: int, mtime: int): int {
    Seconds(now - mtime)
  }

  /** The entries prune considers. */
  ghost function Entries(files: Files): set<Name> {
    set n | n in files && IsEntry(n) && files[n].Some?
  }

  function Mtime(files: Files, n: Name): int
    requires n in files && files[n].Some?
  {
    files[n].value
  }

  datatype Entry = Entry(path: Name, mtime: int)

  function Paths(es: seq<Entry>): set<Name> {
    set e | e in es :: e.path
  }

  predicate Distinct(es: seq<Entry>) {
    forall i, j :: 0 <= i < j < |es| ==> es[i].path != es[j].path
  }

  lemma {:induction false} PathsCount(es: seq<Entry>)
    requires Distinct(es)
    ensures |Paths(es)| == |es|
  {
    if es != [] {
      var init := es[..|es| - 1];
      PathsCount(init);
      assert Paths(es) == Paths(init) + {es[|es| - 1].path};
    }
  }

  // ---- Sorting, newest first ----

  predicate NewestFirst(es: seq<Entry>) {
    forall i, j :: 0 <= i < j < |es| ==> es[i].mtime >= es[j].mtime
  }

  lemma InsertSorted(e: Entry, es: seq<Entry>, k: nat)
    requires NewestFirst(es) && k <= |es|
    requires forall j :: 0 <= j < k ==> es[j].mtime >= e.mtime
    requires k < |es| ==> es[k].mtime < e.mtime
    ensures NewestFirst(es[..k] + [e] + es[k..])
  {
    var r := es[..k] + [e] + es[k..];
    forall i, j | 0 <= i < j < |r|
      ensures r[i].mtime >= r[j].mtime
    {
      assert i < k ==> r[i] == es[i];
      assert i > k ==> r[i] == es[i - 1];
      assert j > k ==> r[j] == es[j - 1];
      assert j < k ==> r[j] == es[j];
    }
  }

  lemma InsertKeeps(e: Entry, es: seq<Entry>, k: nat)
    requires k <= |es|
    ensures multiset(es[..k] + [e] + es[k..]) == multiset(es) + multiset{e}
  {
    assert es == es[..k] + es[k..];
  }

  lemma TakeMore(es: seq<Entry>, i: nat)
    requires i < |es|
    ensures multiset(es[..i + 1]) == multiset(es[..i]) + multiset{es[i]}
  {
    assert es[..i + 1] == es[..i] + [es[i]];
  }

  method InsertInOrder(e: Entry, es: seq<Entry>) returns (r: seq<Entry>)
    requires NewestFirst(es)
    ensures NewestFirst(r) && multiset(r) == multiset(es) + multiset{e}
  {
    var k := 0;
    while k < |es| && es[k].mtime >= e.mtime
      invariant 0 <= k <= |es|
      invariant forall j :: 0 <= j < k ==> es[j].mtime >= e.mtime
    {
      k := k + 1;
    }
    InsertSorted(e, es, k);
    InsertKeeps(e, es, k);
    r := es[..k] + [e] + es[k..];
  }

  /** std::sort with the newest-first comparison: some arrangement in that order. */
  method SortNewestFirst(es: seq<Entry>) returns (sorted: seq<Entry>)
    ensures NewestFirst(sorted) && multiset(sorted) == multiset(es)
  {
    sorted := [];
    for i := 0 to |es|
      invariant NewestFirst(sorted) && multiset(sorted) == multiset(es[..i])
    {
      TakeMore(es, i);
      sorted := InsertInOrder(es[i], sorted);
    }
    assert es[..|es|] == es;
  }

  lemma SortedIsSame(es: seq<Entry>, sorted: seq<Entry>)
    requires Distinct(es) && multiset(sorted) == multiset(es)
    ensures Distinct(sorted) && Paths(sorted) == Paths(es) && |sorted| == |es|
    ensures forall e :: e in sorted <==> e in es
  {
    assert |multiset(sorted)| == |sorted| && |multiset(es)| == |es|;
    forall e
      ensures e in sorted <==> e in es
    {
      assert e in multiset(sorted) <==> e in multiset(es);
    }
    assert Paths(sorted) == Paths(es);
    PathsCount(es);
    PigeonHole(sorted);
  }

  /** As many paths as entries means no path twice. */
  lemma {:induction false} PigeonHole(es: seq<Entry>)
    requires |Paths(es)| == |es|
    ensures Distinct(es)
  {
    if es != [] {
      var init, last := es[..|es| - 1], es[|es| - 1];
      assert Paths(es) == Paths(init) + {last.path};
      PathsAtMost(init);
      assert last.path !in Paths(init);
      PigeonHole(init);
      forall i, j | 0 <= i < j < |es|
        ensures es[i].path != es[j].path
      {
        assert es[i] == init[i] && init[i] in init;
        assert j < |init| ==> es[j] == init[j];
      }
    }
  }

  lemma {:induction false} PathsAtMost(es: seq<Entry>)
    ensures |Paths(es)| <= |es|
  {
    if es != [] {
      var init, last := es[..|es| - 1], es[|es| - 1];
      assert Paths(es) == Paths(init) + {last.path};
      PathsAtMost(init);
    }
  }

  // ---- prune ----

  /** Older than the limit by at least one second more: the truncated age exceeds the limit. */
  predicate WellPast(now: int, mtime: int, maxAge: int) {
    now - mtime >= (maxAge + 1) * TICKS_PER_SECOND
  }

  /** What the truncated comparison of prune means in time. */
  lemma AgeInTicks(now: int, mtime: int, maxAge: int)
    requires maxAge > 0
    ensures Age(now, mtime) > maxAge <==> WellPast(now, mtime, maxAge)
    ensures WellPast(now, mtime, maxAge) <==> now - mtime >= 10_000_000 * (maxAge + 1)
  {
  }

  /** An entry is a key with ".exr", its sidecar the key with ".json". */
  lemma EntryNames(files: Files, name: Name)
    ensures name in Entries(files) <==> name in files && files[name].Some? && IsEntry(name)
    ensures IsEntry(name) <==> exists key :: Sha256Stream.HexKey(key) && name == key + ".exr"
    ensures forall key :: Sha256Stream.HexKey(key) ==> IsEntry(key + ".exr") && Sidecar(key + ".exr") == key + ".json"
  {
    if IsEntry(name) {
      assert name == name[..64] + ".exr";
    }
    forall key | Sha256Stream.HexKey(key)
      ensures IsEntry(key + ".exr") && Sidecar(key + ".exr") == key + ".json"
    {
      assert (key + ".exr")[..64] == key && (key + ".exr")[64..] == ".exr";
    }
  }

  /** The entries that the age limit removes. */
  ghost function Outdated(files: Files, now: int, maxAge: int): set<Name> {
    set n | n in Entries(files) && maxAge > 0 && WellPast(now, Mtime(files, n), maxAge)
  }

  /** What a prune with limits maxAge and maxEntries may do: `gone` are the removed entries. */
  ghost predicate Pruned(files: Files, now: int, maxAge: int, maxEntries: int, gone: set<Name>) {
    var all, outdated := Entries(files), Outdated(files, now, maxAge);
    var count := |all - outdated|;
    && outdated <= gone <= all
    && (maxEntries > 0 ==> (|all - gone| <= maxEntries <==> count <= maxEntries || OpKeys.ToInt32(count) > maxEntries))
    && (forall r, k :: r in gone && k in all - gone ==> Mtime(files, r) <= Mtime(files, k))
    && (forall r :: r in gone ==> r in outdated || (maxEntries > 0 && |all - gone| == maxEntries))
  }

  ghost function Sidecars(names: set<Name>): set<Name>
    requires forall n :: n in names ==> IsEntry(n)
  {
    set n | n in names :: Sidecar(n)
  }

  class Directory {
    var files: Files
    constructor (files: Files)
      ensures this.files == files
    {
      this.files := files;
    }
  }

  /** A directory listing: every file once, in any order. */
  ghost predicate Lists(order: seq<Name>, files: Files) {
    && (forall n :: n in order <==> n in files)
    && (forall i, j :: 0 <= i < j < |order| ==> order[i] != order[j])
  }

  /** The vector holds exactly the given entries with their times. */
  ghost predicate Holds(es: seq<Entry>, files: Files, names: set<Name>) {
    && Distinct(es) && Paths(es) == names && names <= Entries(files)
    && forall e :: e in es ==> e.path in files && files[e.path] == Some(e.mtime)
  }

  method Collect(files: Files, order: seq<Name>) returns (es: seq<Entry>)
    requires Lists(order, files)
    ensures Holds(es, files, Entries(files))
  {
    es := [];
    for i := 0 to |order|
      invariant Holds(es, files, set n | n in order[..i] && n in Entries(files))
    {
      var n := order[i];
      ghost var before := set m | m in order[..i] && m in Entries(files);
      assert n !in before;
      if IsEntry(n) && files[n].Some? {
        HoldsMore(es, files, before, n);
        es := es + [Entry(n, files[n].value)];
        assert (set m | m in order[..i + 1] && m in Entries(files)) == before + {n};
      } else {
        assert (set m | m in order[..i + 1] && m in Entries(files)) == before;
      }
    }
    assert (set n | n in order[..|order|] && n in Entries(files)) == Entries(files);
  }

  lemma HoldsMore(es: seq<Entry>, files: Files, names: set<Name>, n: Name)
    requires Holds(es, files, names) && n in Entries(files) && n !in names
    ensures Holds(es + [Entry(n, files[n].value)], files, names + {n})
  {
    var es' := es + [Entry(n, files[n].value)];
    forall i | 0 <= i < |es|
      ensures es[i].path != n
    {
      assert es[i] in es && es[i].path in Paths(es);
    }
    assert Paths(es') == Paths(es) + {n};
  }

  lemma WithoutOne(es: seq<Entry>, i: nat)
    requires Distinct(es) && i < |es|
    ensures Distinct(es[..i] + es[i + 1..])
    ensures forall e :: e in es[..i] + es[i + 1..] <==> e in es && e.path != es[i].path
  {
    var es' := es[..i] + es[i + 1..];
    assert forall k :: 0 <= k < |es'| ==> es'[k] == if k < i then es[k] else es[k + 1];
    forall e | e in es && e.path != es[i].path
      ensures e in es'
    {
      var k :| 0 <= k < |es| && es[k] == e;
      assert es'[if k < i then k else k - 1] == e;
    }
  }

  lemma HoldsLess(es: seq<Entry>, files: Files, names: set<Name>, i: nat)
    requires Holds(es, files, names) && i < |es|
    ensures Holds(es[..i] + es[i + 1..], files, names - {es[i].path}) && es[i].path in names
  {
    hide Distinct;
    WithoutOne(es, i);
    var es' := es[..i] + es[i + 1..];
    assert es[i] in es;
    assert Paths(es') == names - {es[i].path};
  }

  /** fs::remove of an entry and of its sidecar; `stuck` are the files that cannot be removed. */
  method RemoveEntry(dir: Directory, n: Name, stuck: set<Name>)
    requires IsEntry(n)
    modifies dir
    ensures dir.files == old(dir.files) - ({n, Sidecar(n)} - stuck)
  {
    if n !in stuck {
      dir.files := dir.files - {n};
    }
    if Sidecar(n) !in stuck {
      dir.files := dir.files - {Sidecar(n)};
    }
  }

  /** The files left when the entries `gone` and their sidecars are removed. */
  ghost function Remaining(files: Files, gone: set<Name>, stuck: set<Name>): Files
    requires forall n :: n in gone ==> IsEntry(n)
  {
    files - ((gone + Sidecars(gone)) - stuck)
  }

  lemma RemainingOne(files: Files, gone: set<Name>, stuck: set<Name>, n: Name)
    requires (forall m :: m in gone ==> IsEntry(m)) && IsEntry(n)
    ensures Remaining(files, gone, stuck) - ({n, Sidecar(n)} - stuck) == Remaining(files, gone + {n}, stuck)
  {
    assert Sidecars(gone + {n}) == Sidecars(gone) + {Sidecar(n)};
  }

  /** The entries past the age limit. */
  ghost function TooOld(files: Files, now: int, maxAge: int): set<Name> {
    set n | n in Entries(files) && Age(now, Mtime(files, n)) > maxAge
  }

  /** The age loop: erases from the vector as it removes from the directory. */
  method RemoveOld(dir: Directory, es0: seq<Entry>, now: int, maxAge: int, stuck: set<Name>, ghost files: Files)
    returns (es: seq<Entry>, removed: nat)
    requires Holds(es0, files, Entries(files)) && dir.files == files
    modifies dir
    ensures Holds(es, files, Entries(files) - TooOld(files, now, maxAge))
    ensures removed == |TooOld(files, now, maxAge)|
    ensures dir.files == Remaining(files, TooOld(files, now, maxAge), stuck)
  {
    hide Holds, Remaining, TooOld, Age, Sidecar, IsEntry;
    ghost var all, gone: set<Name> := Entries(files), {};
    es, removed := es0, 0;
    assert all - gone == all;
    NothingGone(files, stuck);
    var i := 0;
    while i < |es|
      invariant 0 <= i <= |es| && Holds(es, files, all - gone)
      invariant gone <= all && forall n :: n in gone ==> n in TooOld(files, now, maxAge)
      invariant forall j :: 0 <= j < i ==> Age(now, es[j].mtime) <= maxAge
      invariant forall n :: n in gone ==> IsEntry(n)
      invariant removed == |gone| && dir.files == Remaining(files, gone, stuck)
      decreases |es| - i
    {
      HoldsAt(es, files, all - gone, now, maxAge, i);
      if Age(now, es[i].mtime) > maxAge {
        ghost var n := es[i].path;
        HoldsLess(es, files, all - gone, i);
        RemainingOne(files, gone, stuck, n);
        RemoveEntry(dir, es[i].path, stuck);
        assert (all - gone) - {n} == all - (gone + {n});
        removed := removed + 1;
        gone := gone + {n};
        es := es[..i] + es[i + 1..];
      } else {
        i := i + 1;
      }
    }
    NoneOldLeft(es, files, now, maxAge, gone);
  }

  lemma NothingGone(files: Files, stuck: set<Name>)
    ensures Remaining(files, {}, stuck) == files
  {
  }

  lemma HoldsAt(es: seq<Entry>, files: Files, names: set<Name>, now: int, maxAge: int, i: nat)
    requires Holds(es, files, names) && i < |es|
    ensures es[i].path in names && IsEntry(es[i].path) && es[i].path in Entries(files)
    ensures es[i].path in TooOld(files, now, maxAge) <==> Age(now, es[i].mtime) > maxAge
  {
    assert es[i] in es && es[i].path in Paths(es);
  }

  lemma NoneOldLeft(es: seq<Entry>, files: Files, now: int, maxAge: int, gone: set<Name>)
    requires Holds(es, files, Entries(files) - gone) && forall n :: n in gone ==> n in TooOld(files, now, maxAge)
    requires forall j :: 0 <= j < |es| ==> Age(now, es[j].mtime) <= maxAge
    ensures gone == TooOld(files, now, maxAge)
  {
    forall n | n in Entries(files) - gone
      ensures n !in TooOld(files, now, maxAge)
    {
      assert n in Paths(es);
      var j :| 0 <= j < |es| && es[j].path == n;
      HoldsAt(es, files, Entries(files) - gone, now, maxAge, j);
    }
  }

  /** The count loop: everything after the first maxEntries of the sorted vector. */
  method RemoveExcess(dir: Directory, sorted: seq<Entry>, maxEntries: nat, stuck: set<Name>, ghost files: Files,
                      ghost gone0: set<Name>)
    returns (removed: nat)
    requires maxEntries <= |sorted| && gone0 <= Entries(files) && Holds(sorted, files, Entries(files) - gone0)
    requires dir.files == Remaining(files, gone0, stuck)
    modifies dir
    ensures removed == |sorted| - maxEntries
    ensures Paths(sorted[maxEntries..]) <= Entries(files)
    ensures dir.files == Remaining(files, gone0 + Paths(sorted[maxEntries..]), stuck)
  {
    hide Holds, Remaining, Sidecar, IsEntry;
    removed := 0;
    assert gone0 + Paths(sorted[maxEntries..maxEntries]) == gone0;
    EntriesAreEntries(files);
    for i := maxEntries to |sorted|
      invariant removed == i - maxEntries
      invariant Paths(sorted[maxEntries..i]) <= Entries(files) && forall m :: m in Entries(files) ==> IsEntry(m)
      invariant dir.files == Remaining(files, gone0 + Paths(sorted[maxEntries..i]), stuck)
    {
      ghost var n, gone := sorted[i].path, gone0 + Paths(sorted[maxEntries..i]);
      HoldsAt(sorted, files, Entries(files) - gone0, 0, 0, i);
      RemainingOne(files, gone, stuck, n);
      RemoveEntry(dir, sorted[i].path, stuck);
      assert sorted[maxEntries..i + 1] == sorted[maxEntries..i] + [sorted[i]];
      assert Paths(sorted[maxEntries..i + 1]) == Paths(sorted[maxEntries..i]) + {n};
      assert gone0 + Paths(sorted[maxEntries..i + 1]) == gone + {n};
      removed := removed + 1;
    }
    assert sorted[maxEntries..|sorted|] == sorted[maxEntries..];
  }

  lemma EntriesAreEntries(files: Files)
    ensures forall n :: n in Entries(files) ==> IsEntry(n)
  {
  }

  /** prune: the entries past the age limit go, then the oldest beyond the count limit; the result counts them. */
  method Prune(dir: Directory, order: seq<Name>, now: int, maxAge: int, maxEntries: int, stuck: set<Name>)
    returns (removed: nat, ghost gone: set<Name>)
    requires Lists(order, dir.files)
    modifies dir
    ensures Pruned(old(dir.files), now, maxAge, maxEntries, gone)
    ensures removed == |gone|
    ensures (forall n :: n in gone ==> IsEntry(n)) && dir.files == Remaining(old(dir.files), gone, stuck)
  {
    hide Holds, Remaining, Pruned, TooOld, Entries, Lists, Distinct, NewestFirst, IsEntry, Paths, OpKeys.ToInt32;
    ghost var files := dir.files;
    EntriesAreEntries(files);
    var es := Collect(dir.files, order);
    removed, gone := 0, {};
    NothingGone(files, stuck);
    assert Entries(files) - gone == Entries(files);
    OldAreEntries(files, now, maxAge);
    if maxAge > 0 {
      es, removed := RemoveOld(dir, es, now, maxAge, stuck, files);
      gone := TooOld(files, now, maxAge);
    }
    HoldsCount(es, files, Entries(files) - gone);
    if maxEntries > 0 && OpKeys.ToInt32(|es|) > maxEntries {
      Int32AtMost(|es|);
      var sorted := SortNewestFirst(es);
      HoldsSorted(es, sorted, files, Entries(files) - gone);
      var more := RemoveExcess(dir, sorted, maxEntries, stuck, files, gone);
      ExcessPruned(files, now, maxAge, maxEntries, gone, sorted);
      removed := removed + more;
      gone := gone + Paths(sorted[maxEntries..]);
    } else {
      AgePruned(files, now, maxAge, maxEntries, gone, |es|);
    }
  }

  lemma TooOldIsOutdated(files: Files, now: int, maxAge: int)
    ensures Outdated(files, now, maxAge) == if maxAge > 0 then TooOld(files, now, maxAge) else {}
  {
    if maxAge > 0 {
      forall n | n in Entries(files)
        ensures n in TooOld(files, now, maxAge) <==> n in Outdated(files, now, maxAge)
      {
        AgeInTicks(now, Mtime(files, n), maxAge);
      }
    }
  }

  lemma OldAreEntries(files: Files, now: int, maxAge: int)
    ensures TooOld(files, now, maxAge) <= Entries(files)
  {
  }

  lemma HoldsCount(es: seq<Entry>, files: Files, names: set<Name>)
    requires Holds(es, files, names)
    ensures |es| == |names| && names <= Entries(files)
  {
    PathsCount(es);
  }

  lemma HoldsSorted(es: seq<Entry>, sorted: seq<Entry>, files: Files, names: set<Name>)
    requires Holds(es, files, names) && multiset(sorted) == multiset(es)
    ensures Holds(sorted, files, names) && |sorted| == |es|
  {
    SortedIsSame(es, sorted);
  }

  lemma Int32AtMost(n: nat)
    ensures OpKeys.ToInt32(n) <= n
  {
  }

  lemma AgePruned(files: Files, now: int, maxAge: int, maxEntries: int, gone: set<Name>, count: nat)
    requires gone == if maxAge > 0 then TooOld(files, now, maxAge) else {}
    requires count == |Entries(files) - gone| && !(maxEntries > 0 && OpKeys.ToInt32(count) > maxEntries)
    ensures Pruned(files, now, maxAge, maxEntries, gone)
  {
    TooOldIsOutdated(files, now, maxAge);
    OlderGoFirst(files, now, maxAge, gone);
  }

  lemma OlderGoFirst(files: Files, now: int, maxAge: int, gone: set<Name>)
    requires gone == if maxAge > 0 then TooOld(files, now, maxAge) else {}
    ensures forall r, k :: r in gone && k in Entries(files) - gone ==> Mtime(files, r) <= Mtime(files, k)
  {
    forall r, k | r in gone && k in Entries(files) - gone
      ensures Mtime(files, r) <= Mtime(files, k)
    {
      OlderIsEarlier(now, Mtime(files, r), Mtime(files, k), maxAge);
    }
  }

  lemma OlderIsEarlier(now: int, r: int, k: int, maxAge: int)
    requires Age(now, r) > maxAge && Age(now, k) <= maxAge
    ensures r < k
  {
    if k <= r {
      SecondsMonotone(now - r, now - k);
    }
  }

  lemma ExcessPruned(files: Files, now: int, maxAge: int, maxEntries: nat, gone0: set<Name>, sorted: seq<Entry>)
    requires gone0 == if maxAge > 0 then TooOld(files, now, maxAge) else {}
    requires NewestFirst(sorted) && Holds(sorted, files, Entries(files) - gone0)
    requires 0 < maxEntries < OpKeys.ToInt32(|sorted|) <= |sorted|
    ensures Pruned(files, now, maxAge, maxEntries, gone0 + Paths(sorted[maxEntries..]))
    ensures |gone0 + Paths(sorted[maxEntries..])| == |gone0| + |sorted| - maxEntries
  {
    hide NewestFirst, Paths, Age, Mtime, IsEntry, OpKeys.ToInt32;
    TooOldIsOutdated(files, now, maxAge);
    HoldsCount(sorted, files, Entries(files) - gone0);
    var all, cut, kept := Entries(files), Paths(sorted[maxEntries..]), Paths(sorted[..maxEntries]);
    var gone := gone0 + cut;
    PartsOfPaths(sorted, maxEntries);
    OldAreEntries(files, now, maxAge);
    assert all - gone == kept;
    assert gone0 !! cut;
    OlderGoFirst(files, now, maxAge, gone0);
    forall r, k | r in gone && k in all - gone
      ensures Mtime(files, r) <= Mtime(files, k)
    {
      if r in cut {
        CutIsOlder(files, gone0, sorted, maxEntries, r, k);
      }
    }
  }

  lemma PartsOfPaths(es: seq<Entry>, n: nat)
    requires Distinct(es) && n <= |es|
    ensures Paths(es) == Paths(es[..n]) + Paths(es[n..]) && Paths(es[..n]) !! Paths(es[n..])
    ensures |Paths(es[..n])| == n && |Paths(es[n..])| == |es| - n
  {
    assert es == es[..n] + es[n..];
    PathsCount(es[..n]);
    PathsCount(es[n..]);
    forall p | p in Paths(es[..n])
      ensures p !in Paths(es[n..])
    {
      var i :| 0 <= i < n && es[..n][i].path == p;
      assert forall j :: 0 <= j < |es| - n ==> es[n..][j] == es[n + j] && es[n + j].path != es[i].path;
    }
  }

  lemma CutIsOlder(files: Files, gone0: set<Name>, sorted: seq<Entry>, n: nat, r: Name, k: Name)
    requires NewestFirst(sorted) && Holds(sorted, files, Entries(files) - gone0) && n <= |sorted|
    requires r in Paths(sorted[n..]) && k in Paths(sorted[..n])
    ensures r in Entries(files) && k in Entries(files) && Mtime(files, r) <= Mtime(files, k)
  {
    var j :| 0 <= j < |sorted| - n && sorted[n..][j].path == r;
    var i :| 0 <= i < n && sorted[..n][i].path == k;
    assert sorted[n + j] in sorted && sorted[i] in sorted;
    assert sorted[n + j].path in Paths(sorted) && sorted[i].path in Paths(sorted);
  }

  lemma SidecarsApart(n: Name, m: Name)
    requires IsEntry(n) && IsEntry(m)
    ensures !IsEntry(Sidecar(n)) && (Sidecar(n) == Sidecar(m) ==> n == m)
  {
    assert Sidecar(n)[..64] == n[..64] && Sidecar(m)[..64] == m[..64];
    assert n == n[..64] + n[64..] && m == m[..64] + m[64..];
  }

  /** When every removal succeeds, the directory loses exactly the removed entries and their sidecars: what is left of
      the entries is the kept ones, each with its sidecar if it had one. */
  lemma CleanRemoval(files: Files, gone: set<Name>)
    requires gone <= Entries(files)
    ensures
      var left := Remaining(files, gone, {});
      && Entries(left) == Entries(files) - gone
      && (forall n :: n in left ==> n in files && left[n] == files[n])
      && (forall n :: n in gone ==> n !in left && Sidecar(n) !in left)
      && (forall k :: k in Entries(files) - gone && Sidecar(k) in files ==> Sidecar(k) in left)
      && (forall n :: n in files && n !in left ==> n in gone || exists r :: r in gone && n == Sidecar(r))
  {
    hide Sidecar, IsEntry;
    forall n, m | n in Entries(files) && m in Entries(files)
      ensures !IsEntry(Sidecar(n)) && (Sidecar(n) == Sidecar(m) ==> n == m)
    {
      SidecarsApart(n, m);
    }
  }

  // ---- Where the limits do not hold ----

  /** With no count limit the removed entries are those at least a second past the age limit: one that is past it by
      less stays. */
  lemma PastTheLimitStays(name: Name, now: int, gone: set<Name>)
    requires IsEntry(name)
    requires Pruned(map[name := Some(now - TICKS_PER_SECOND - 1)], now, 1, 0, gone)
    ensures gone == {}
  {
    assert !WellPast(now, now - TICKS_PER_SECOND - 1, 1);
  }

  /** When the count cast to int does not exceed the limit, no entry goes on account of it. */
  lemma CastSkipsLimit(files: Files, now: int, maxAge: int, maxEntries: int, gone: set<Name>)
    requires Pruned(files, now, maxAge, maxEntries, gone) && maxEntries > 0
    requires
      var count := |Entries(files) - Outdated(files, now, maxAge)|;
      OpKeys.ToInt32(count) <= maxEntries < count
    ensures gone == Outdated(files, now, maxAge) && |Entries(files) - gone| > maxEntries
  {
    hide OpKeys.ToInt32, Entries, Outdated;
    assert forall r :: r in gone ==> r in Outdated(files, now, maxAge);
  }

  function Digits(i: nat, width: nat): (s: string)
    ensures |s| == width && forall k :: 0 <= k < width ==> Sha256Stream.IsHexDigit(s[k])
  {
    if width == 0 then ""
    else
      Sha256Stream.HexDigitRoundTrip(i % 16);
      Digits(i / 16, width - 1) + [Sha256Stream.HexDigit(i % 16)]
  }

  function Pow16(width: nat): nat {
    if width == 0 then 1 else 16 * Pow16(width - 1)
  }

  lemma {:induction false} DigitsInjective(i: nat, j: nat, width: nat)
    requires i < Pow16(width) && j < Pow16(width) && Digits(i, width) == Digits(j, width)
    ensures i == j
  {
    if width > 0 {
      var a, b := Digits(i, width), Digits(j, width);
      Sha256Stream.HexDigitRoundTrip(i % 16);
      Sha256Stream.HexDigitRoundTrip(j % 16);
      assert a[..width - 1] == Digits(i / 16, width - 1) && b[..width - 1] == Digits(j / 16, width - 1);
      assert a[width - 1] == b[width - 1];
      DigitsInjective(i / 16, j / 16, width - 1);
    }
  }

  lemma {:induction false} Pow16Large(width: nat)
    requires width >= 8
    ensures Pow16(width) >= TWO_32
  {
    if width > 8 {
      Pow16Large(width - 1);
    } else {
      assert Pow16(8) == 16 * Pow16(7) && Pow16(4) == 65536;
    }
  }

  function NthName(i: nat): (name: Name)
    ensures IsEntry(name)
  {
    var name := Digits(i, 64) + ".exr";
    assert name[..64] == Digits(i, 64);
    name
  }

  /** A directory of n entries. */
  ghost function Crowd(n: nat): Files {
    if n == 0 then map[] else Crowd(n - 1)[NthName(n - 1) := Some(0)]
  }

  lemma NamesDiffer(i: nat, j: nat)
    requires i < TWO_32 && j < TWO_32 && i != j
    ensures NthName(i) != NthName(j)
  {
    hide Digits, IsEntry;
    Pow16Large(64);
    if Digits(i, 64) == Digits(j, 64) {
      DigitsInjective(i, j, 64);
    }
    assert NthName(i)[..64] == Digits(i, 64) && NthName(j)[..64] == Digits(j, 64);
  }

  lemma {:induction false} CrowdNames(n: nat, i: nat)
    requires n <= i < TWO_32
    ensures NthName(i) !in Crowd(n)
  {
    if n > 0 {
      hide NthName;
      NamesDiffer(n - 1, i);
      CrowdNames(n - 1, i);
    }
  }

  lemma EntriesMore(files: Files, name: Name)
    requires IsEntry(name) && name !in files
    ensures |Entries(files[name := Some(0)])| == |Entries(files)| + 1
  {
    hide IsEntry;
    assert Entries(files[name := Some(0)]) == Entries(files) + {name};
  }

  lemma CrowdStep(n: nat)
    requires n > 0
    ensures Crowd(n) == Crowd(n - 1)[NthName(n - 1) := Some(0)] && IsEntry(NthName(n - 1))
  {
  }

  lemma {:induction false} CrowdCounts(n: nat)
    requires n <= TWO_32
    ensures |Entries(Crowd(n))| == n
  {
    hide Entries, Crowd;
    if n > 0 {
      CrowdCounts(n - 1);
      CrowdGrows(n);
    } else {
      NoEntries();
    }
  }

  lemma CrowdGrows(n: nat)
    requires 0 < n <= TWO_32
    ensures |Entries(Crowd(n))| == |Entries(Crowd(n - 1))| + 1
  {
    hide NthName, IsEntry, Entries, Crowd;
    CrowdNames(n - 1, n - 1);
    CrowdStep(n);
    EntriesMore(Crowd(n - 1), NthName(n - 1));
  }

  lemma NoEntries()
    ensures |Entries(Crowd(0))| == 0
  {
    assert Entries(map[]) == {};
  }

  /** In a directory of 2^31 entries a limit of one entry removes nothing. */
  lemma CrowdIsNotPruned(now: int, gone: set<Name>)
    requires Pruned(Crowd(0x8000_0000), now, 0, 1, gone)
    ensures gone == {} && |Entries(Crowd(0x8000_0000)) - gone| == 0x8000_0000
  {
    hide Pruned, Crowd;
    CrowdCounts(0x8000_0000);
    var files := Crowd(0x8000_0000);
    assert Outdated(files, now, 0) == {};
    assert Entries(files) - {} == Entries(files);
    assert OpKeys.ToInt32(0x8000_0000) == -0x8000_0000;
    CastSkipsLimit(files, now, 0, 1, gone);
  }

  // ---- normalize_dir ----

  function DropSpace(s: string): string {
    DropEnd(s, IsSpace)
  }

  function Slashed(s: string): string {
    Replaced(s, '\\', '/')
  }

  function DropSlashes(s: string): string {
    if |s| > 1 && s[|s| - 1] == '/' then DropSlashes(s[..|s| - 1]) else s
  }

  function Normalized(s: string): string {
    DropSlashes(Slashed(DropSpace(s)))
  }

  method NormalizeDir(dir: string) returns (s: string)
    ensures s == Normalized(dir)
  {
    s := dir;
    while s != "" && IsSpace(s[|s| - 1])
      invariant DropSpace(s) == DropSpace(dir)
      decreases |s|
    {
      s := s[..|s| - 1];
    }
    ghost var trimmed := s;
    for i := 0 to |s|
      invariant |s| == |trimmed|
      invariant forall j :: 0 <= j < |s| ==> s[j] == if j < i then Slashed(trimmed)[j] else trimmed[j]
    {
      if s[i] == '\\' {
        s := s[i := '/'];
      }
    }
    assert s == Slashed(trimmed);
    while |s| > 1 && s[|s| - 1] == '/'
      invariant DropSlashes(s) == Normalized(dir)
    {
      s := s[..|s| - 1];
    }
  }

  predicate EndsInSpace(s: string) {
    s != "" && IsSpace(s[|s| - 1])
  }

  predicate IsSlash(c: char) {
    c == '/' || c == '\\'
  }

  /** The trailing slashes of s, short of the whole of it, come right after a space. */
  predicate SpaceBeforeSlashes(s: string) {
    if |s| > 1 && IsSlash(s[|s| - 1]) then SpaceBeforeSlashes(s[..|s| - 1]) else EndsInSpace(s)
  }

  lemma {:induction false} DropSlashesShape(s: string)
    ensures DropSlashes(s) <= s
    ensures |DropSlashes(s)| > 1 ==> DropSlashes(s)[|DropSlashes(s)| - 1] != '/'
  {
    if |s| > 1 && s[|s| - 1] == '/' {
      DropSlashesShape(s[..|s| - 1]);
    }
  }

  lemma {:induction false} SlashedTail(s: string)
    ensures EndsInSpace(DropSlashes(Slashed(s))) <==> SpaceBeforeSlashes(s)
  {
    if |s| > 1 && IsSlash(s[|s| - 1]) {
      assert Slashed(s)[..|s| - 1] == Slashed(s[..|s| - 1]);
      SlashedTail(s[..|s| - 1]);
    }
  }

  lemma {:induction false} DropSpaceShape(s: string)
    ensures !EndsInSpace(DropSpace(s)) && |DropSpace(s)| <= |s|
    ensures EndsInSpace(s) ==> |DropSpace(s)| < |s|
  {
    if EndsInSpace(s) {
      DropSpaceShape(s[..|s| - 1]);
    }
  }

  /** The normalised directory has forward slashes only and no trailing slash unless it is one character; but it does
      end in white space, and normalising it again changes it, exactly when a space precedes the trailing slashes. */
  lemma NormalizedShape(dir: string)
    ensures
      var n := Normalized(dir);
      && '\\' !in n
      && (|n| > 1 ==> n[|n| - 1] != '/')
      && (EndsInSpace(n) <==> SpaceBeforeSlashes(DropSpace(dir)))
      && (Normalized(n) == n <==> !SpaceBeforeSlashes(DropSpace(dir)))
  {
    hide DropSpace, DropSlashes, SpaceBeforeSlashes;
    var n := Normalized(dir);
    DropSlashesShape(Slashed(DropSpace(dir)));
    SlashedTail(DropSpace(dir));
    assert forall c :: c in n ==> c in Slashed(DropSpace(dir));
    DropSpaceShape(n);
    DropSlashesShape(Slashed(DropSpace(n)));
    if !EndsInSpace(n) {
      NothingToDrop(n);
      assert Slashed(n) == n;
    }
  }

  lemma NothingToDrop(s: string)
    ensures !EndsInSpace(s) ==> DropSpace(s) == s
    ensures |s| <= 1 || s[|s| - 1] != '/' ==> DropSlashes(s) == s
  {
  }

  /** "a /" normalises to "a " with its trailing space. */
  lemma TrailingSpaceSurvives()
    ensures Normalized("a /") == "a " && Normalized("a ") == "a"
  {
    assert DropSpace("a /") == "a /" && Slashed("a /") == "a /";
    assert "a /"[..2] == "a ";
    assert DropSlashes("a /") == DropSlashes("a ") == "a ";
    assert "a "[..1] == "a";
    assert DropSpace("a ") == DropSpace("a") == "a" && Slashed("a") == "a";
  }

  lemma {:induction false} DropSpaceKeeps(s: string)
    ensures DropSpace(s) <= s && forall i :: |DropSpace(s)| <= i < |s| ==> IsSpace(s[i])
  {
    if s != "" && IsSpace(s[|s| - 1]) {
      DropSpaceKeeps(s[..|s| - 1]);
    }
  }

  lemma {:induction false} DropSlashesKeeps(s: string)
    ensures DropSlashes(s) <= s && forall i :: |DropSlashes(s)| <= i < |s| ==> s[i] == '/'
  {
    if |s| > 1 && s[|s| - 1] == '/' {
      DropSlashesKeeps(s[..|s| - 1]);
    }
  }

  /** Normalising keeps a beginning of the directory, with slashes for backslashes: what it cuts off are slashes
      followed by white space. */
  lemma NormalizedKeeps(dir: string) returns (m: nat)
    ensures |Normalized(dir)| <= m <= |dir|
    ensures forall i :: 0 <= i < |Normalized(dir)| ==> Normalized(dir)[i] == if dir[i] == '\\' then '/' else dir[i]
    ensures forall i :: |Normalized(dir)| <= i < m ==> dir[i] == '/' || dir[i] == '\\'
    ensures forall i :: m <= i < |dir| ==> dir[i] in {' ', '\t', '\n', '\r'}
  {
    hide DropSpace, DropSlashes;
    var d := DropSpace(dir);
    m := |d|;
    DropSpaceKeeps(dir);
    DropSlashesKeeps(Slashed(d));
    assert forall i :: 0 <= i < m ==> Slashed(d)[i] == (if d[i] == '\\' then '/' else d[i]) && d[i] == dir[i];
  }
}
