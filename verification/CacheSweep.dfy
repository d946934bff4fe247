/** SweepCache of internal/tts/cache.go: least-recently-used eviction of the audio cache down
    to nine tenths of its cap.  The directory is a map; which removals fail is an input. */
module CacheSweep {

  datatype File = File(size: nat, mtime: int)
  datatype Entry = Entry(path: string, size: nat, mtime: int)
  type Files = map<string, File>

  function EntryOf(files: Files, path: string): Entry
    requires path in files
  {
    Entry(path, files[path].size, files[path].mtime)
  }

  /** `list` names every file once, in any order. */
  ghost predicate Lists(list: seq<Entry>, files: Files) {
    forall e :: multiset(list)[e] == (if e.path in files && e == EntryOf(files, e.path) then 1 else 0)
  }

  ghost function TotalSize(files: Files): nat {
    if files == map[] then 0 else
      var path :| path in files;
      files[path].size + TotalSize(files - {path})
  }

  function Sum(list: seq<Entry>): nat {
    if list == [] then 0 else list[0].size + Sum(list[1..])
  }

  predicate Sorted(list: seq<Entry>) {
    forall i, j :: 0 <= i < j < |list| ==> list[i].mtime <= list[j].mtime
  }

  function Insert(e: Entry, list: seq<Entry>): (r: seq<Entry>)
    ensures multiset(r) == multiset{e} + multiset(list)
  {
    if list == [] || e.mtime <= list[0].mtime then [e] + list
    else
      assert list == [list[0]] + list[1..];
      [list[0]] + Insert(e, list[1..])
  }

  lemma FirstIsOldest(first: Entry, rest: seq<Entry>)
    requires Sorted(rest) && forall x :: x in multiset(rest) ==> first.mtime <= x.mtime
    ensures Sorted([first] + rest)
  {
    assert forall i :: 0 <= i < |rest| ==> rest[i] in multiset(rest);
  }

  lemma HeadIsOldest(list: seq<Entry>)
    requires list != [] && Sorted(list)
    ensures Sorted(list[1..]) && forall x :: x in multiset(list[1..]) ==> list[0].mtime <= x.mtime
  {
    forall x | x in multiset(list[1..])
      ensures list[0].mtime <= x.mtime
    {
      assert x in list[1..];
      var i :| 0 <= i < |list[1..]| && list[1..][i] == x;
      assert list[i + 1] == x;
    }
  }

  lemma {:induction false} InsertSorts(e: Entry, list: seq<Entry>)
    requires Sorted(list)
    ensures Sorted(Insert(e, list))
  {
    if list == [] || e.mtime <= list[0].mtime {
      if list != [] {
        HeadIsOldest(list);
        assert list == [list[0]] + list[1..];
      }
      FirstIsOldest(e, list);
    } else {
      HeadIsOldest(list);
      InsertSorts(e, list[1..]);
      FirstIsOldest(list[0], Insert(e, list[1..]));
    }
  }

  /** Oldest first; ties in any order. */
  function SortByMtime(list: seq<Entry>): (r: seq<Entry>)
    ensures Sorted(r) && multiset(r) == multiset(list)
  {
    if list == [] then [] else
      assert list == [list[0]] + list[1..];
      InsertSorts(list[0], SortByMtime(list[1..]));
      Insert(list[0], SortByMtime(list[1..]))
  }

  /** The files the removal loop deletes: `ok` tells which removals succeed. */
  function Gone(order: seq<Entry>, total: int, target: int, ok: string -> bool): seq<Entry> {
    if order == [] || total <= target then []
    else if ok(order[0].path) then [order[0]] + Gone(order[1..], total - order[0].size, target, ok)
    else Gone(order[1..], total, target, ok)
  }

  function Paths(list: seq<Entry>): set<string> {
    set e | e in list :: e.path
  }

  lemma GoneRegroup(done: seq<Entry>, f: Entry, more: seq<Entry>)
    ensures done + ([f] + more) == done + [f] + more
  {
  }

  lemma PathsAppend(list: seq<Entry>, e: Entry)
    ensures Paths(list + [e]) == Paths(list) + {e.path}
  {
  }

  /** What happens to the directory: a hit makes the file young again (unless setting its time
      fails), a stored answer is a new file, a sweep removes files one by one. */
  datatype Use =
    | Hit(path: string, at: int, touched: bool)
    | Store(path: string, size: nat, at: int)
    | Removed(path: string)

  function Used(files: Files, u: Use): Files {
    match u
    case Hit(path, at, touched) => if touched && path in files then files[path := files[path].(mtime := at)] else files
    case Store(path, size, at) => files[path := File(size, at)]
    case Removed(path) => files - {path}
  }

  class CacheDir {
    var files: Files

    constructor (files: Files)
      ensures this.files == files
    {
      this.files := files;
    }

    /** A cache read: a hit is a file that is not empty, and is touched. */
    method Read(path: string, now: int, touched: bool) returns (hit: bool)
      modifies this
      ensures hit <==> path in old(files) && old(files)[path].size > 0
      ensures files == if hit then Used(old(files), Hit(path, now, touched)) else old(files)
      ensures files == if hit && touched then old(files)[path := File(old(files)[path].size, now)] else old(files)
    {
      hit := path in files && files[path].size > 0;
      if hit && touched {
        files := files[path := files[path].(mtime := now)];
      }
    }

    method Write(path: string, size: nat, now: int)
      modifies this
      ensures files == Used(old(files), Store(path, size, now)) == old(files)[path := File(size, now)]
    {
      files := files[path := File(size, now)];
    }

    /** The walk over the directory. */
    method Walk() returns (list: seq<Entry>, total: int)
      ensures Lists(list, files) && total == Sum(list)
    {
      list, total := [], 0;
      var todo := files.Keys;
      while todo != {}
        invariant todo <= files.Keys
        invariant Lists(list, files - todo)
        invariant total == Sum(list)
        decreases todo
      {
        var path :| path in todo;
        var e := EntryOf(files, path);
        SumAppends(list, e);
        list, total, todo := list + [e], total + e.size, todo - {path};
      }
    }

    /** The removal loop. */
    method RemoveOldest(order: seq<Entry>, size: int, target: int, ok: string -> bool) returns (removed: nat)
      modifies this
      ensures files == old(files) - Paths(Gone(order, size, target, ok))
      ensures removed == |Gone(order, size, target, ok)|
    {
      ghost var before := files;
      ghost var done: seq<Entry> := [];
      var rest, total := order, size;
      removed := 0;
      while rest != [] && total > target
        invariant Gone(order, size, target, ok) == done + Gone(rest, total, target, ok)
        invariant files == before - Paths(done)
        invariant removed == |done|
        decreases |rest|
      {
        var f := rest[0];
        if ok(f.path) {
          GoneRegroup(done, f, Gone(rest[1..], total - f.size, target, ok));
          PathsAppend(done, f);
          done := done + [f];
          files, total, removed := files - {f.path}, total - f.size, removed + 1;
        }
        rest := rest[1..];
      }
      assert Gone(order, size, target, ok) == done;
    }

    /** `order` is the sorted listing the removals follow. */
    method SweepCache(cap: int, ok: string -> bool) returns (removed: nat, ghost order: seq<Entry>)
      modifies this
      ensures Lists(order, old(files)) && Sorted(order)
      ensures cap <= 0 || TotalSize(old(files)) <= cap ==> files == old(files) && removed == 0
      ensures cap > 0 && TotalSize(old(files)) > cap ==>
        var gone := Gone(order, TotalSize(old(files)), cap / 10 * 9, ok);
        files == old(files) - Paths(gone) && removed == |gone|
    {
      removed := 0;
      var list, total := Walk();
      ListedSum(list, files);
      var sorted := SortByMtime(list);
      order := sorted;
      if cap > 0 && total > cap {
        removed := RemoveOldest(sorted, total, cap / 10 * 9, ok);
      }
    }
  }

  // ---------------------------------------------------------------------------
  // Sums

  lemma {:induction false} SumAppends(list: seq<Entry>, e: Entry)
    ensures Sum(list + [e]) == Sum(list) + e.size
  {
    if list == [] {
      assert list + [e] == [e];
    } else {
      assert (list + [e])[1..] == list[1..] + [e];
      SumAppends(list[1..], e);
    }
  }

  lemma {:induction false} TotalWithout(files: Files, path: string)
    requires path in files
    ensures TotalSize(files) == files[path].size + TotalSize(files - {path})
    decreases |files|
  {
    var first :| first in files && TotalSize(files) == files[first].size + TotalSize(files - {first});
    if first != path {
      assert |files - {first}| < |files| && |files - {path}| < |files| by {
        assert (files - {first}).Keys == files.Keys - {first};
        assert (files - {path}).Keys == files.Keys - {path};
      }
      TotalWithout(files - {first}, path);
      TotalWithout(files - {path}, first);
      assert files - {first} - {path} == files - {path} - {first};
    }
  }

  lemma ListHas(list: seq<Entry>, files: Files, path: string)
    requires Lists(list, files) && path in files
    ensures EntryOf(files, path) in list
  {
    assert EntryOf(files, path) in multiset(list);
  }

  lemma ListRest(list: seq<Entry>, files: Files)
    requires list != [] && Lists(list, files)
    ensures list[0].path in files && list[0] == EntryOf(files, list[0].path)
    ensures Lists(list[1..], files - {list[0].path})
  {
    var first := list[0];
    assert list == [first] + list[1..];
    assert multiset(list)[first] >= 1;
    var rest := files - {first.path};
    forall e
      ensures multiset(list[1..])[e] == (if e.path in rest && e == EntryOf(rest, e.path) then 1 else 0)
    {
      assert multiset(list)[e] == multiset(list[1..])[e] + (if e == first then 1 else 0);
    }
  }

  /** A listing's sum does not depend on its order. */
  lemma {:induction false} ListedSum(list: seq<Entry>, files: Files)
    requires Lists(list, files)
    ensures Sum(list) == TotalSize(files)
    decreases |list|
  {
    forall path | path in files
      ensures list != []
    {
      ListHas(list, files, path);
    }
    if list == [] {
      assert files.Keys == {};
    } else {
      ListRest(list, files);
      TotalWithout(files, list[0].path);
      ListedSum(list[1..], files - {list[0].path});
    }
  }

  // ---------------------------------------------------------------------------
  // What a sweep leaves behind

  lemma KeptFile(files: Files, path: string, gone: set<string>)
    requires path in files && path !in gone
    ensures TotalSize(files - gone) == files[path].size + TotalSize(files - {path} - gone)
  {
    TotalWithout(files - gone, path);
    assert files - gone - {path} == files - {path} - gone;
  }

  lemma PathsCons(e: Entry, list: seq<Entry>)
    ensures Paths([e] + list) == {e.path} + Paths(list)
  {
  }

  /** Removing exactly `gone` leaves the rest of the directory's size. */
  ghost predicate Accounts(files: Files, gone: seq<Entry>) {
    Paths(gone) <= files.Keys && TotalSize(files - Paths(gone)) == TotalSize(files) - Sum(gone)
  }

  /** Removing the first file and then those of `tail`. */
  lemma FirstIsGone(files: Files, first: Entry, tail: seq<Entry>)
    requires first.path in files && first == EntryOf(files, first.path) && Accounts(files - {first.path}, tail)
    ensures Accounts(files, [first] + tail)
  {
    PathsCons(first, tail);
    TotalWithout(files, first.path);
    assert ([first] + tail)[1..] == tail;
    assert files - ({first.path} + Paths(tail)) == files - {first.path} - Paths(tail);
  }

  /** The removal of the first file fails, and those of `tail` are removed. */
  lemma FirstStays(files: Files, path: string, tail: seq<Entry>)
    requires path in files && Accounts(files - {path}, tail)
    ensures Accounts(files, tail)
  {
    TotalWithout(files, path);
    KeptFile(files, path, Paths(tail));
  }

  lemma NothingGone(files: Files)
    ensures Accounts(files, [])
  {
    assert files - Paths([]) == files;
  }

  lemma AccountsForOne(order: seq<Entry>, files: Files, total: int, target: int, ok: string -> bool)
    requires order != [] && total > target
    requires order[0].path in files && order[0] == EntryOf(files, order[0].path)
    requires var left := if ok(order[0].path) then total - order[0].size else total;
      Accounts(files - {order[0].path}, Gone(order[1..], left, target, ok))
    ensures Accounts(files, Gone(order, total, target, ok))
  {
    var first := order[0];
    if ok(first.path) {
      FirstIsGone(files, first, Gone(order[1..], total - first.size, target, ok));
    } else {
      FirstStays(files, first.path, Gone(order[1..], total, target, ok));
    }
  }

  /** The removal loop's running total is what the surviving files add up to. */
  lemma {:induction false} RunningTotalIsSurvivors(order: seq<Entry>, files: Files, total: int, target: int,
                                                   ok: string -> bool)
    requires Lists(order, files)
    ensures Accounts(files, Gone(order, total, target, ok))
    decreases |order|
  {
    if order == [] || total <= target {
      NothingGone(files);
    } else {
      var left := if ok(order[0].path) then total - order[0].size else total;
      ListRest(order, files);
      RunningTotalIsSurvivors(order[1..], files - {order[0].path}, left, target, ok);
      AccountsForOne(order, files, total, target, ok);
    }
  }

  /** Either the target is met or every file was tried: all that is left cannot be removed. */
  lemma {:induction false} TargetMetOrAllTried(order: seq<Entry>, total: int, target: int, ok: string -> bool)
    ensures var gone := Gone(order, total, target, ok);
      total - Sum(gone) <= target || (forall e :: e in order ==> e in gone || !ok(e.path))
    ensures forall e :: e in Gone(order, total, target, ok) ==> e in order && ok(e.path)
  {
    if order != [] && total > target {
      var next := if ok(order[0].path) then total - order[0].size else total;
      TargetMetOrAllTried(order[1..], next, target, ok);
      var gone := Gone(order, total, target, ok);
      assert ok(order[0].path) ==> gone[1..] == Gone(order[1..], next, target, ok);
      forall e | e in order
        ensures e == order[0] || e in order[1..]
      {
      }
    }
  }

  /** When removals succeed, exactly a minimal prefix of the order goes. */
  lemma {:induction false} GoneIsMinimalPrefix(order: seq<Entry>, total: int, target: int, ok: string -> bool)
    requires forall e :: e in order ==> ok(e.path)
    requires total == Sum(order) && target >= 0
    ensures var gone := Gone(order, total, target, ok);
      && gone <= order
      && total - Sum(gone) <= target
      && (forall k :: 0 <= k < |gone| ==> total - Sum(order[..k]) > target)
  {
    if order != [] && total > target {
      var rest := Gone(order[1..], total - order[0].size, target, ok);
      GoneIsMinimalPrefix(order[1..], total - order[0].size, target, ok);
      var gone := Gone(order, total, target, ok);
      assert gone == [order[0]] + rest;
      forall k | 0 <= k < |gone|
        ensures total - Sum(order[..k]) > target
      {
        if k > 0 {
          assert order[..k][0] == order[0] && order[..k][1..] == order[1..][..k - 1];
        }
      }
    }
  }

  /** Also when removals fail, the files go from the oldest on: with a file, every one before it
      that can be removed goes too; and the last one was needed. */
  lemma {:induction false} OldestRemovableGo(order: seq<Entry>, total: int, target: int, ok: string -> bool,
                                             i: nat, j: nat)
    requires forall a, b :: 0 <= a < b < |order| ==> order[a] != order[b]
    ensures var gone := Gone(order, total, target, ok);
      && (i < j < |order| && ok(order[i].path) && order[j] in gone ==> order[i] in gone)
      && (gone != [] ==> total - Sum(gone[..|gone| - 1]) > target)
  {
    if order != [] && total > target {
      var rest, first := order[1..], order[0];
      var left := if ok(first.path) then total - first.size else total;
      var more, gone := Gone(rest, left, target, ok), Gone(order, total, target, ok);
      assert forall a :: 0 <= a < |rest| ==> rest[a] == order[a + 1];
      OldestRemovableGo(rest, left, target, ok, if i > 0 then i - 1 else 0, if j > 0 then j - 1 else 0);
      if ok(first.path) {
        assert gone == [first] + more;
        if more != [] {
          assert gone[..|gone| - 1] == [first] + more[..|more| - 1];
          assert ([first] + more[..|more| - 1])[1..] == more[..|more| - 1];
        } else {
          assert gone[..|gone| - 1] == [];
        }
      }
    }
  }

  /** A survivor comes after every removed file in the order. */
  lemma SurvivorsAreNewer(order: seq<Entry>, gone: seq<Entry>, files: Files, path: string)
    requires Lists(order, files) && Sorted(order) && gone <= order
    requires path in files && path !in Paths(gone)
    ensures forall e :: e in gone ==> e.mtime <= files[path].mtime
  {
    ListHas(order, files, path);
    var j :| 0 <= j < |order| && order[j] == EntryOf(files, path);
    assert forall i :: 0 <= i < |gone| ==> gone[i] == order[i] && gone[i] in gone && gone[i].path in Paths(gone);
    assert j >= |gone|;
  }

  lemma EveryRemovalWorks(order: seq<Entry>, files: Files, ok: string -> bool)
    requires Lists(order, files) && forall path :: path in files ==> ok(path)
    ensures forall e :: e in order ==> ok(e.path)
  {
    forall e | e in order
      ensures ok(e.path)
    {
      assert e in multiset(order);
    }
  }

  /** Every survivor is at least as new as every file of `gone`. */
  ghost predicate NewestStay(files: Files, gone: seq<Entry>) {
    var left := files - Paths(gone);
    forall e, path :: e in gone && path in left ==> e.mtime <= left[path].mtime
  }

  lemma AllSurvivorsAreNewer(order: seq<Entry>, gone: seq<Entry>, files: Files)
    requires Lists(order, files) && Sorted(order) && gone <= order
    ensures NewestStay(files, gone)
  {
    forall path | path in files - Paths(gone)
      ensures forall e :: e in gone ==> e.mtime <= files[path].mtime
    {
      SurvivorsAreNewer(order, gone, files, path);
    }
  }

  /** The survivors fit in the target, and one removal fewer would not do. */
  ghost predicate JustFits(files: Files, gone: seq<Entry>, target: int) {
    var left := TotalSize(files - Paths(gone));
    left <= target && gone != [] && left + gone[|gone| - 1].size > target
  }

  lemma LastOneWasNeeded(order: seq<Entry>, gone: seq<Entry>, files: Files, target: int)
    requires gone <= order && Accounts(files, gone) && TotalSize(files) - Sum(gone) <= target < TotalSize(files)
    requires forall k :: 0 <= k < |gone| ==> TotalSize(files) - Sum(order[..k]) > target
    ensures JustFits(files, gone, target)
  {
    assert Sum([]) == 0;
    var k := |gone| - 1;
    assert order[..k] + [gone[k]] == gone;
    SumAppends(order[..k], gone[k]);
  }

  lemma SurvivorsJustFit(order: seq<Entry>, files: Files, cap: int, ok: string -> bool)
    requires Lists(order, files) && cap > 0 && TotalSize(files) > cap
    requires forall path :: path in files ==> ok(path)
    ensures var gone := Gone(order, TotalSize(files), cap / 10 * 9, ok);
      gone <= order && JustFits(files, gone, cap / 10 * 9)
  {
    var total, target := TotalSize(files), cap / 10 * 9;
    ListedSum(order, files);
    EveryRemovalWorks(order, files, ok);
    GoneIsMinimalPrefix(order, total, target, ok);
    RunningTotalIsSurvivors(order, files, total, target, ok);
    LastOneWasNeeded(order, Gone(order, total, target, ok), files, target);
  }

  /** A sweep that triggers and whose removals all succeed: the survivors fit in nine tenths
      of the cap, one removal fewer would not do, and every survivor is at least as new as
      every removed file. */
  lemma SweepKeepsNewest(order: seq<Entry>, files: Files, cap: int, ok: string -> bool)
    requires Lists(order, files) && Sorted(order) && cap > 0 && TotalSize(files) > cap
    requires forall path :: path in files ==> ok(path)
    ensures var gone := Gone(order, TotalSize(files), cap / 10 * 9, ok);
      JustFits(files, gone, cap / 10 * 9) && NewestStay(files, gone)
  {
    SurvivorsJustFit(order, files, cap, ok);
    AllSurvivorsAreNewer(order, Gone(order, TotalSize(files), cap / 10 * 9, ok), files);
  }

  /** With removals that fail: the survivors fit, or nothing that is left can be removed. */
  lemma SweepDoesWhatItCan(order: seq<Entry>, files: Files, cap: int, ok: string -> bool)
    requires Lists(order, files) && cap > 0 && TotalSize(files) > cap
    ensures var left := files - Paths(Gone(order, TotalSize(files), cap / 10 * 9, ok));
      TotalSize(left) <= cap / 10 * 9 || (forall path :: path in left ==> !ok(path))
  {
    var total, target := TotalSize(files), cap / 10 * 9;
    var gone := Gone(order, total, target, ok);
    RunningTotalIsSurvivors(order, files, total, target, ok);
    TargetMetOrAllTried(order, total, target, ok);
    forall path | path in files - Paths(gone)
      ensures EntryOf(files, path) in order
    {
      assert EntryOf(files, path) in multiset(order);
    }
  }

  /** A second sweep after a successful one finds nothing to do. */
  lemma SecondSweepIsIdle(order: seq<Entry>, files: Files, cap: int, ok: string -> bool)
    requires Lists(order, files) && Sorted(order) && cap > 0
    requires forall path :: path in files ==> ok(path)
    ensures var left := if TotalSize(files) <= cap then files
                        else files - Paths(Gone(order, TotalSize(files), cap / 10 * 9, ok));
      TotalSize(left) <= cap
  {
    if TotalSize(files) > cap {
      SweepKeepsNewest(order, files, cap, ok);
    }
  }

  // ---------------------------------------------------------------------------
  // Least recently used

  function AfterUses(files: Files, uses: seq<Use>): Files {
    if uses == [] then files else Used(AfterUses(files, uses[..|uses| - 1]), uses[|uses| - 1])
  }

  /** The i-th use changed its file: it set the time, or removed it. */
  predicate Counts(files: Files, uses: seq<Use>, i: nat)
    requires i < |uses|
  {
    uses[i].Hit? ==> uses[i].touched && uses[i].path in AfterUses(files, uses[..i])
  }

  /** It is a hit or a store, and nothing changed the file after it. */
  ghost predicate LastUse(files: Files, uses: seq<Use>, i: nat, path: string) {
    && i < |uses| && uses[i].path == path && !uses[i].Removed? && Counts(files, uses, i)
    && forall j :: i < j < |uses| && uses[j].path == path ==> !Counts(files, uses, j)
  }

  lemma {:induction false} TimeIsLastUse(files: Files, uses: seq<Use>, i: nat, path: string)
    requires LastUse(files, uses, i, path)
    ensures path in AfterUses(files, uses) && AfterUses(files, uses)[path].mtime == uses[i].at
    decreases |uses|
  {
    var rest := uses[..|uses| - 1];
    if i < |rest| {
      assert forall j :: 0 <= j < |rest| ==> rest[j] == uses[j] && rest[..j] == uses[..j];
      TimeIsLastUse(files, rest, i, path);
      assert uses[..|rest|] == rest;
    }
  }

  /** The files that a sweep with working removals deletes. */
  ghost function SweptAway(order: seq<Entry>, files: Files, cap: int, ok: string -> bool): set<string> {
    Paths(Gone(order, TotalSize(files), cap / 10 * 9, ok))
  }

  lemma OlderGoesToo(order: seq<Entry>, files: Files, cap: int, ok: string -> bool, p: string, q: string)
    requires Lists(order, files) && Sorted(order) && cap > 0 && TotalSize(files) > cap
    requires forall path :: path in files ==> ok(path)
    requires p in SweptAway(order, files, cap, ok) && q in files
    requires p in files ==> files[q].mtime < files[p].mtime
    ensures q in SweptAway(order, files, cap, ok)
  {
    var gone := Gone(order, TotalSize(files), cap / 10 * 9, ok);
    SurvivorsJustFit(order, files, cap, ok);
    GoneIsListed(order, gone, files, p);
    if q !in Paths(gone) {
      SurvivorsAreNewer(order, gone, files, q);
    }
  }

  /** The sweep evicts the least recently used, whatever earlier sweeps removed in between: if
      it removes a file last hit or stored at one time, it also removes every file whose last
      hit or store was before that. */
  lemma LeastRecentlyUsedGoes(before: Files, uses: seq<Use>, order: seq<Entry>, cap: int, ok: string -> bool,
                              i: nat, p: string, j: nat, q: string)
    requires var files := AfterUses(before, uses);
      && Lists(order, files) && Sorted(order) && cap > 0 && TotalSize(files) > cap
      && (forall path :: path in files ==> ok(path))
    requires LastUse(before, uses, i, p) && LastUse(before, uses, j, q) && uses[j].at < uses[i].at
    requires p in SweptAway(order, AfterUses(before, uses), cap, ok)
    ensures q in SweptAway(order, AfterUses(before, uses), cap, ok)
  {
    TimeIsLastUse(before, uses, i, p);
    TimeIsLastUse(before, uses, j, q);
    OlderGoesToo(order, AfterUses(before, uses), cap, ok, p, q);
  }

  lemma GoneIsListed(order: seq<Entry>, gone: seq<Entry>, files: Files, path: string)
    requires Lists(order, files) && gone <= order && path in Paths(gone)
    ensures path in files && EntryOf(files, path) in gone
  {
    var e :| e in gone && e.path == path;
    assert e in order && e in multiset(order);
  }
}
