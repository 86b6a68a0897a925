/** The size budget of the bodies directory: eviction removes body files oldest
    first until what is left fits the budget. */
module BodyBudget {
  import opened Prelude

  datatype File = File(data: seq<Byte>, mod: nat)

  /** The regular files of the bodies directory, by name. */
  type Dir = map<string, File>

  /** Only `<id>.json` entries count as bodies. */
  predicate IsBody(name: string) {
    |name| >= 5 && name[|name| - 5..] == ".json"
  }

  function Bodies(d: Dir): set<string> {
    set n | n in d && IsBody(n)
  }

  // ----- Sizes -----

  ghost function SizeOf(d: Dir, names: set<string>): nat
    requires names <= d.Keys
    decreases |names|
  {
    if names == {} then 0
    else
      var n :| n in names;
      |d[n].data| + SizeOf(d, names - {n})
  }

  lemma {:induction false} SizeOfPick(d: Dir, names: set<string>, n: string)
    requires names <= d.Keys && n in names
    ensures SizeOf(d, names) == |d[n].data| + SizeOf(d, names - {n})
    decreases |names|
  {
    var m :| m in names && SizeOf(d, names) == |d[m].data| + SizeOf(d, names - {m});
    if m != n {
      SizeOfPick(d, names - {m}, n);
      SizeOfPick(d, names - {n}, m);
      assert names - {m} - {n} == names - {n} - {m};
    }
  }

  lemma {:induction false} SizeOfTailEnd(d: Dir, order: seq<string>)
    requires Names(order[|order|..]) <= d.Keys
    ensures SizeOf(d, Names(order[|order|..])) == 0
  {
    assert Names(order[|order|..]) == {};
  }

  lemma {:induction false} SizeOfSame(d: Dir, e: Dir, names: set<string>)
    requires names <= d.Keys && names <= e.Keys && forall n | n in names :: d[n] == e[n]
    ensures SizeOf(d, names) == SizeOf(e, names)
    decreases |names|
  {
    if names != {} {
      var n :| n in names;
      SizeOfPick(d, names, n);
      SizeOfPick(e, names, n);
      SizeOfSame(d, e, names - {n});
    }
  }

  lemma {:induction false} SizeOfMonotone(d: Dir, some: set<string>, all: set<string>)
    requires some <= all <= d.Keys
    ensures SizeOf(d, some) <= SizeOf(d, all)
    decreases |all|
  {
    if all != some {
      assert exists n :: n in all && n !in some;
      var n :| n in all && n !in some;
      SizeOfPick(d, all, n);
      SizeOfMonotone(d, some, all - {n});
    }
  }

  ghost predicate WithinBudget(d: Dir, budget: int) {
    budget <= 0 || SizeOf(d, Bodies(d)) <= budget
  }

  // ----- What eviction is -----

  function Names(order: seq<string>): set<string> {
    set n | n in order
  }

  ghost predicate NoDuplicates(order: seq<string>) {
    forall i, j | 0 <= i < j < |order| :: order[i] != order[j]
  }

  ghost predicate OldestFirst(d: Dir, order: seq<string>)
    requires Names(order) <= d.Keys
  {
    forall i, j | 0 <= i < j < |order| :: d[order[i]].mod <= d[order[j]].mod
  }

  /** `order` lists each of `names` once, oldest first. */
  ghost predicate Queue(d: Dir, names: set<string>, order: seq<string>) {
    Names(order) == names && names <= d.Keys && NoDuplicates(order) && OldestFirst(d, order)
  }

  ghost predicate StillOver(d: Dir, order: seq<string>, j: nat, budget: int)
    requires j <= |order|
  {
    Names(order[j..]) <= d.Keys && SizeOf(d, Names(order[j..])) > budget
  }

  /** Removing the first `k` of `order` is the shortest prefix after which the rest of
      `order` fits the budget. */
  ghost predicate ShortestPrefix(d: Dir, order: seq<string>, k: nat, budget: int)
    requires k <= |order|
  {
    && Names(order[k..]) <= d.Keys && SizeOf(d, Names(order[k..])) <= budget
    && forall j | 0 <= j < k :: StillOver(d, order, j, budget)
  }

  lemma {:induction false} SplitNames(order: seq<string>, k: nat)
    requires k <= |order|
    ensures Names(order) == Names(order[..k]) + Names(order[k..])
    ensures NoDuplicates(order) ==> Names(order[..k]) !! Names(order[k..])
  {
    forall n
      ensures n in order <==> n in order[..k] || n in order[k..]
    {
      assert order == order[..k] + order[k..];
    }
    if NoDuplicates(order) {
      forall n | n in order[..k]
        ensures n !in order[k..]
      {
        var i :| 0 <= i < k && order[i] == n;
        assert forall j | 0 <= j < |order[k..]| :: order[k..][j] == order[k + j];
      }
    }
  }

  lemma {:induction false} SplitFirst(order: seq<string>, i: nat)
    requires NoDuplicates(order) && i < |order|
    ensures Names(order[i..]) - {order[i]} == Names(order[i + 1..])
    ensures Names(order[..i + 1]) == Names(order[..i]) + {order[i]}
    ensures order[i] in Names(order[i..]) && order[i] !in Names(order[..i])
  {
    assert order[i..] == [order[i]] + order[i + 1..];
    assert order[..i + 1] == order[..i] + [order[i]];
    SplitNames(order, i);
    SplitNames(order, i + 1);
  }

  /** What is left of `d` once `gone` is removed, except the entries that are stuck. */
  function Left(d: Dir, gone: set<string>, stuck: set<string>): Dir {
    d - (gone - stuck)
  }

  lemma {:induction false} LeftOneMore(d: Dir, gone: set<string>, n: string, stuck: set<string>)
    ensures Left(d, gone + {n}, stuck) == if n in stuck then Left(d, gone, stuck) else Left(d, gone, stuck) - {n}
  {
    if n in stuck {
      assert gone + {n} - stuck == gone - stuck;
    }
  }

  lemma {:induction false} LeftNone(d: Dir, order: seq<string>, stuck: set<string>)
    ensures Left(d, Names(order[..0]), stuck) == d
  {
  }

  // ----- Sorting by modification time -----

  function ModOf(d: Dir, n: string): nat {
    if n in d then d[n].mod else 0
  }

  function Insert(d: Dir, n: string, order: seq<string>): (r: seq<string>)
    ensures multiset(r) == multiset(order) + multiset{n}
  {
    if order == [] || ModOf(d, n) < ModOf(d, order[0]) then [n] + order
    else
      assert order == [order[0]] + order[1..];
      [order[0]] + Insert(d, n, order[1..])
  }

  function Sorted(d: Dir, names: seq<string>): (r: seq<string>)
    ensures multiset(r) == multiset(names)
  {
    if names == [] then []
    else
      assert names == [names[0]] + names[1..];
      Insert(d, names[0], Sorted(d, names[1..]))
  }

  ghost predicate SortedByMod(d: Dir, order: seq<string>) {
    forall i, j | 0 <= i < j < |order| :: ModOf(d, order[i]) <= ModOf(d, order[j])
  }

  lemma {:induction false} InsertSorts(d: Dir, n: string, order: seq<string>)
    requires SortedByMod(d, order)
    ensures SortedByMod(d, Insert(d, n, order))
  {
    if order != [] && ModOf(d, n) >= ModOf(d, order[0]) {
      InsertSorts(d, n, order[1..]);
      var r := Insert(d, n, order[1..]);
      forall j | 0 <= j < |r|
        ensures ModOf(d, order[0]) <= ModOf(d, r[j])
      {
        assert r[j] in multiset(r);
        assert r[j] == n || r[j] in order[1..];
      }
    }
  }

  lemma {:induction false} SortedSorts(d: Dir, names: seq<string>)
    ensures SortedByMod(d, Sorted(d, names))
  {
    if names != [] {
      SortedSorts(d, names[1..]);
      InsertSorts(d, names[0], Sorted(d, names[1..]));
    }
  }

  lemma {:induction false} SameElements(a: seq<string>, b: seq<string>)
    requires multiset(a) == multiset(b) && NoDuplicates(a)
    ensures Names(a) == Names(b) && NoDuplicates(b)
  {
    forall n
      ensures n in a <==> n in b
    {
      assert n in a <==> n in multiset(a);
      assert n in b <==> n in multiset(b);
    }
    forall i, j | 0 <= i < j < |b|
      ensures b[i] != b[j]
    {
      if b[i] == b[j] {
        Twice(b, i, j);
        Once(a, b[i]);
      }
    }
  }

  lemma {:induction false} Twice(s: seq<string>, i: nat, j: nat)
    requires i < j < |s| && s[i] == s[j]
    ensures multiset(s)[s[i]] >= 2
  {
    assert s == s[..i] + [s[i]] + s[i + 1..j] + [s[j]] + s[j + 1..];
  }

  lemma {:induction false} Once(s: seq<string>, n: string)
    requires NoDuplicates(s)
    ensures multiset(s)[n] <= 1
  {
    if s != [] {
      assert s == [s[0]] + s[1..];
      Once(s[1..], n);
      assert s[0] !in s[1..];
      assert multiset(s)[n] == multiset([s[0]])[n] + multiset(s[1..])[n];
    }
  }

  // ----- The eviction loop -----

  class BodiesDir {
    var files: Dir
    const subdirs: set<string>

    constructor (subdirs: set<string>)
      ensures files == map[] && this.subdirs == subdirs
    {
      this.subdirs := subdirs;
      files := map[];
    }

    /** The directory read: every entry once, in some order. */
    method ReadDir() returns (listing: seq<string>)
      ensures NoDuplicates(listing) && Names(listing) == files.Keys + subdirs
    {
      listing := [];
      var rest := files.Keys + subdirs;
      while rest != {}
        invariant NoDuplicates(listing) && Names(listing) !! rest
        invariant Names(listing) + rest == files.Keys + subdirs
        decreases |rest|
      {
        var n :| n in rest;
        assert Names(listing + [n]) == Names(listing) + {n};
        listing, rest := listing + [n], rest - {n};
      }
    }

    /** The body files in `listing` whose stat succeeds, and their total size. */
    method Scan(listing: seq<string>, noInfo: set<string>) returns (found: seq<string>, total: int)
      requires NoDuplicates(listing) && Names(listing) == files.Keys + subdirs && files.Keys !! subdirs
      ensures NoDuplicates(found) && Names(found) == Bodies(files) - noInfo
      ensures total == SizeOf(files, Bodies(files) - noInfo)
    {
      found, total := [], 0;
      var i := 0;
      while i < |listing|
        invariant 0 <= i <= |listing| && NoDuplicates(found)
        invariant Names(found) == Names(listing[..i]) * (Bodies(files) - noInfo)
        invariant total == SizeOf(files, Names(found))
      {
        var name := listing[i];
        SplitFirst(listing, i);
        assert name in Names(listing);
        ghost var seen := Names(found);
        if name !in subdirs && IsBody(name) && name !in noInfo {
          found := found + [name];
          assert Names(found) == seen + {name};
          SizeOfPick(files, Names(found), name);
          assert Names(found) - {name} == seen;
          total := total + |files[name].data|;
        }
        i := i + 1;
      }
      assert listing[..i] == listing;
      assert Names(found) == Bodies(files) - noInfo;
    }

    /** Removes from the front of `sorted` until `total` fits. */
    method RemoveOldest(budget: int, sorted: seq<string>, size: int, stuck: set<string>) returns (k: nat)
      requires budget > 0 && NoDuplicates(sorted) && Names(sorted) <= files.Keys
      requires size == SizeOf(files, Names(sorted))
      modifies this
      ensures k <= |sorted| && ShortestPrefix(old(files), sorted, k, budget)
      ensures files == Left(old(files), Names(sorted[..k]), stuck)
    {
      hide Names, NoDuplicates, Left, SizeOf;
      LeftNone(files, sorted, stuck);
      var infos := files;  // the sizes read while listing
      var total := size;
      k := 0;
      assert sorted[0..] == sorted;
      while k < |sorted| && total > budget
        invariant 0 <= k <= |sorted| && Names(sorted) <= infos.Keys
        invariant Names(sorted[k..]) <= infos.Keys && total == SizeOf(infos, Names(sorted[k..]))
        invariant forall j | 0 <= j < k :: StillOver(infos, sorted, j, budget)
        invariant files == Left(infos, Names(sorted[..k]), stuck)
      {
        SplitFirst(sorted, k);
        var name := sorted[k];
        LeftOneMore(infos, Names(sorted[..k]), name, stuck);
        SizeOfPick(infos, Names(sorted[k..]), name);
        if name !in stuck {
          files := files - {name};
        }
        total := total - |infos[name].data|;
        k := k + 1;
      }
      if k == |sorted| {
        SizeOfTailEnd(infos, sorted);
      }
    }

    /** The whole eviction. `readable` says whether the directory read succeeds,
        `noInfo` is the entries whose stat fails and `stuck` those whose removal
        fails; the ghost results are the queue and how far into it the loop got. */
    method EnforceBudget(budget: int, readable: bool, noInfo: set<string>, stuck: set<string>)
      returns (ghost order: seq<string>, ghost k: nat)
      requires files.Keys !! subdirs
      modifies this
      ensures budget <= 0 || !readable ==> files == old(files)
      ensures budget > 0 && readable ==>
                && Queue(old(files), Bodies(old(files)) - noInfo, order) && k <= |order|
                && ShortestPrefix(old(files), order, k, budget)
                && files == Left(old(files), Names(order[..k]), stuck)
    {
      order, k := [], 0;
      if budget <= 0 || !readable {
        return;
      }
      var listing := ReadDir();
      var found, total := Scan(listing, noInfo);
      var sorted := Sorted(files, found);
      SameElements(found, sorted);
      SortedSorts(files, found);
      order := sorted;
      assert OldestFirst(files, sorted) by {
        forall i | 0 <= i < |sorted|
          ensures sorted[i] in files
        {
          assert sorted[i] in Names(sorted);
        }
        assert forall i | 0 <= i < |sorted| :: ModOf(files, sorted[i]) == files[sorted[i]].mod;
      }
      var removed := RemoveOldest(budget, sorted, total, stuck);
      k := removed;
    }
  }

  lemma {:induction false} BodiesLeft(d: Dir, order: seq<string>, k: nat, d': Dir)
    requires Queue(d, Bodies(d), order) && k <= |order| && d' == d - Names(order[..k])
    ensures Bodies(d') == Names(order[k..])
    ensures SizeOf(d', Bodies(d')) == SizeOf(d, Bodies(d'))
  {
    SplitNames(order, k);
    SizeOfSame(d', d, Bodies(d'));
  }

  /** With every stat and removal succeeding, eviction ends within a positive budget
      and touches nothing but bodies. */
  lemma {:induction false} EvictionFits(d: Dir, order: seq<string>, k: nat, budget: int, d': Dir)
    requires Queue(d, Bodies(d), order) && k <= |order| && ShortestPrefix(d, order, k, budget)
    requires d' == d - Names(order[..k])
    ensures WithinBudget(d', budget)
    ensures forall n | n in d && !IsBody(n) :: n in d'
    ensures d'.Keys <= d.Keys && forall n | n in d' :: d'[n] == d[n]
  {
    BodiesLeft(d, order, k, d');
    SplitNames(order, k);
    forall n | n in d && !IsBody(n)
      ensures n in d'
    {
      assert n !in Names(order);
    }
  }

  /** No body that is kept is older than one that was evicted. */
  lemma {:induction false} EvictedAreOldest(d: Dir, order: seq<string>, k: nat, gone: string, kept: string)
    requires Queue(d, Bodies(d), order) && k <= |order|
    requires gone in Names(order[..k]) && kept in Bodies(d - Names(order[..k]))
    ensures d[gone].mod <= d[kept].mod
  {
    BodiesLeft(d, order, k, d - Names(order[..k]));
    var i :| 0 <= i < k && order[..k][i] == gone;
    var j :| 0 <= j < |order[k..]| && order[k..][j] == kept;
    assert order[i] == gone && order[k + j] == kept;
  }

  /** Nothing less would do: stopping earlier leaves the budget exceeded. */
  lemma {:induction false} EvictionMinimal(d: Dir, order: seq<string>, k: nat, budget: int, j: nat)
    requires Queue(d, Bodies(d), order) && j < k <= |order| && ShortestPrefix(d, order, k, budget)
    requires budget > 0
    ensures !WithinBudget(d - Names(order[..j]), budget)
  {
    assert StillOver(d, order, j, budget);
    BodiesLeft(d, order, j, d - Names(order[..j]));
  }
}
