/**
 The destroy archive directory: writing one verified home archive and pruning
 old ones (archiveAgentHome, verifyArchiveFile and pruneArchiveDir of
 internal/agent/manager_destroy.go).
 */
module Archive {

  /** One directory entry. complete: the file is a whole, verified archive. */
  datatype Entry = Entry(isDir: bool, statOk: bool, size: nat, mtime: int, complete: bool)

  /** What pruning knows of an archive file. */
  datatype Item = Item(name: string, size: nat, mtime: int)

  const SUFFIX := ".tar.gz"

  predicate HasSuffix(name: string) {
    |name| >= |SUFFIX| && name[|name| - |SUFFIX|..] == SUFFIX
  }

  predicate Prunable(name: string, e: Entry) {
    !e.isDir && HasSuffix(name) && e.statOk
  }

  // ---- newest first ----

  predicate Less(a: string, b: string) {
    if b == "" then false
    else if a == "" then true
    else a[0] < b[0] || (a[0] == b[0] && Less(a[1..], b[1..]))
  }

  lemma {:induction false} LessTotal(a: string, b: string)
    ensures Less(a, b) || Less(b, a) || a == b
    ensures !(Less(a, b) && Less(b, a))
    ensures !Less(a, a)
  {
    if a != "" && b != "" {
      LessTotal(a[1..], b[1..]);
      assert a == [a[0]] + a[1..] && b == [b[0]] + b[1..];
    }
    if a != "" { LessIrreflexive(a); }
  }

  lemma {:induction false} LessIrreflexive(a: string)
    ensures !Less(a, a)
  {
    if a != "" { LessIrreflexive(a[1..]); }
  }

  lemma {:induction false} LessTransitive(a: string, b: string, c: string)
    requires Less(a, b) && Less(b, c)
    ensures Less(a, c)
  {
    if a != "" && a[0] == b[0] && b[0] == c[0] {
      LessTransitive(a[1..], b[1..], c[1..]);
    }
  }

  /** The sort order: modification time descending, then name descending. */
  predicate Newer(a: Item, b: Item) {
    a.mtime > b.mtime || (a.mtime == b.mtime && Less(b.name, a.name))
  }

  lemma NewerTransitive(a: Item, b: Item, c: Item)
    requires Newer(a, b) && Newer(b, c)
    ensures Newer(a, c)
  {
    if a.mtime == b.mtime == c.mtime { LessTransitive(c.name, b.name, a.name); }
  }

  lemma NewerTotal(a: Item, b: Item)
    requires a.name != b.name
    ensures Newer(a, b) != Newer(b, a)
  {
    LessTotal(a.name, b.name);
  }

  ghost predicate Ranked(s: seq<Item>) {
    forall i, j :: 0 <= i < j < |s| ==> Newer(s[i], s[j])
  }

  ghost predicate DistinctNames(s: seq<Item>) {
    forall i, j :: 0 <= i < j < |s| ==> s[i].name != s[j].name
  }

  function Insert(x: Item, s: seq<Item>): seq<Item> {
    if s == [] || Newer(x, s[0]) then [x] + s else [s[0]] + Insert(x, s[1..])
  }

  lemma NewerIrreflexive(a: Item)
    ensures !Newer(a, a)
  {
    LessTotal(a.name, a.name);
  }

  lemma {:induction false} InsertElements(x: Item, s: seq<Item>)
    ensures |Insert(x, s)| == |s| + 1
    ensures forall y :: y in Insert(x, s) <==> y == x || y in s
    ensures Total(Insert(x, s)) == Total(s) + x.size
  {
    TotalAppend([x], s);
    if s != [] && !Newer(x, s[0]) {
      InsertElements(x, s[1..]);
      assert s == [s[0]] + s[1..];
      TotalAppend([s[0]], s[1..]);
      TotalAppend([s[0]], Insert(x, s[1..]));
    }
  }

  lemma {:induction false} InsertRanked(x: Item, s: seq<Item>)
    requires Ranked(s) && forall i :: 0 <= i < |s| ==> s[i].name != x.name
    ensures Ranked(Insert(x, s))
  {
    if s == [] {
    } else if Newer(x, s[0]) {
      forall j | 0 < j < |s| ensures Newer(x, s[j]) { NewerTransitive(x, s[0], s[j]); }
    } else {
      var rest := Insert(x, s[1..]);
      InsertRanked(x, s[1..]);
      InsertElements(x, s[1..]);
      NewerTotal(x, s[0]);
      forall j | 0 <= j < |rest| ensures Newer(s[0], rest[j]) {
        assert rest[j] in rest;
      }
    }
  }

  /** sort.Slice with the comparison above: the same items, newest first. */
  method SortNewest(s: seq<Item>) returns (r: seq<Item>)
    requires DistinctNames(s)
    ensures Ranked(r) && DistinctNames(r) && |r| == |s| && Total(r) == Total(s)
    ensures forall x :: x in r <==> x in s
  {
    r := [];
    var i := 0;
    while i < |s|
      invariant 0 <= i <= |s|
      invariant Ranked(r) && |r| == i && Total(r) == Total(s[..i])
      invariant forall x :: x in r <==> x in s[..i]
    {
      forall k | 0 <= k < |r| ensures r[k].name != s[i].name {
        assert r[k] in s[..i];
      }
      InsertRanked(s[i], r);
      InsertElements(s[i], r);
      r := Insert(s[i], r);
      assert s[..i + 1][..i] == s[..i];
      assert s[..i + 1] == s[..i] + [s[i]];
      i := i + 1;
    }
    assert s[..i] == s;
    RankedDistinct(r, s);
  }

  lemma RankedDistinct(r: seq<Item>, s: seq<Item>)
    requires Ranked(r) && DistinctNames(s) && forall x :: x in r ==> x in s
    ensures DistinctNames(r)
  {
    forall i, j | 0 <= i < j < |r| ensures r[i].name != r[j].name {
      NewerIrreflexive(r[i]);
      assert r[i] in s && r[j] in s;
    }
  }

  lemma HeadNotAfter(a: seq<Item>, x: Item)
    requires Ranked(a) && a != []
    ensures x in a[1..] <==> x in a && x != a[0]
  {
    NewerIrreflexive(a[0]);
    assert a == [a[0]] + a[1..];
  }

  /** Whatever order the directory was read in, sorting it gives the same sequence. */
  lemma {:induction false} RankingUnique(a: seq<Item>, b: seq<Item>)
    requires Ranked(a) && Ranked(b) && forall x :: x in a <==> x in b
    ensures a == b
    decreases |a|
  {
    assert (|a| > 0 ==> a[0] in b) && (|b| > 0 ==> b[0] in a);
    if a != [] {
      SameHead(a, b);
      forall x ensures x in a[1..] <==> x in b[1..] {
        HeadNotAfter(a, x);
        HeadNotAfter(b, x);
      }
      RankingUnique(a[1..], b[1..]);
      assert a == [a[0]] + a[1..] && b == [b[0]] + b[1..];
    }
  }

  lemma SameHead(a: seq<Item>, b: seq<Item>)
    requires Ranked(a) && Ranked(b) && a != [] && b != [] && forall x :: x in a <==> x in b
    ensures a[0] == b[0]
  {
    assert a[0] in b && b[0] in a;
    var j :| 0 <= j < |b| && b[j] == a[0];
    var i :| 0 <= i < |a| && a[i] == b[0];
    assert i > 0 ==> Newer(a[0], b[0]);
    assert j > 0 ==> Newer(b[0], a[0]);
    LessTotal(a[0].name, b[0].name);
  }

  // ---- how many survive ----

  function Total(s: seq<Item>): nat {
    if s == [] then 0 else Total(s[..|s| - 1]) + s[|s| - 1].size
  }

  /** The k newest obey both limits; a limit of zero or less is switched off. */
  ghost predicate Fits(a: seq<Item>, k: nat, keep: int, maxBytes: int) {
    && k <= |a|
    && (keep > 0 ==> k <= keep)
    && (maxBytes > 0 ==> Total(a[..k]) <= maxBytes)
  }

  /** k is the longest fitting prefix, or one when not even the newest fits. */
  ghost predicate IsLongest(a: seq<Item>, k: nat, keep: int, maxBytes: int) {
    && k <= |a|
    && (|a| > 0 ==> k >= 1)
    && (k == 1 || Fits(a, k, keep, maxBytes))
    && forall j :: k < j <= |a| ==> !Fits(a, j, keep, maxBytes)
  }

  lemma {:induction false} TotalMonotone(a: seq<Item>, i: nat, j: nat)
    requires i <= j <= |a|
    ensures Total(a[..i]) <= Total(a[..j])
    decreases j - i
  {
    if i < j {
      TotalMonotone(a, i, j - 1);
      assert a[..j][..j - 1] == a[..j - 1];
    }
  }

  lemma LongestUnique(a: seq<Item>, k: nat, j: nat, keep: int, maxBytes: int)
    requires IsLongest(a, k, keep, maxBytes) && IsLongest(a, j, keep, maxBytes)
    ensures k == j
  {}

  /** Pruning what pruning left removes nothing. */
  lemma PruneStable(a: seq<Item>, k: nat, j: nat, keep: int, maxBytes: int)
    requires IsLongest(a, k, keep, maxBytes) && IsLongest(a[..k], j, keep, maxBytes)
    ensures j == k
  {
    assert a[..k][..k] == a[..k];
    assert k == 1 || Fits(a[..k], k, keep, maxBytes);
  }

  lemma {:induction false} TotalAppend(a: seq<Item>, b: seq<Item>)
    ensures Total(a + b) == Total(a) + Total(b)
    decreases |b|
  {
    if b == [] {
      assert a + b == a;
    } else {
      TotalAppend(a, b[..|b| - 1]);
      assert (a + b)[..|a + b| - 1] == a + b[..|b| - 1];
    }
  }

  // ---- the directory ----

  ghost function Items(files: map<string, Entry>): (r: set<Item>)
    ensures forall x :: x in r <==> x.name in files && Prunable(x.name, files[x.name])
                                    && x == Item(x.name, files[x.name].size, files[x.name].mtime)
  {
    set n | n in files && Prunable(n, files[n]) :: Item(n, files[n].size, files[n].mtime)
  }

  /** a lists exactly the directory's archives, newest first. */
  ghost predicate Ranking(a: seq<Item>, files: map<string, Entry>) {
    Ranked(a) && forall x :: x in a <==> x in Items(files)
  }

  ghost function Names(a: seq<Item>): (r: set<string>)
    ensures forall n :: n in r <==> exists i :: 0 <= i < |a| && a[i].name == n
  {
    set i | 0 <= i < |a| :: a[i].name
  }

  ghost predicate Collected(a: seq<Item>, files: map<string, Entry>, seen: seq<string>) {
    && DistinctNames(a)
    && forall x :: x in a <==> x in Items(files) && x.name in seen
  }

  lemma CollectStep(files: map<string, Entry>, order: seq<string>, i: nat, a: seq<Item>)
    requires Listing(order, files) && i < |order| && Collected(a, files, order[..i])
    ensures var n, e := order[i], files[order[i]];
            if Prunable(n, e) then
              var a' := a + [Item(n, e.size, e.mtime)];
              Collected(a', files, order[..i + 1]) && Total(a') == Total(a) + e.size
            else Collected(a, files, order[..i + 1])
  {}

  /** files is what was there before without the removed names that could be removed. */
  ghost predicate Without(files: map<string, Entry>, was: map<string, Entry>, removed: seq<string>, removable: string -> bool) {
    && (forall n :: n in files <==> n in was && !(n in removed && removable(n)))
    && forall n :: n in files ==> files[n] == was[n]
  }

  ghost predicate Listing(order: seq<string>, files: map<string, Entry>) {
    && (forall n :: n in order <==> n in files)
    && forall i, j :: 0 <= i < j < |order| ==> order[i] != order[j]
  }

  datatype TarAnswer = TarFailed(leavesFile: bool) | TarDone(size: nat)

  /** What the host answers while one home is archived. */
  datatype ArchiveHost = ArchiveHost(
    mkdirOk: bool,
    name: string,
    mtime: int,
    tar: TarAnswer,
    listOk: bool,
    entries: nat,
    removeOk: bool)

  /** Every archive file in the directory is a whole, verified archive. */
  ghost predicate Sound(files: map<string, Entry>) {
    forall n :: n in files && Prunable(n, files[n]) ==> files[n].complete
  }

  class ArchiveDir {
    var files: map<string, Entry>

    constructor ()
      ensures files == map[]
    {
      files := map[];
    }

    /** archiveAgentHome: success only for a tarball that exists, is not empty and lists an entry. */
    method ArchiveHome(h: ArchiveHost) returns (ok: bool)
      modifies this
      ensures ok <==> h.mkdirOk && h.name !in old(files) && h.tar.TarDone? && h.tar.size > 0 && h.listOk && h.entries > 0
      ensures ok ==> files == old(files)[h.name := Entry(false, true, h.tar.size, h.mtime, true)]
      ensures !ok && h.removeOk ==> files == old(files)
      ensures !ok ==> files - {h.name} == old(files) - {h.name} && (h.name in old(files) ==> files == old(files))
      ensures Sound(old(files)) && (ok || h.removeOk) ==> Sound(files)
    {
      if !h.mkdirOk {
        return false;
      }
      if h.name in files {
        return false;
      }
      match h.tar {
        case TarFailed(leaves) =>
          if leaves {
            files := files[h.name := Entry(false, true, 0, h.mtime, false)];
          }
          RemovePartial(h);
          ok := false;
        case TarDone(size) =>
          files := files[h.name := Entry(false, true, size, h.mtime, false)];
          ok := size != 0 && h.listOk && h.entries != 0;
          if ok {
            files := files[h.name := files[h.name].(complete := true)];
          } else {
            RemovePartial(h);
          }
      }
    }

    method RemovePartial(h: ArchiveHost)
      modifies this
      ensures files == if h.removeOk then old(files) - {h.name} else old(files)
    {
      if h.removeOk {
        files := files - {h.name};
      }
    }

    /** The prunable entries of the listing, in listing order. */
    method Collect(order: seq<string>) returns (archives: seq<Item>, remaining: nat)
      requires Listing(order, files)
      ensures DistinctNames(archives)
      ensures forall x :: x in archives <==> x in Items(files)
      ensures remaining == Total(archives)
    {
      archives, remaining := [], 0;
      var i := 0;
      while i < |order|
        invariant 0 <= i <= |order|
        invariant Collected(archives, files, order[..i])
        invariant remaining == Total(archives)
      {
        var n := order[i];
        var e := files[n];
        CollectStep(files, order, i, archives);
        if Prunable(n, e) {
          archives := archives + [Item(n, e.size, e.mtime)];
          remaining := remaining + e.size;
        }
        i := i + 1;
      }
      assert order[..i] == order;
    }

    /** One removal: best effort, reported either way. */
    method Remove(name: string, removable: string -> bool, removed: seq<string>, ghost was: map<string, Entry>)
      returns (removed': seq<string>)
      requires Without(files, was, removed, removable)
      modifies this
      ensures removed' == removed + [name]
      ensures Without(files, was, removed', removable)
    {
      removed' := removed + [name];
      if removable(name) {
        files := files - {name};
      }
    }

    /**
     pruneArchiveDir. ranking is the directory newest first and kept the number of
     archives the two limits leave; everything ranked after them is removed, oldest
     last in the keep pass and oldest first in the size pass, and nothing else is touched.
     */
    method Prune(order: seq<string>, keep: int, maxBytes: int, removable: string -> bool)
      returns (removed: seq<string>, ghost ranking: seq<Item>, ghost kept: nat)
      requires Listing(order, files)
      modifies this
      ensures Ranking(ranking, old(files))
      ensures if keep <= 0 && maxBytes <= 0 then kept == |ranking| else IsLongest(ranking, kept, keep, maxBytes)
      ensures kept <= |ranking| && |removed| == |ranking| - kept
      ensures forall n :: n in removed <==> n in Names(ranking[kept..])
      ensures Without(files, old(files), removed, removable)
    {
      removed := [];
      var archives, remaining := Collect(order);
      archives := SortNewest(archives);
      ranking := archives;
      kept := |ranking|;
      if keep <= 0 && maxBytes <= 0 {
        return;
      }
      if |archives| == 0 {
        return;
      }
      var top := |archives|;
      assert archives[..top] == archives;
      if keep > 0 && keep < |archives| {
        removed, remaining := KeepPass(archives, keep, remaining, removable);
        top := keep;
      }
      kept := top;
      if maxBytes > 0 && top > 1 {
        removed, remaining, kept := SizePass(archives, top, maxBytes, remaining, removed, removable, old(files));
      }
      KeptIsLongest(archives, top, kept, keep, maxBytes);
    }

    /** Everything beyond the newest keep archives goes. */
    method KeepPass(a: seq<Item>, keep: nat, remaining: int, removable: string -> bool)
      returns (removed: seq<string>, left: int)
      requires keep < |a| && remaining == Total(a) && DistinctNames(a)
      modifies this
      ensures left == Total(a[..keep])
      ensures |removed| == |a| - keep
      ensures forall n :: n in removed <==> n in Names(a[keep..])
      ensures Without(files, old(files), removed, removable)
    {
      removed, left := [], remaining;
      var i := keep;
      ghost var newest := Total(a[..keep]);
      SplitTotal(a, keep);
      while i < |a|
        invariant keep <= i <= |a|
        invariant left == newest + Total(a[i..])
        invariant |removed| == i - keep
        invariant forall k :: 0 <= k < |removed| ==> removed[k] == a[keep + k].name
        invariant Without(files, old(files), removed, removable)
      {
        removed := Remove(a[i].name, removable, removed, old(files));
        left := left - a[i].size;
        TailTotal(a, i);
        i := i + 1;
      }
      NamesOf(a, keep, removed);
    }

    /** Oldest first while over the cap, never the newest. */
    method SizePass(a: seq<Item>, top: nat, maxBytes: int, remaining: int, already: seq<string>, removable: string -> bool,
                    ghost was: map<string, Entry>)
      returns (removed: seq<string>, left: int, kept: nat)
      requires 1 < top <= |a| && remaining == Total(a[..top])
      requires |already| == |a| - top && forall n :: n in already <==> n in Names(a[top..])
      requires Without(files, was, already, removable)
      modifies this
      ensures 1 <= kept && (kept == 1 || left <= maxBytes)
      ensures CutTo(a, top, kept, maxBytes, left, removed)
      ensures Without(files, was, removed, removable)
    {
      removed, left := already, remaining;
      var i := top - 1;
      while i >= 1 && left > maxBytes
        invariant 0 <= i < top && CutTo(a, top, i + 1, maxBytes, left, removed)
        invariant Without(files, was, removed, removable)
      {
        CutStep(a, top, i, maxBytes, left, removed);
        removed := Remove(a[i].name, removable, removed, was);
        left := left - a[i].size;
        i := i - 1;
      }
      kept := i + 1;
    }
  }

  lemma SplitTotal(a: seq<Item>, k: nat)
    requires k <= |a|
    ensures Total(a) == Total(a[..k]) + Total(a[k..])
  {
    assert a == a[..k] + a[k..];
    TotalAppend(a[..k], a[k..]);
  }

  lemma TailTotal(a: seq<Item>, i: nat)
    requires i < |a|
    ensures Total(a[i..]) == a[i].size + Total(a[i + 1..])
  {
    assert a[i..] == [a[i]] + a[i + 1..];
    TotalAppend([a[i]], a[i + 1..]);
  }

  lemma NamesOf(a: seq<Item>, keep: nat, removed: seq<string>)
    requires keep <= |a| && |removed| == |a| - keep
    requires forall k :: 0 <= k < |removed| ==> removed[k] == a[keep + k].name
    ensures forall n :: n in removed <==> n in Names(a[keep..])
  {
    forall n | n in Names(a[keep..]) ensures n in removed {
      var i :| 0 <= i < |a[keep..]| && a[keep..][i].name == n;
      assert removed[i] == n;
    }
    forall n | n in removed ensures n in Names(a[keep..]) {
      var k :| 0 <= k < |removed| && removed[k] == n;
      assert a[keep..][k].name == n;
    }
  }

  lemma NamesStep(a: seq<Item>, i: nat)
    requires i < |a|
    ensures forall n :: n in Names(a[i..]) <==> n == a[i].name || n in Names(a[i + 1..])
  {}

  /** The newest kept are left, with left bytes in all; every longer prefix up to top is over the cap. */
  ghost predicate CutTo(a: seq<Item>, top: nat, kept: nat, maxBytes: int, left: int, removed: seq<string>) {
    && kept <= top <= |a| && left == Total(a[..kept])
    && (forall j :: kept < j <= top ==> Total(a[..j]) > maxBytes)
    && |removed| == |a| - kept && (forall n :: n in removed <==> n in Names(a[kept..]))
  }

  lemma CutStep(a: seq<Item>, top: nat, i: nat, maxBytes: int, left: int, removed: seq<string>)
    requires CutTo(a, top, i + 1, maxBytes, left, removed) && left > maxBytes
    ensures CutTo(a, top, i, maxBytes, left - a[i].size, removed + [a[i].name])
  {
    assert a[..i + 1][..i] == a[..i];
    NamesStep(a, i);
  }

  lemma FreshName(a: seq<Item>, i: nat, top: nat)
    requires i < top <= |a| && DistinctNames(a)
    ensures a[i].name !in Names(a[top..])
  {}

  lemma KeptIsLongest(a: seq<Item>, top: nat, kept: nat, keep: int, maxBytes: int)
    requires |a| > 0 && top == (if 0 < keep < |a| then keep else |a|)
    requires 1 <= kept <= top
    requires if maxBytes > 0 && top > 1 then kept == 1 || Total(a[..kept]) <= maxBytes else kept == top
    requires maxBytes > 0 && top > 1 ==> forall j :: kept < j <= top ==> Total(a[..j]) > maxBytes
    ensures IsLongest(a, kept, keep, maxBytes)
  {}

  /**
   The archive a destroy has just written survives the prune that follows it exactly when the two
   limits leave its rank; being the newest is enough.
   */
  lemma NewestSurvives(a: seq<Item>, kept: nat, keep: int, maxBytes: int, mine: nat)
    requires IsLongest(a, kept, keep, maxBytes) && mine < |a|
    ensures mine < kept <==> mine == 0 || Fits(a, mine + 1, keep, maxBytes)
  {
    if mine < kept && mine > 0 {
      TotalMonotone(a, mine + 1, kept);
    }
  }

  lemma RankingDistinct(a: seq<Item>, files: map<string, Entry>)
    requires Ranking(a, files)
    ensures DistinctNames(a)
  {
    forall i, j | 0 <= i < j < |a| ensures a[i].name != a[j].name {
      NewerIrreflexive(a[i]);
      assert a[i] in Items(files) && a[j] in Items(files);
    }
  }

  lemma SurvivorsRanked(files: map<string, Entry>, files': map<string, Entry>, a: seq<Item>, kept: nat)
    requires Ranking(a, files) && kept <= |a|
    requires forall n :: n in files' <==> n in files && n !in Names(a[kept..])
    requires forall n :: n in files' ==> files'[n] == files[n]
    ensures Ranking(a[..kept], files')
  {
    RankingDistinct(a, files);
    forall x | x in a[..kept] ensures x in Items(files') {
      var i :| 0 <= i < kept && a[i] == x;
      FreshName(a, i, kept);
      assert x in a && x in Items(files);
    }
    forall k | kept <= k < |a| ensures a[k].name in Names(a[kept..]) {
      assert a[k] == a[kept..][k - kept];
    }
    forall x | x in Items(files') ensures x in a[..kept] {
      assert x in Items(files) && x in a;
      var i :| 0 <= i < |a| && a[i] == x;
    }
  }

  /** The directory's names in whatever order the host lists them. */
  method ReadDir(dir: ArchiveDir) returns (order: seq<string>)
    ensures Listing(order, dir.files)
  {
    order := [];
    var todo := dir.files.Keys;
    while todo != {}
      invariant todo <= dir.files.Keys
      invariant forall n :: n in order <==> n in dir.files && n !in todo
      invariant forall i, j :: 0 <= i < j < |order| ==> order[i] != order[j]
      decreases |todo|
    {
      var n :| n in todo;
      todo := todo - {n};
      order := order + [n];
    }
  }

  /** Two prunes in a row, in any two directory orders: the second removes nothing. */
  method PruneTwice(d: ArchiveDir, first: seq<string>, keep: int, maxBytes: int) returns (again: seq<string>)
    requires Listing(first, d.files) && (keep > 0 || maxBytes > 0)
    modifies d
    ensures again == []
  {
    var all := (n: string) => true;
    ghost var before := d.files;
    var removed, ranking, kept := d.Prune(first, keep, maxBytes, all);
    SurvivorsRanked(before, d.files, ranking, kept);
    var second := ReadDir(d);
    ghost var ranking2, kept2;
    label L:
    again, ranking2, kept2 := d.Prune(second, keep, maxBytes, all);
    RankingUnique(ranking2, ranking[..kept]);
    PruneStable(ranking, kept, kept2, keep, maxBytes);
  }
}
