/**
 Orphaned uids (internal/agent/orphan_uid.go): the probe that reads the process
 table once per agent, the batch that reads it once for all, and the exact
 condition under which the two agree.
 */
module OrphanUid {
  import opened PortPool
  import opened Lifecycle

  const MAX_PROC_SCAN := 4096

  /** A field of a Uid line: a 32-bit number or something that does not parse. */
  datatype Field = Num(value: u32) | Junk

  datatype Line = UidLine(fields: seq<Field>) | OtherLine

  /** An entry of the process table; pid is None for names that are no number, status for unreadable files. */
  datatype Entry = Entry(isDir: bool, pid: Option<int>, status: Option<seq<Line>>, cmd: string) {
    predicate IsPid() {
      isDir && pid.Some?
    }

    predicate Readable() {
      IsPid() && status.Some?
    }
  }

  /** A process whose status could be read. */
  datatype Seen = Seen(pid: int, lines: seq<Line>, cmd: string) {
    function Process(): UserProcess {
      UserProcess(pid, cmd)
    }
  }

  datatype UserProcess = UserProcess(pid: int, cmd: string)

  // ---- one status file ----

  /** The fields of the first Uid line. */
  function FirstUid(lines: seq<Line>): Option<seq<Field>> {
    if lines == [] then None
    else if lines[0].UidLine? then Some(lines[0].fields)
    else FirstUid(lines[1..])
  }

  /** The real or saved-set uid of a complete Uid line. */
  predicate Owned(lines: seq<Line>, uid: u32) {
    var f := FirstUid(lines);
    f.Some? && |f.value| >= 3 && (f.value[0] == Num(uid) || f.value[2] == Num(uid))
  }

  /** A Uid line with one or two fields that starts with this uid. */
  predicate ShortFor(lines: seq<Line>, uid: u32) {
    var f := FirstUid(lines);
    f.Some? && 0 < |f.value| < 3 && f.value[0] == Num(uid)
  }

  /** statusFileOwnedByUID. */
  method StatusFileOwnedByUID(lines: seq<Line>, uid: u32) returns (owned: bool)
    ensures owned <==> Owned(lines, uid)
  {
    var i := 0;
    while i < |lines|
      invariant 0 <= i <= |lines|
      invariant FirstUid(lines[i..]) == FirstUid(lines)
    {
      if lines[i].UidLine? {
        var f := lines[i].fields;
        return |f| >= 3 && (f[0] == Num(uid) || f[2] == Num(uid));
      }
      i := i + 1;
    }
    owned := false;
  }

  function Parsed(f: seq<Field>, i: nat): seq<u32> {
    if i < |f| && f[i].Num? then [f[i].value] else []
  }

  /** statusOwnerUIDs: the distinct parseable real and saved-set uids, however short the line. */
  method StatusOwnerUIDs(lines: seq<Line>) returns (uids: seq<u32>)
    ensures forall u :: u in uids <==> Owned(lines, u) || ShortFor(lines, u)
    ensures forall i, j :: 0 <= i < j < |uids| ==> uids[i] != uids[j]
  {
    uids := [];
    var i := 0;
    while i < |lines|
      invariant 0 <= i <= |lines| && uids == []
      invariant FirstUid(lines[i..]) == FirstUid(lines)
    {
      if lines[i].UidLine? {
        var f := lines[i].fields;
        uids := Parsed(f, 0);
        if 2 < |f| && f[2].Num? && f[2].value !in uids {
          uids := uids + [f[2].value];
        }
        return;
      }
      i := i + 1;
    }
  }

  // ---- one sweep of the process table ----

  function SeenAt(e: Entry): Seen
    requires e.Readable()
  {
    Seen(e.pid.value, e.status.value, e.cmd)
  }

  /** The readable pid entries among the next budget pid entries, from entry i on. */
  function VisibleFrom(entries: seq<Entry>, i: nat, budget: nat): seq<Seen>
    decreases |entries| - i
  {
    if i >= |entries| then []
    else if !entries[i].IsPid() then VisibleFrom(entries, i + 1, budget)
    else if budget == 0 then []
    else if !entries[i].Readable() then VisibleFrom(entries, i + 1, budget - 1)
    else [SeenAt(entries[i])] + VisibleFrom(entries, i + 1, budget - 1)
  }

  function Visible(entries: seq<Entry>): seq<Seen> {
    VisibleFrom(entries, 0, MAX_PROC_SCAN)
  }

  /** The processes the single-agent probe attributes to uid. */
  function OwnedBy(vis: seq<Seen>, uid: u32): seq<UserProcess> {
    if vis == [] then []
    else (if Owned(vis[0].lines, uid) then [vis[0].Process()] else []) + OwnedBy(vis[1..], uid)
  }

  /** The processes the grouped sweep files under uid. */
  function FiledUnder(vis: seq<Seen>, uid: u32): seq<UserProcess> {
    if vis == [] then []
    else
      var s := vis[0].lines;
      (if Owned(s, uid) || ShortFor(s, uid) then [vis[0].Process()] else []) + FiledUnder(vis[1..], uid)
  }

  ghost predicate HasShort(vis: seq<Seen>, uid: u32) {
    exists k :: 0 <= k < |vis| && ShortFor(vis[k].lines, uid)
  }

  /** The two attributions agree exactly when no visible process has a short line for the uid. */
  lemma {:induction false} FiledExactly(vis: seq<Seen>, uid: u32)
    ensures |OwnedBy(vis, uid)| <= |FiledUnder(vis, uid)|
    ensures HasShort(vis, uid) ==> |OwnedBy(vis, uid)| < |FiledUnder(vis, uid)|
    ensures !HasShort(vis, uid) ==> OwnedBy(vis, uid) == FiledUnder(vis, uid)
  {
    if vis != [] {
      FiledExactly(vis[1..], uid);
      if HasShort(vis[1..], uid) {
        var k :| 0 <= k < |vis[1..]| && ShortFor(vis[1..][k].lines, uid);
        assert ShortFor(vis[k + 1].lines, uid);
      } else if HasShort(vis, uid) {
        var k :| 0 <= k < |vis| && ShortFor(vis[k].lines, uid);
        assert k > 0 ==> ShortFor(vis[1..][k - 1].lines, uid);
      } else {
        assert !ShortFor(vis[0].lines, uid);
      }
    }
  }

  // ---- sorting by pid ----

  function InsertByPid(p: UserProcess, s: seq<UserProcess>): (r: seq<UserProcess>)
    ensures |r| == |s| + 1
    ensures forall x :: x in r <==> x == p || x in s
  {
    if s == [] || p.pid <= s[0].pid then [p] + s else [s[0]] + InsertByPid(p, s[1..])
  }

  function SortByPid(s: seq<UserProcess>): (r: seq<UserProcess>)
    ensures |r| == |s|
    ensures forall x :: x in r <==> x in s
  {
    if s == [] then [] else InsertByPid(s[0], SortByPid(s[1..]))
  }

  predicate Ascending(s: seq<UserProcess>) {
    forall i, j :: 0 <= i < j < |s| ==> s[i].pid <= s[j].pid
  }

  lemma {:induction false} InsertAscending(p: UserProcess, s: seq<UserProcess>)
    requires Ascending(s)
    ensures Ascending(InsertByPid(p, s))
  {
    if s != [] && p.pid > s[0].pid {
      InsertAscending(p, s[1..]);
      var r := InsertByPid(p, s[1..]);
      assert forall x :: x in r ==> s[0].pid <= x.pid;
      assert forall j :: 0 <= j < |r| ==> r[j] in r;
    }
  }

  lemma {:induction false} SortAscending(s: seq<UserProcess>)
    ensures Ascending(SortByPid(s))
  {
    if s != [] {
      SortAscending(s[1..]);
      InsertAscending(s[0], SortByPid(s[1..]));
    }
  }

  // ---- the two listings ----

  /** What is collected so far and what the rest of the table will add make up the whole. */
  ghost predicate OwnedLeft(acc: seq<UserProcess>, rest: seq<Seen>, uid: u32, all: seq<UserProcess>) {
    acc + OwnedBy(rest, uid) == all
  }

  /** listUserProcesses over one snapshot. */
  method ListUserProcesses(entries: seq<Entry>, uid: u32) returns (procs: seq<UserProcess>)
    ensures procs == SortByPid(OwnedBy(Visible(entries), uid))
  {
    var acc: seq<UserProcess> := [];
    var scanned, i, done := 0, 0, false;
    ghost var all := OwnedBy(Visible(entries), uid);
    while i < |entries| && !done
      invariant 0 <= i <= |entries| && 0 <= scanned <= MAX_PROC_SCAN
      invariant OwnedLeft(acc, if done then [] else VisibleFrom(entries, i, MAX_PROC_SCAN - scanned), uid, all)
    {
      var e := entries[i];
      if e.IsPid() {
        done := scanned == MAX_PROC_SCAN;
        if !done {
          scanned := scanned + 1;
          if e.Readable() {
            var owned := StatusFileOwnedByUID(e.status.value, uid);
            OwnedStep(acc, SeenAt(e), VisibleFrom(entries, i + 1, MAX_PROC_SCAN - scanned), uid, all);
            acc := if owned then acc + [SeenAt(e).Process()] else acc;
          }
        }
      }
      i := i + 1;
    }
    assert acc + [] == acc;
    procs := SortByPid(acc);
  }

  lemma OwnedStep(acc: seq<UserProcess>, e: Seen, rest: seq<Seen>, uid: u32, all: seq<UserProcess>)
    requires OwnedLeft(acc, [e] + rest, uid, all)
    ensures OwnedLeft(if Owned(e.lines, uid) then acc + [e.Process()] else acc, rest, uid, all)
  {}

  function Under(m: map<u32, seq<UserProcess>>, uid: u32): seq<UserProcess> {
    if uid in m then m[uid] else []
  }

  method FileUnder(m: map<u32, seq<UserProcess>>, uids: seq<u32>, p: UserProcess) returns (m': map<u32, seq<UserProcess>>)
    requires forall i, j :: 0 <= i < j < |uids| ==> uids[i] != uids[j]
    ensures forall u :: Under(m', u) == if u in uids then Under(m, u) + [p] else Under(m, u)
  {
    m' := m;
    var i := 0;
    while i < |uids|
      invariant 0 <= i <= |uids|
      invariant forall u :: Under(m', u) == if u in uids[..i] then Under(m, u) + [p] else Under(m, u)
    {
      assert uids[i] !in uids[..i] && uids[..i + 1] == uids[..i] + [uids[i]];
      m' := m'[uids[i] := Under(m', uids[i]) + [p]];
      i := i + 1;
    }
    assert uids[..i] == uids;
  }

  /** The directory walk of the grouped listing. */
  method Collect(entries: seq<Entry>) returns (acc: map<u32, seq<UserProcess>>)
    ensures Remaining(acc, [], Visible(entries))
  {
    acc := map[];
    var scanned, i, done := 0, 0, false;
    ghost var all := Visible(entries);
    while i < |entries| && !done
      invariant 0 <= i <= |entries| && 0 <= scanned <= MAX_PROC_SCAN
      invariant Remaining(acc, if done then [] else VisibleFrom(entries, i, MAX_PROC_SCAN - scanned), all)
      decreases |entries| - i, !done
    {
      var e := entries[i];
      if e.IsPid() {
        done := scanned == MAX_PROC_SCAN;
        if !done {
          scanned := scanned + 1;
          if e.Readable() {
            acc := FileEntry(acc, SeenAt(e), VisibleFrom(entries, i + 1, MAX_PROC_SCAN - scanned), all);
          }
        }
      }
      i := i + 1;
    }
  }

  /** listUserProcessesByUID over one snapshot. */
  method ListUserProcessesByUID(entries: seq<Entry>) returns (out: map<u32, seq<UserProcess>>)
    ensures forall u :: Under(out, u) == SortByPid(FiledUnder(Visible(entries), u))
  {
    var acc := Collect(entries);
    out := SortEach(acc);
    SortedGroups(acc, Visible(entries));
  }

  function SortEach(m: map<u32, seq<UserProcess>>): map<u32, seq<UserProcess>> {
    map u | u in m :: SortByPid(m[u])
  }

  lemma SortedGroups(acc: map<u32, seq<UserProcess>>, all: seq<Seen>)
    requires Remaining(acc, [], all)
    ensures forall u :: Under(SortEach(acc), u) == SortByPid(FiledUnder(all, u))
  {
    forall u: u32 ensures Under(SortEach(acc), u) == SortByPid(FiledUnder(all, u)) {
      assert RemainingAt(acc, [], all, u);
      assert Under(acc, u) + [] == Under(acc, u);
    }
  }

  /** m' is m with e's process filed once under each of its owner uids. */
  ghost predicate Filed(m: map<u32, seq<UserProcess>>, m': map<u32, seq<UserProcess>>, e: Seen) {
    forall u :: Under(m', u) ==
      if Owned(e.lines, u) || ShortFor(e.lines, u) then Under(m, u) + [e.Process()] else Under(m, u)
  }

  method FileEntry(m: map<u32, seq<UserProcess>>, e: Seen, ghost rest: seq<Seen>, ghost all: seq<Seen>)
    returns (m': map<u32, seq<UserProcess>>)
    requires Remaining(m, [e] + rest, all)
    ensures Remaining(m', rest, all)
  {
    var uids := StatusOwnerUIDs(e.lines);
    m' := FileUnder(m, uids, e.Process());
    RemainingStep(m, m', e, rest, all);
  }

  /** What is filed so far and what the rest of the table will add make up the whole. */
  ghost predicate Remaining(acc: map<u32, seq<UserProcess>>, rest: seq<Seen>, all: seq<Seen>) {
    forall u: u32 :: RemainingAt(acc, rest, all, u)
  }

  ghost predicate RemainingAt(acc: map<u32, seq<UserProcess>>, rest: seq<Seen>, all: seq<Seen>, u: u32) {
    Under(acc, u) + FiledUnder(rest, u) == FiledUnder(all, u)
  }

  lemma RemainingStep(was: map<u32, seq<UserProcess>>, acc: map<u32, seq<UserProcess>>, e: Seen,
                      rest: seq<Seen>, all: seq<Seen>)
    requires Remaining(was, [e] + rest, all) && Filed(was, acc, e)
    ensures Remaining(acc, rest, all)
  {
    assert ([e] + rest)[1..] == rest;
    forall u: u32 ensures RemainingAt(acc, rest, all, u) {
      assert RemainingAt(was, [e] + rest, all, u);
    }
  }

  // ---- the classification of one agent ----

  /** What the user database and the agent's home say; uid is only asked for when the user exists. */
  datatype Lookup = Lookup(userExists: bool, uid: Option<u32>, homeOwner: Option<u32>)

  datatype ProbeErr = NoError | UidUnknown | ListFailed

  datatype Check = Check(uid: u32, uidKnown: bool, userExists: bool, processes: seq<UserProcess>, err: ProbeErr) {
    predicate IsOrphan() {
      uidKnown && !userExists && |processes| > 0
    }
  }

  /** resolveOrphanUIDMetadata. */
  function Resolve(l: Lookup): Check {
    if l.userExists && l.uid.Some? then Check(l.uid.value, true, true, [], NoError)
    else if l.homeOwner.Some? then Check(l.homeOwner.value, true, l.userExists, [], NoError)
    else Check(0, false, l.userExists, [], UidUnknown)
  }

  /** What one sweep of a listable table shows. */
  function Sweep(table: Option<seq<Entry>>): seq<Seen> {
    if table.Some? then Visible(table.value) else []
  }

  /** A check completed with the processes found under its uid, or failed with the listing. */
  function Complete(c: Check, listed: bool, procs: seq<UserProcess>): Check {
    if !c.uidKnown then c
    else if !listed then c.(err := ListFailed)
    else c.(processes := SortByPid(procs))
  }

  function Single(l: Lookup, table: Option<seq<Entry>>): Check {
    Complete(Resolve(l), table.Some?, OwnedBy(Sweep(table), Resolve(l).uid))
  }

  function Batched(l: Lookup, table: Option<seq<Entry>>): Check {
    Complete(Resolve(l), table.Some?, FiledUnder(Sweep(table), Resolve(l).uid))
  }

  lemma {:induction false} SomeOwned(vis: seq<Seen>, uid: u32)
    ensures |OwnedBy(vis, uid)| > 0 <==> exists k :: 0 <= k < |vis| && Owned(vis[k].lines, uid)
  {
    if vis != [] {
      SomeOwned(vis[1..], uid);
      assert forall k :: 0 < k < |vis| ==> vis[k] == vis[1..][k - 1];
      if k :| 0 <= k < |vis[1..]| && Owned(vis[1..][k].lines, uid) {
        assert Owned(vis[k + 1].lines, uid);
      }
    }
  }

  /**
   The single probe calls an agent orphaned exactly on full evidence: no user record, an owner to be read
   from its home, a table that can be listed, and a visible process that owner owns. Anything unknown is not.
   */
  lemma OrphanExactly(l: Lookup, table: Option<seq<Entry>>)
    ensures Single(l, table).IsOrphan() <==>
            && !l.userExists && l.homeOwner.Some? && table.Some?
            && exists k :: 0 <= k < |Sweep(table)| && Owned(Sweep(table)[k].lines, l.homeOwner.value)
    ensures !Resolve(l).uidKnown || table.None? ==> Single(l, table).err != NoError
  {
    if l.homeOwner.Some? {
      SomeOwned(Sweep(table), l.homeOwner.value);
    }
  }

  /** Some visible process has a short Uid line for the agent's uid. */
  ghost predicate ShortLine(l: Lookup, table: Option<seq<Entry>>) {
    Resolve(l).uidKnown && table.Some? && HasShort(Sweep(table), Resolve(l).uid)
  }

  /** The batch and the single probe agree on an agent exactly when no such line is visible. */
  lemma BatchAgreesExactly(l: Lookup, table: Option<seq<Entry>>)
    ensures Batched(l, table) == Single(l, table) <==> !ShortLine(l, table)
  {
    FiledExactly(Sweep(table), Resolve(l).uid);
  }

  /** The verdicts agree as well, and can differ only for a user that is gone. */
  lemma SummaryAgreesExactly(id: Id, l: Lookup, table: Option<seq<Entry>>)
    ensures Summary(id, Batched(l, table)) == Summary(id, Single(l, table)) <==>
            !(ValidId(id) && !l.userExists && ShortLine(l, table))
  {
    FiledExactly(Sweep(table), Resolve(l).uid);
  }

  /** A table of one visible process, and what each attribution makes of it. */
  lemma OneProcess(e: Entry, uid: u32)
    requires e.IsPid() && e.Readable()
    ensures var vis := Sweep(Some([e]));
            && OwnedBy(vis, uid) == (if Owned(SeenAt(e).lines, uid) then [SeenAt(e).Process()] else [])
            && FiledUnder(vis, uid) ==
                 (if Owned(SeenAt(e).lines, uid) || ShortFor(SeenAt(e).lines, uid) then [SeenAt(e).Process()] else [])
  {
    var v := SeenAt(e);
    assert Visible([e]) == [v] + VisibleFrom([e], 1, MAX_PROC_SCAN - 1) == [v] + [] == [v];
    assert [v][1..] == [] && OwnedBy([], uid) == [] == FiledUnder([], uid);
  }

  /** One process with a one-field Uid line, unseen by the probe and reported by the batch. */
  lemma ShortLineSplitsTheVerdicts()
    ensures var table := Some([Entry(true, Some(7), Some([UidLine([Num(1000)])]), "sh")]);
            var l := Lookup(false, None, Some(1000));
            Summary("a", Single(l, table)) == None && Summary("a", Batched(l, table)) == Some(Orphan("a", 1000, [UserProcess(7, "sh")]))
  {
    var e, p := Entry(true, Some(7), Some([UidLine([Num(1000)])]), "sh"), UserProcess(7, "sh");
    OneProcess(e, 1000);
    assert [p][1..] == [] && SortByPid([p]) == [p];
    assert ValidId("a");
  }

  /** checkOrphanUID. */
  method CheckOrphanUID(l: Lookup, table: Option<seq<Entry>>) returns (c: Check)
    ensures c == Single(l, table)
  {
    c := Resolve(l);
    if c.err != NoError {
      return;
    }
    if table.None? {
      return c.(err := ListFailed);
    }
    var procs := ListUserProcesses(table.value, c.uid);
    c := c.(processes := procs);
  }

  // ---- the batch ----

  /** uid -> indexes of the agents that carry it. */
  ghost predicate Indexed(byUid: map<u32, seq<nat>>, checks: seq<Check>) {
    && (forall u :: u in byUid ==> forall k :: k in byUid[u] ==> k < |checks| && checks[k].uidKnown && checks[k].uid == u)
    && (forall i :: 0 <= i < |checks| && checks[i].uidKnown ==> checks[i].uid in byUid && i in byUid[checks[i].uid])
  }

  function IndexesOf(byUid: map<u32, seq<nat>>, u: u32): seq<nat> {
    if u in byUid then byUid[u] else []
  }

  lemma IndexedStep(byUid: map<u32, seq<nat>>, checks: seq<Check>, c: Check)
    requires Indexed(byUid, checks)
    ensures Indexed(if c.uidKnown then byUid[c.uid := IndexesOf(byUid, c.uid) + [|checks|]] else byUid, checks + [c])
  {}

  method ResolveAll(lookups: seq<Lookup>) returns (checks: seq<Check>, byUid: map<u32, seq<nat>>)
    ensures |checks| == |lookups| && forall i :: 0 <= i < |checks| ==> checks[i] == Resolve(lookups[i])
    ensures Indexed(byUid, checks)
  {
    checks, byUid := [], map[];
    for i := 0 to |lookups|
      invariant |checks| == i && forall k :: 0 <= k < i ==> checks[k] == Resolve(lookups[k])
      invariant Indexed(byUid, checks)
    {
      var c := Resolve(lookups[i]);
      IndexedStep(byUid, checks, c);
      if c.uidKnown {
        byUid := byUid[c.uid := IndexesOf(byUid, c.uid) + [i]];
      }
      checks := checks + [c];
    }
  }

  method MarkFailed(checks: seq<Check>) returns (r: seq<Check>)
    ensures |r| == |checks|
    ensures forall i :: 0 <= i < |r| ==>
              r[i] == if checks[i].uidKnown && checks[i].err == NoError then checks[i].(err := ListFailed) else checks[i]
  {
    r := checks;
    for i := 0 to |checks|
      invariant |r| == |checks|
      invariant forall k :: i <= k < |r| ==> r[k] == checks[k]
      invariant forall k :: 0 <= k < i ==>
                  r[k] == if checks[k].uidKnown && checks[k].err == NoError then checks[k].(err := ListFailed) else checks[k]
    {
      if r[i].uidKnown && r[i].err == NoError {
        r := r[i := r[i].(err := ListFailed)];
      }
    }
  }

  method FillGroup(checks: seq<Check>, idxs: seq<nat>, procs: seq<UserProcess>) returns (r: seq<Check>)
    requires forall k :: k in idxs ==> k < |checks|
    ensures |r| == |checks|
    ensures forall i :: 0 <= i < |r| ==> r[i] == if i in idxs then checks[i].(processes := procs) else checks[i]
  {
    r := checks;
    var j := 0;
    while j < |idxs|
      invariant 0 <= j <= |idxs| && |r| == |checks|
      invariant forall i :: 0 <= i < |r| ==> r[i] == if i in idxs[..j] then checks[i].(processes := procs) else checks[i]
    {
      assert idxs[..j + 1] == idxs[..j] + [idxs[j]] && idxs[j] in idxs;
      r := r[idxs[j] := r[idxs[j]].(processes := procs)];
      j := j + 1;
    }
    assert idxs[..j] == idxs;
  }

  function Filled(c: Check, procsByUid: map<u32, seq<UserProcess>>, todo: set<u32>): Check {
    if c.uidKnown && c.uid !in todo then c.(processes := Under(procsByUid, c.uid)) else c
  }

  /** Every group in turn, in whatever order the map yields them. */
  method FillAll(checks: seq<Check>, byUid: map<u32, seq<nat>>, procsByUid: map<u32, seq<UserProcess>>) returns (r: seq<Check>)
    requires Indexed(byUid, checks)
    ensures |r| == |checks| && forall i :: 0 <= i < |r| ==> r[i] == Filled(checks[i], procsByUid, {})
  {
    r := checks;
    var todo := byUid.Keys;
    while todo != {}
      invariant todo <= byUid.Keys && |r| == |checks|
      invariant forall i :: 0 <= i < |r| ==> r[i] == Filled(checks[i], procsByUid, todo)
      decreases |todo|
    {
      var u :| u in todo;
      r := FillGroup(r, byUid[u], Under(procsByUid, u));
      todo := todo - {u};
    }
  }

  /** checkOrphanUIDBatch: one sweep of the table for the whole list. */
  method CheckOrphanUIDBatch(lookups: seq<Lookup>, table: Option<seq<Entry>>) returns (checks: seq<Check>)
    ensures |checks| == |lookups| && forall i :: 0 <= i < |checks| ==> checks[i] == Batched(lookups[i], table)
  {
    var byUid;
    checks, byUid := ResolveAll(lookups);
    if byUid == map[] {
      return;
    }
    if table.None? {
      checks := MarkFailed(checks);
      return;
    }
    var procsByUid := ListUserProcessesByUID(table.value);
    checks := FillAll(checks, byUid, procsByUid);
  }

  // ---- the verdicts ----

  /** What the one-line verdict names. */
  datatype Orphan = Orphan(id: Id, uid: u32, processes: seq<UserProcess>)

  function Summary(id: Id, c: Check): Option<Orphan> {
    if ValidId(id) && c.IsOrphan() then Some(Orphan(id, c.uid, c.processes)) else None
  }

  /** The verdicts of the batch, put back at the indexes they belong to. */
  method Place(ids: seq<Id>, validIdx: seq<nat>, checks: seq<Check>) returns (out: seq<Option<Orphan>>)
    requires |checks| == |validIdx| && forall j :: 0 <= j < |validIdx| ==> validIdx[j] < |ids| && ValidId(ids[validIdx[j]])
    requires forall j, k :: 0 <= j < k < |validIdx| ==> validIdx[j] < validIdx[k]
    ensures |out| == |ids|
    ensures forall j :: 0 <= j < |checks| ==> out[validIdx[j]] == Summary(ids[validIdx[j]], checks[j])
    ensures forall k :: 0 <= k < |ids| && k !in validIdx ==> out[k] == None
  {
    out := seq(|ids|, _ => None);
    for j := 0 to |checks|
      invariant |out| == |ids|
      invariant forall i :: 0 <= i < j ==> out[validIdx[i]] == Summary(ids[validIdx[i]], checks[i])
      invariant forall k :: 0 <= k < |ids| && k !in validIdx[..j] ==> out[k] == None
    {
      assert validIdx[..j + 1] == validIdx[..j] + [validIdx[j]];
      if checks[j].IsOrphan() {
        out := out[validIdx[j] := Some(Orphan(ids[validIdx[j]], checks[j].uid, checks[j].processes))];
      }
    }
    assert validIdx[..|checks|] == validIdx;
  }

  /** OrphanUIDSummaries: invalid ids stay out of the batch, order and length are the input's. */
  method OrphanUIDSummaries(ids: seq<Id>, lookup: Id -> Lookup, table: Option<seq<Entry>>) returns (out: seq<Option<Orphan>>)
    ensures |out| == |ids|
    ensures forall i :: 0 <= i < |ids| ==> out[i] == Summary(ids[i], Batched(lookup(ids[i]), table))
  {
    var valid: seq<Lookup>, validIdx: seq<nat> := [], [];
    for i := 0 to |ids|
      invariant |valid| == |validIdx|
      invariant forall j :: 0 <= j < |validIdx| ==> validIdx[j] < i && ValidId(ids[validIdx[j]]) && valid[j] == lookup(ids[validIdx[j]])
      invariant forall j, k :: 0 <= j < k < |validIdx| ==> validIdx[j] < validIdx[k]
      invariant forall k :: 0 <= k < i && ValidId(ids[k]) ==> k in validIdx
    {
      if ValidId(ids[i]) {
        valid, validIdx := valid + [lookup(ids[i])], validIdx + [i];
      }
    }
    var checks := CheckOrphanUIDBatch(valid, table);
    out := Place(ids, validIdx, checks);
    forall k | 0 <= k < |ids| ensures out[k] == Summary(ids[k], Batched(lookup(ids[k]), table)) {
      if ValidId(ids[k]) {
        var j :| 0 <= j < |validIdx| && validIdx[j] == k;
        assert out[validIdx[j]] == Summary(ids[k], checks[j]);
      }
    }
  }

  /** OrphanUIDSummary. */
  method OrphanUIDSummary(id: Id, l: Lookup, table: Option<seq<Entry>>) returns (r: Option<Orphan>)
    ensures r == Summary(id, Single(l, table))
  {
    if !ValidId(id) {
      return None;
    }
    var c := CheckOrphanUID(l, table);
    r := if c.IsOrphan() then Some(Orphan(id, c.uid, c.processes)) else None;
  }
}
