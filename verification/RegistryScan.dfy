/**
 The record an orphan left in the durable registry (internal/agent/registry.go):
 a last-wins scan over the rotated files and the active one, against the order
 in which the events were written.
 */
module RegistryScan {
  import opened PortPool

  /** What an event says; Other covers heartbeats and refusals. */
  datatype Kind = Spawn(start: u32, end: u32) | Destroy | Other

  /** One line of a log file: unparseable, or an event whose kind may be missing. */
  datatype Line = Damaged | Event(id: Id, kind: Option<Kind>)

  predicate Mentions(l: Line, id: Id) {
    l.Event? && l.id == id && l.kind.Some?
  }

  /** The last well-formed event for id in one file. */
  function LastIn(lines: seq<Line>, id: Id): Option<Kind> {
    if lines == [] then None
    else if Mentions(lines[|lines| - 1], id) then lines[|lines| - 1].kind
    else LastIn(lines[..|lines| - 1], id)
  }

  function Over(before: Option<Kind>, after: Option<Kind>): Option<Kind> {
    if after.Some? then after else before
  }

  /** The last event for id when the files are read in this order. */
  function LastOf(files: seq<seq<Line>>, id: Id): Option<Kind> {
    if files == [] then None else Over(LastOf(files[..|files| - 1], id), LastIn(files[|files| - 1], id))
  }

  /** The line loop, overwriting last. */
  method ScanFile(lines: seq<Line>, id: Id, before: Option<Kind>) returns (last: Option<Kind>)
    ensures last == Over(before, LastIn(lines, id))
  {
    last := before;
    var j := 0;
    while j < |lines|
      invariant 0 <= j <= |lines| && last == Over(before, LastIn(lines[..j], id))
    {
      assert lines[..j + 1][..j] == lines[..j];
      if Mentions(lines[j], id) {
        last := lines[j].kind;
      }
      j := j + 1;
    }
    assert lines[..j] == lines;
  }

  predicate Ascending(s: seq<nat>) {
    forall i, j :: 0 <= i < j < |s| ==> s[i] < s[j]
  }

  function Insert(n: nat, s: seq<nat>): (r: seq<nat>)
    ensures forall x :: x in r <==> x == n || x in s
  {
    if s == [] || n < s[0] then [n] + s else [s[0]] + Insert(n, s[1..])
  }

  lemma {:induction false} InsertAscending(n: nat, s: seq<nat>)
    requires Ascending(s) && n !in s
    ensures Ascending(Insert(n, s))
  {
    if s != [] && n >= s[0] {
      InsertAscending(n, s[1..]);
      var r := Insert(n, s[1..]);
      assert forall x :: x in r ==> s[0] < x;
      assert forall i :: 0 <= i < |r| ==> r[i] in r;
    }
  }

  /** The numbers of the rotated files, sorted. */
  method SortNumbers(nums: set<nat>) returns (s: seq<nat>)
    ensures Ascending(s) && forall n :: n in s <==> n in nums
  {
    s := [];
    var todo := nums;
    while todo != {}
      invariant todo <= nums && Ascending(s) && forall n :: n in s <==> n in nums && n !in todo
      decreases |todo|
    {
      var n :| n in todo;
      InsertAscending(n, s);
      s, todo := Insert(n, s), todo - {n};
    }
  }

  /** The files in the order of these numbers; unreadable ones count as empty. */
  function Contents(rotated: map<nat, seq<Line>>, nums: seq<nat>): seq<seq<Line>>
    requires forall n :: n in nums ==> n in rotated
  {
    seq(|nums|, i requires 0 <= i < |nums| => rotated[nums[i]])
  }

  /** readPersistedAgentRecord: the rotated files in ascending number, then the active one. */
  method ReadPersisted(rotated: map<nat, seq<Line>>, active: seq<Line>, id: Id)
    returns (rec: Option<Range>, nums: seq<nat>)
    ensures Ascending(nums) && (forall n :: n in nums <==> n in rotated)
    ensures rec == Found(LastOf(Contents(rotated, nums) + [active], id))
  {
    nums := SortNumbers(rotated.Keys);
    var files := Contents(rotated, nums) + [active];
    var last: Option<Kind> := None;
    var i := 0;
    while i < |files|
      invariant 0 <= i <= |files| && last == LastOf(files[..i], id)
    {
      assert files[..i + 1][..i] == files[..i];
      last := ScanFile(files[i], id, last);
      i := i + 1;
    }
    assert files[..i] == files;
    rec := Found(last);
  }

  /** Only a spawn as the last word yields a record. */
  function Found(last: Option<Kind>): Option<Range> {
    if last.Some? && last.value.Spawn? then Some(Range(last.value.start, last.value.end)) else None
  }

  // ---- the order of writing ----

  function Reversed(s: seq<seq<Line>>): seq<seq<Line>> {
    if s == [] then [] else [s[|s| - 1]] + Reversed(s[..|s| - 1])
  }

  /** Rotation renames .1 to .2 and the active file to .1, so a higher number is older. */
  function Written(rotated: seq<seq<Line>>, active: seq<Line>): seq<seq<Line>> {
    Reversed(rotated) + [active]
  }

  /** rotated[k] is the first, respectively the last, of the files that mentions id. */
  ghost predicate FirstMention(rotated: seq<seq<Line>>, id: Id, k: nat) {
    k < |rotated| && LastIn(rotated[k], id).Some? && forall i :: 0 <= i < k ==> LastIn(rotated[i], id).None?
  }

  ghost predicate LastMention(rotated: seq<seq<Line>>, id: Id, k: nat) {
    k < |rotated| && LastIn(rotated[k], id).Some? && forall i :: k < i < |rotated| ==> LastIn(rotated[i], id).None?
  }

  ghost predicate NoMention(rotated: seq<seq<Line>>, id: Id) {
    forall i :: 0 <= i < |rotated| ==> LastIn(rotated[i], id).None?
  }

  lemma {:induction false} LastOfForward(rotated: seq<seq<Line>>, id: Id)
    ensures NoMention(rotated, id) ==> LastOf(rotated, id).None?
    ensures forall k: nat :: LastMention(rotated, id, k) ==> LastOf(rotated, id) == LastIn(rotated[k], id)
  {
    if rotated != [] {
      var n := |rotated| - 1;
      LastOfForward(rotated[..n], id);
      forall k: nat | LastMention(rotated, id, k) ensures LastOf(rotated, id) == LastIn(rotated[k], id) {
        if k < n {
          assert LastMention(rotated[..n], id, k);
        }
      }
    }
  }

  lemma {:induction false} LastOfAppend(a: seq<seq<Line>>, b: seq<seq<Line>>, id: Id)
    ensures LastOf(a + b, id) == Over(LastOf(a, id), LastOf(b, id))
  {
    if b == [] {
      assert a + b == a;
    } else {
      LastOfAppend(a, b[..|b| - 1], id);
      assert (a + b)[..|a + b| - 1] == a + b[..|b| - 1];
    }
  }

  lemma {:induction false} LastOfBackward(rotated: seq<seq<Line>>, id: Id)
    ensures NoMention(rotated, id) ==> LastOf(Reversed(rotated), id).None?
    ensures forall k: nat :: FirstMention(rotated, id, k) ==> LastOf(Reversed(rotated), id) == LastIn(rotated[k], id)
  {
    if rotated != [] {
      var n := |rotated| - 1;
      LastOfBackward(rotated[..n], id);
      LastOfAppend([rotated[n]], Reversed(rotated[..n]), id);
      assert LastOf([rotated[n]], id) == LastIn(rotated[n], id) by {
        assert [rotated[n]][..0] == [];
      }
      forall k: nat | FirstMention(rotated, id, k) ensures LastOf(Reversed(rotated), id) == LastIn(rotated[k], id) {
        if k < n {
          assert FirstMention(rotated[..n], id, k);
        } else {
          assert NoMention(rotated[..n], id);
        }
      }
    }
  }

  lemma LastOfWithActive(files: seq<seq<Line>>, active: seq<Line>, id: Id)
    ensures LastOf(files + [active], id) == Over(LastOf(files, id), LastIn(active, id))
  {}

  /** The scan's answer is the latest event exactly when the active file speaks, or the oldest and newest rotated files that mention the agent say the same. */
  lemma ScanIsLatestExactly(rotated: seq<seq<Line>>, active: seq<Line>, id: Id, newest: nat, oldest: nat)
    requires FirstMention(rotated, id, newest) && LastMention(rotated, id, oldest)
    ensures LastOf(rotated + [active], id) == LastOf(Written(rotated, active), id) <==>
            LastIn(active, id).Some? || LastIn(rotated[newest], id) == LastIn(rotated[oldest], id)
  {
    LastOfForward(rotated, id);
    LastOfBackward(rotated, id);
    LastOfWithActive(rotated, active, id);
    LastOfWithActive(Reversed(rotated), active, id);
  }

  /** With no mention in any rotated file, or in just one, the order cannot matter. */
  lemma ScanIsLatestWhenFew(rotated: seq<seq<Line>>, active: seq<Line>, id: Id)
    requires NoMention(rotated, id) || exists k: nat :: FirstMention(rotated, id, k) && LastMention(rotated, id, k)
    ensures LastOf(rotated + [active], id) == LastOf(Written(rotated, active), id)
  {
    LastOfForward(rotated, id);
    LastOfBackward(rotated, id);
    LastOfWithActive(rotated, active, id);
    LastOfWithActive(Reversed(rotated), active, id);
  }

  /** Spawned in the older file, destroyed in the newer: the scan still finds the spawn. */
  lemma DestroyedYetFound(id: Id, r: Range)
    ensures var older, newer := [Event(id, Some(Spawn(r.start, r.end)))], [Event(id, Some(Destroy))];
            && Found(LastOf([newer, older] + [[]], id)) == Some(r)
            && Found(LastOf(Written([newer, older], []), id)) == None
  {
    var older, newer := [Event(id, Some(Spawn(r.start, r.end)))], [Event(id, Some(Destroy))];
    var rotated := [newer, older];
    assert LastIn(rotated[0], id) == Some(Destroy) && LastIn(rotated[1], id) == Some(Spawn(r.start, r.end));
    assert FirstMention(rotated, id, 0) && LastMention(rotated, id, 1);
    LastOfForward(rotated, id);
    LastOfBackward(rotated, id);
    LastOfWithActive(rotated, [], id);
    LastOfWithActive(Reversed(rotated), [], id);
  }

  // ---- events that are neither spawn nor destroy ----

  /** The last spawn or destroy for id: what a replay of the file leaves. */
  function Folded(lines: seq<Line>, id: Id): Option<Kind> {
    if lines == [] then None
    else
      var l := lines[|lines| - 1];
      if Mentions(l, id) && !l.kind.value.Other? then l.kind else Folded(lines[..|lines| - 1], id)
  }

  /** The same over files in the order they were written: what a replay leaves of the agent. */
  function Replayed(files: seq<seq<Line>>, id: Id): Option<Kind> {
    if files == [] then None else Over(Replayed(files[..|files| - 1], id), Folded(files[|files| - 1], id))
  }

  /** rotated[k] is the newest rotated file with a spawn or destroy for id; k is past the end when none has one. */
  ghost predicate NewestDecisive(rotated: seq<seq<Line>>, id: Id, k: nat) {
    && k <= |rotated| && (k < |rotated| ==> Folded(rotated[k], id).Some?)
    && forall i :: 0 <= i < k ==> Folded(rotated[i], id).None?
  }

  /** rotated[k] is the oldest rotated file that mentions id; k is past the end when none does. */
  ghost predicate OldestMention(rotated: seq<seq<Line>>, id: Id, k: nat) {
    if k < |rotated| then LastMention(rotated, id, k) else k == |rotated| && NoMention(rotated, id)
  }

  function LastAt(rotated: seq<seq<Line>>, id: Id, k: nat): Option<Kind> {
    if k < |rotated| then LastIn(rotated[k], id) else None
  }

  function FoldedAt(rotated: seq<seq<Line>>, id: Id, k: nat): Option<Kind> {
    if k < |rotated| then Folded(rotated[k], id) else None
  }

  lemma {:induction false} ReplayedAppend(a: seq<seq<Line>>, b: seq<seq<Line>>, id: Id)
    ensures Replayed(a + b, id) == Over(Replayed(a, id), Replayed(b, id))
  {
    if b == [] {
      assert a + b == a;
    } else {
      ReplayedAppend(a, b[..|b| - 1], id);
      assert (a + b)[..|a + b| - 1] == a + b[..|b| - 1];
    }
  }

  lemma {:induction false} ReplayedBackward(rotated: seq<seq<Line>>, id: Id, k: nat)
    requires NewestDecisive(rotated, id, k)
    ensures Replayed(Reversed(rotated), id) == FoldedAt(rotated, id, k)
  {
    if rotated != [] {
      var n := |rotated| - 1;
      var j := if k > n then n else k;
      assert NewestDecisive(rotated[..n], id, j);
      ReplayedBackward(rotated[..n], id, j);
      ReplayedAppend([rotated[n]], Reversed(rotated[..n]), id);
      assert [rotated[n]][..0] == [];
    }
  }

  lemma {:induction false} LastDecides(lines: seq<Line>, id: Id)
    ensures LastIn(lines, id).Some? && LastIn(lines, id) != Some(Other) ==> Folded(lines, id) == LastIn(lines, id)
    ensures LastIn(lines, id).None? ==> Folded(lines, id).None?
  {
    if lines != [] && !Mentions(lines[|lines| - 1], id) {
      LastDecides(lines[..|lines| - 1], id);
    }
  }

  /**
   What the scan yields against what a replay keeps, over all files. With a spawn or destroy as the
   active file's last word they agree. With a heartbeat or refusal there, they agree exactly when the
   replay keeps nothing. With no word there, exactly when the last word of the oldest rotated file that
   mentions the agent yields what the newest decisive rotated file leaves.
   */
  lemma RecordIsReplayedExactly(rotated: seq<seq<Line>>, active: seq<Line>, id: Id, newest: nat, oldest: nat)
    requires NewestDecisive(rotated, id, newest) && OldestMention(rotated, id, oldest)
    ensures Found(LastOf(rotated + [active], id)) == Found(Replayed(Written(rotated, active), id)) <==>
            match LastIn(active, id)
            case Some(Other) => Found(Over(FoldedAt(rotated, id, newest), Folded(active, id))) == None
            case Some(_) => true
            case None => Found(LastAt(rotated, id, oldest)) == Found(FoldedAt(rotated, id, newest))
  {
    LastOfForward(rotated, id);
    LastOfWithActive(rotated, active, id);
    ReplayedBackward(rotated, id, newest);
    ReplayedAppend(Reversed(rotated), [active], id);
    assert [active][..0] == [];
    LastDecides(active, id);
  }

  /** Spawned in a rotated file, one heartbeat in the active one: a replay keeps the record, the scan does not find it. */
  lemma HeartbeatHidesSpawn(id: Id, r: Range)
    ensures var rotated, active := [[Event(id, Some(Spawn(r.start, r.end)))]], [Event(id, Some(Other))];
            && Found(LastOf(rotated + [active], id)) == None
            && Found(Replayed(Written(rotated, active), id)) == Some(r)
  {
    var file, active := [Event(id, Some(Spawn(r.start, r.end)))], [Event(id, Some(Other))];
    assert active[..0] == [] && LastIn(active, id) == Some(Other) && Folded(active, id).None?;
    assert LastIn(file, id) == Folded(file, id) == Some(Spawn(r.start, r.end));
    LastOfWithActive([file], active, id);
    assert NewestDecisive([file], id, 0);
    ReplayedBackward([file], id, 0);
    ReplayedAppend(Reversed([file]), [active], id);
    assert [active][..0] == [];
  }
}
