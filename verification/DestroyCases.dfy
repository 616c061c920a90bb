/**
 Two destroys on a concrete host where the outcome is not what the comments in
 internal/agent/manager_destroy.go promise. The exact conditions are in Lifecycle.
 */
module DestroyCases {
  import opened PortPool
  import opened Records
  import opened Reap
  import opened Archive
  import opened Lifecycle

  /** A host whose processes are gone at the first look and whose clocks tick once per poll. */
  function QuietHost(homeNonEmpty: bool, archive: ArchiveHost, first: Userdel, second: Userdel): (h: DestroyHost)
    ensures h.Valid() && GateOpens(false, h)
  {
    var kills := KillHost(0, n => n * POLL, n => Seen([]), n => n * POLL, n => Seen([]));
    assert forall n: nat :: n >= 1 ==> Slept(kills.termClock, n) && Slept(kills.killClock, n);
    DestroyHost(true, Owns([]), kills, Owns([]), homeNonEmpty, archive, true, n => true, first, None, kills, second, 0, true, true)
  }

  const NO_ARCHIVE := ArchiveHost(true, "", 0, TarFailed(false), false, 0, true)

  /**
   The first userdel drops the user record and fails on the busy home, the retry answers that the
   user does not exist: the user is gone, the status says userdel_failed, and the agent is forgotten,
   so that no reaper looks for what is left of its home.
   */
  method GoneYetFailed() returns (m: AgentManager, status: Status)
    ensures status == UserdelFailed
    ensures "a" !in m.host.users && "a" in m.host.homes
    ensures "a" !in m.tracker.agents && "a" !in m.LiveRecords()
  {
    var tracker := new Tracker(1);
    var _ := tracker.Register("a", AgentRecord(Running, 0, 0));
    var store := new Store(false, map["a" := Record(0, 0, None)], {});
    var dir := new ArchiveDir();
    var host := new HostUsers({"a"}, {"a"});
    m := new AgentManager(tracker, null, store, dir, host, false, 0, 0);
    var h := QuietHost(true, NO_ARCHIVE, Busy(true), Absent);
    assert ValidId("a");
    var trace;
    ghost var cut;
    status, trace, cut := m.Destroy("a", false, false, h);
  }

  const FRESH := ArchiveHost(true, "a.tar.gz", 50, TarDone(1), true, 1, true)

  const OLDER := map["b.tar.gz" := Entry(false, true, 1, 100, true)]

  lemma FreshRanksSecond(ranking: seq<Item>, k: nat)
    requires Ranking(ranking, WithArchive(OLDER, FRESH)) && k < |ranking| && ranking[k].name == "a.tar.gz"
    ensures k > 0
  {
    var b := Item("b.tar.gz", 1, 100);
    assert HasSuffix("b.tar.gz");
    assert b in Items(WithArchive(OLDER, FRESH)) && b in ranking;
    assert ranking[k] in Items(WithArchive(OLDER, FRESH));
    var j :| 0 <= j < |ranking| && ranking[j] == b;
    assert "a.tar.gz" != "b.tar.gz";
  }

  lemma FreshNotSpared()
    ensures HasSuffix("a.tar.gz") && !Spared(OLDER, FRESH, 1, 0)
  {
    forall ranking: seq<Item>, k: nat
      | Ranking(ranking, WithArchive(OLDER, FRESH)) && k < |ranking| && ranking[k].name == FRESH.name
      ensures !RankKept(ranking, k, 1, 0)
    {
      FreshRanksSecond(ranking, k);
    }
  }

  /**
   With one archive kept and one on file whose time stamp is later, the archive just verified is
   pruned before userdel runs: the home is deleted and no copy of it is left.
   */
  method PrunedBeforeDelete() returns (m: AgentManager, status: Status, trace: seq<Event>)
    ensures status == Destroyed && ArchivedBeforeUserdel(trace)
    ensures "a" !in m.host.users && "a" !in m.host.homes
    ensures "a.tar.gz" !in m.dir.files
  {
    var tracker := new Tracker(1);
    var dir := new ArchiveDir();
    dir.files := OLDER;
    var host := new HostUsers({"a"}, {"a"});
    m := new AgentManager(tracker, null, null, dir, host, true, 1, 0);
    var h := QuietHost(true, FRESH, Removed, Removed);
    assert ValidId("a");
    FreshNotSpared();
    ghost var cut;
    status, trace, cut := m.Destroy("a", false, false, h);
  }
}
