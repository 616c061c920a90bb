/**
 One destroy, from the live-process gate to the registry append
 (internal/agent/manager_destroy.go), over an adversarial host: every answer of
 the process probe, tar, userdel and the registry's log is supplied by the caller.
 */
module Lifecycle {
  import opened PortPool
  import opened Records
  import opened Reap
  import opened Archive

  /** validAgentID: lower-case letters, digits and hyphens, 1 to 63 of them. */
  predicate ValidId(id: Id) {
    && 1 <= |id| <= 63
    && forall i :: 0 <= i < |id| ==> 'a' <= id[i] <= 'z' || '0' <= id[i] <= '9' || id[i] == '-'
  }

  datatype Probe = ProbeFailed | NoUser | Owns(procs: seq<Proc>)

  function ForeignOf(procs: seq<Proc>): seq<Proc> {
    if procs == [] then []
    else (if procs[0].session then [] else [procs[0]]) + ForeignOf(procs[1..])
  }

  predicate Clean(p: Probe) {
    p.NoUser? || (p.Owns? && ForeignOf(p.procs) == [])
  }

  /** userdel -rf: removed, "does not exist", or any other failure, which may have dropped the record. */
  datatype Userdel = Removed | Absent | Busy(recordGone: bool)

  /** The answer means that the user record went, respectively the home with it. */
  predicate DropsUser(u: Userdel) {
    u.Removed? || (u.Busy? && u.recordGone)
  }

  datatype Event =
    | Probed(p: Probe)
    | Sent(s: Signal)
    | ArchivedHome
    | UserdelRun(answer: Userdel)

  datatype DestroyHost = DestroyHost(
    userPresent: bool,
    firstProbe: Probe,
    killing: KillHost,
    secondProbe: Probe,
    homeNonEmpty: bool,
    archive: ArchiveHost,
    listable: bool,
    removable: string -> bool,
    firstUserdel: Userdel,
    stragglers: Option<Scan>,
    straggling: KillHost,
    secondUserdel: Userdel,
    now: int,
    refusalWriteOk: bool,
    destroyWriteOk: bool)
  {
    ghost predicate Valid() {
      killing.Valid() && straggling.Valid() && killing.self == straggling.self
    }
  }

  // ---- the decision table ----

  predicate GateOpens(force: bool, h: DestroyHost) {
    || Clean(h.firstProbe)
    || (force && h.firstProbe.Owns? && h.secondProbe.Owns? && Clean(h.secondProbe))
  }

  predicate ArchiveWorks(a: ArchiveHost, files: map<string, Entry>) {
    a.mkdirOk && a.name !in files && a.tar.TarDone? && a.tar.size > 0 && a.listOk && a.entries > 0
  }

  /** What the removal of the user comes to; known: the registry remembers the id. */
  function RemovalStatus(force: bool, known: bool, h: DestroyHost): Status {
    match h.firstUserdel
    case Removed => Destroyed
    case Busy(_) => if h.secondUserdel.Removed? then Destroyed else UserdelFailed
    case Absent => if force || (!h.userPresent && known) then Destroyed else NotFound
  }

  /** Some userdel of the removal dropped the user record, respectively the home. */
  predicate UserDropped(h: DestroyHost) {
    DropsUser(h.firstUserdel) || (h.firstUserdel.Busy? && DropsUser(h.secondUserdel))
  }

  predicate HomeDropped(h: DestroyHost) {
    h.firstUserdel.Removed? || (h.firstUserdel.Busy? && h.secondUserdel.Removed?)
  }

  /** Who and what is left on the host after a removal; the others are untouched. */
  predicate HostAfter(users: set<Id>, homes: set<Id>, wasUsers: set<Id>, wasHomes: set<Id>, id: Id, h: DestroyHost) {
    && users == (if UserDropped(h) then wasUsers - {id} else wasUsers)
    && homes == (if HomeDropped(h) then wasHomes - {id} else wasHomes)
  }

  /** After userdel_failed the user is gone exactly when it was before, or one of the failed calls dropped its record. */
  lemma FailedYetGoneExactly(users: set<Id>, homes: set<Id>, wasUsers: set<Id>, wasHomes: set<Id>, id: Id,
                             force: bool, known: bool, h: DestroyHost)
    requires HostAfter(users, homes, wasUsers, wasHomes, id, h) && RemovalStatus(force, known, h) == UserdelFailed
    ensures id !in users <==>
            id !in wasUsers || h.firstUserdel.recordGone || (h.secondUserdel.Busy? && h.secondUserdel.recordGone)
  {}

  /** Nobody else is touched, and a removal that reports destroyed leaves no user when absent meant absent. */
  lemma HostAfterGone(users: set<Id>, homes: set<Id>, wasUsers: set<Id>, wasHomes: set<Id>, id: Id, force: bool, known: bool, h: DestroyHost)
    requires HostAfter(users, homes, wasUsers, wasHomes, id, h)
    ensures users - {id} == wasUsers - {id} && homes - {id} == wasHomes - {id}
    ensures RemovalStatus(force, known, h) == Destroyed && (h.firstUserdel.Absent? ==> id !in wasUsers) ==> id !in users
  {}

  // ---- counters ----

  datatype Counters = Counters(
    ok: nat, refused: nat, error: nat, archived: nat, skipped: nat,
    refusedLive: nat, refusedHome: nat, refusedUserdel: nat)
  {
    function Refusal(s: Status): Counters {
      match s
      case LiveProcesses => this.(refusedLive := refusedLive + 1)
      case HomeRetained => this.(refusedHome := refusedHome + 1)
      case UserdelFailed => this.(refusedUserdel := refusedUserdel + 1)
      case _ => this
    }

    function Outcome(s: Status, didArchive: bool, didSkip: bool): Counters {
      if IsRefusal(s) then this.(refused := refused + 1)
      else if s.Destroyed? then
        if didArchive then this.(archived := archived + 1)
        else if didSkip then this.(skipped := skipped + 1)
        else this.(ok := ok + 1)
      else this.(error := error + 1)
    }

    /** The books: one outcome per completed call, one reason per refusal. */
    predicate Balanced(calls: nat) {
      && ok + refused + error + archived + skipped == calls
      && refused == refusedLive + refusedHome + refusedUserdel
    }
  }

  // ---- what a trace of one destroy must look like ----

  predicate CleanProbe(e: Event) { e.Probed? && Clean(e.p) }

  /** Every userdel follows a clean probe with no signal in between, except a retry's own. */
  ghost predicate GatedUserdels(t: seq<Event>) {
    forall i :: 0 <= i < |t| && t[i].UserdelRun? ==>
      exists j :: 0 <= j < i && CleanProbe(t[j])
        && (forall k :: j < k < i && t[k].Sent? ==> exists m :: j < m < k && t[m].UserdelRun?)
  }

  ghost predicate ArchivedBeforeUserdel(t: seq<Event>) {
    forall i :: 0 <= i < |t| && t[i].UserdelRun? ==> exists j :: 0 <= j < i && t[j].ArchivedHome?
  }

  ghost predicate NoUserdel(t: seq<Event>) {
    forall i :: 0 <= i < |t| ==> !t[i].UserdelRun?
  }

  ghost predicate SignalsOutside(t: seq<Event>, self: int) {
    forall i :: 0 <= i < |t| && t[i].Sent? ==> !Excluded(self, t[i].s.pid)
  }

  /** One userdel, and at most one more after a busy answer with nothing but signals between. */
  ghost predicate RemovalShape(u: seq<Event>, h: DestroyHost) {
    && |u| >= 1 && u[0] == UserdelRun(h.firstUserdel)
    && (h.firstUserdel.Busy? <==> |u| > 1)
    && (|u| > 1 ==> u[|u| - 1] == UserdelRun(h.secondUserdel))
    && (forall i :: 1 <= i < |u| - 1 ==> u[i].Sent?)
  }

  /** The trace from the gate on: gated userdels, signals outside the window, no userdel before cut. */
  ghost predicate Ordered(t: seq<Event>, cut: nat, self: int) {
    GatedUserdels(t) && SignalsOutside(t, self) && cut <= |t| && NoUserdel(t[..cut])
  }

  lemma OrderedWithoutRemoval(t: seq<Event>, self: int)
    requires NoUserdel(t) && SignalsOutside(t, self)
    ensures Ordered(t, |t|, self) && ArchivedBeforeUserdel(t)
  {}

  /** Gate events, archive events and removal events, put together, obey the order. */
  lemma ComposeTrace(g: seq<Event>, a: seq<Event>, u: seq<Event>, h: DestroyHost)
    requires |g| > 0 && CleanProbe(g[|g| - 1]) && NoUserdel(g) && SignalsOutside(g, h.killing.self)
    requires a == [] || a == [ArchivedHome]
    requires RemovalShape(u, h) && SignalsOutside(u, h.killing.self)
    ensures Ordered(g + a + u, |g| + |a|, h.killing.self)
    ensures (g + a + u)[|g| + |a|..] == u
    ensures a != [] ==> ArchivedBeforeUserdel(g + a + u)
  {
    var t := g + a + u;
    var cut := |g| + |a|;
    assert t[cut..] == u && t[..cut] == g + a;
    assert forall i :: cut <= i < |t| ==> t[i] == u[i - cut];
    assert forall i :: |g| <= i < cut ==> t[i] == ArchivedHome;
    assert t[|g| - 1] == g[|g| - 1];
    assert t[cut] == u[0];
    forall i | 0 <= i < |t| && t[i].UserdelRun?
      ensures exists j :: 0 <= j < i && CleanProbe(t[j])
                && (forall k :: j < k < i && t[k].Sent? ==> exists m :: j < m < k && t[m].UserdelRun?)
    {
      assert i >= cut;
      assert forall k :: |g| - 1 < k < i && t[k].Sent? ==> cut < k && t[cut].UserdelRun?;
    }
    if a != [] {
      assert t[|g|].ArchivedHome?;
    }
  }

  class HostUsers {
    var users: set<Id>
    var homes: set<Id>

    constructor (users: set<Id>, homes: set<Id>)
      ensures this.users == users && this.homes == homes
    {
      this.users, this.homes := users, homes;
    }

    method RunUserdel(id: Id, answer: Userdel)
      modifies this
      ensures users == if DropsUser(answer) then old(users) - {id} else old(users)
      ensures homes == if answer.Removed? then old(homes) - {id} else old(homes)
    {
      match answer {
        case Removed => users, homes := users - {id}, homes - {id};
        case Absent =>
        case Busy(gone) => if gone { users := users - {id}; }
      }
    }
  }

  class AgentManager {
    const tracker: Tracker
    const pool: PortAllocator?
    const store: Store?
    const dir: ArchiveDir
    const host: HostUsers
    const archivePolicy: bool
    const keep: int
    const maxBytes: int
    var counters: Counters
    ghost var calls: nat

    ghost predicate Valid()
      reads this, pool
    {
      && (pool != null ==> pool.Valid())
      && counters.Balanced(calls)
    }

    constructor (tracker: Tracker, pool: PortAllocator?, store: Store?, dir: ArchiveDir, host: HostUsers,
                 archivePolicy: bool, keep: int, maxBytes: int)
      requires pool != null ==> pool.Valid()
      ensures Valid() && calls == 0
      ensures this.tracker == tracker && this.pool == pool && this.store == store && this.dir == dir
      ensures this.host == host && this.archivePolicy == archivePolicy && this.keep == keep && this.maxBytes == maxBytes
    {
      this.tracker, this.pool, this.store, this.dir, this.host := tracker, pool, store, dir, host;
      this.archivePolicy, this.keep, this.maxBytes := archivePolicy, keep, maxBytes;
      counters, calls := Counters(0, 0, 0, 0, 0, 0, 0, 0), 0;
    }

    ghost function Held(): map<Id, nat>
      reads pool
    {
      if pool == null then map[] else pool.held
    }

    ghost function LiveRecords(): map<Id, Record>
      reads store
    {
      if store == null then map[] else store.live
    }

    ghost function KnownIds(): set<Id>
      reads store
    {
      if store == null then {} else store.known
    }

    predicate KnownAgent(id: Id)
      reads store
    {
      store != null && (id in store.live || id in store.known)
    }

    method FreePorts(id: Id)
      requires pool != null ==> pool.Valid()
      modifies pool
      ensures pool != null ==> pool.Valid()
      ensures Held() == old(Held()) - {id}
    {
      if pool != null {
        pool.Free(id);
      }
    }

    /** persistDestroy; a failed append is only logged. */
    method PersistDestroy(id: Id, writeOk: bool)
      modifies store
      ensures LiveRecords() - {id} == old(LiveRecords()) - {id}
      ensures writeOk && id != "" ==> id !in LiveRecords()
      ensures KnownIds() - {id} == old(KnownIds()) - {id} && old(KnownIds()) <= KnownIds()
    {
      if store != null {
        var _ := store.AppendDestroy(id, writeOk);
      }
    }

    /** recordDestroyRefusal: a reason counter, one more attempt on the durable record, the tracker's status. */
    method RecordRefusal(id: Id, status: Status, now: int, writeOk: bool)
      requires IsRefusal(status)
      modifies this`counters, tracker, store
      ensures counters == old(counters).Refusal(status)
      ensures tracker.agents == WithStatus(old(tracker.agents), id, Refused(status))
      ensures OnlyRefusalChanged(LiveRecords(), old(LiveRecords()), id) && KnownIds() == old(KnownIds())
      ensures LiveRecords() - {id} == old(LiveRecords()) - {id}
      ensures store != null && writeOk && id != "" && id in store.live ==>
                RefusalOf(store.live, id) == Some(NextRefusal(RefusalOf(old(store.live), id), status, now))
    {
      counters := counters.Refusal(status);
      if store != null {
        var refusal := NextRefusal(RefusalOf(store.live, id), status, now);
        var _ := store.AppendRefusal(id, refusal, writeOk);
      }
      tracker.UpdateStatus(id, Refused(status));
    }

    /** gateDestroyOnLiveProcesses. */
    method Gate(id: Id, force: bool, h: DestroyHost) returns (pass: bool, trace: seq<Event>)
      requires h.Valid()
      modifies this`counters, tracker, store
      ensures pass <==> GateOpens(force, h)
      ensures pass ==>
        && counters == old(counters) && tracker.agents == old(tracker.agents)
        && LiveRecords() == old(LiveRecords()) && KnownIds() == old(KnownIds())
        && |trace| > 0 && CleanProbe(trace[|trace| - 1])
      ensures !pass ==>
        && counters == old(counters).Refusal(LiveProcesses)
        && tracker.agents == WithStatus(old(tracker.agents), id, Refused(LiveProcesses))
        && OnlyRefusalChanged(LiveRecords(), old(LiveRecords()), id) && KnownIds() == old(KnownIds())
        && RefusalRecorded(LiveRecords(), old(LiveRecords()), id, LiveProcesses, h)
      ensures |trace| > 0 && NoUserdel(trace) && SignalsOutside(trace, h.killing.self)
      ensures !force ==> trace == [Probed(h.firstProbe)]
      ensures LiveRecords() - {id} == old(LiveRecords()) - {id}
    {
      trace := [Probed(h.firstProbe)];
      if h.firstProbe.ProbeFailed? {
        RecordRefusal(id, LiveProcesses, h.now, h.refusalWriteOk);
        return false, trace;
      }
      if h.firstProbe.NoUser? {
        return true, trace;
      }
      var foreign := ForeignOf(h.firstProbe.procs);
      if |foreign| == 0 {
        return true, trace;
      }
      if force {
        var sent, _, _ := ReapBounded(h.killing, foreign);
        var kills := SentEvents(sent, h.killing.self);
        trace := trace + kills + [Probed(h.secondProbe)];
        if !h.secondProbe.Owns? {
          RecordRefusal(id, LiveProcesses, h.now, h.refusalWriteOk);
          return false, trace;
        }
        var survivors := ForeignOf(h.secondProbe.procs);
        if |survivors| > 0 {
          RecordRefusal(id, LiveProcesses, h.now, h.refusalWriteOk);
          return false, trace;
        }
        return true, trace;
      }
      RecordRefusal(id, LiveProcesses, h.now, h.refusalWriteOk);
      pass := false;
    }

    /** The archive step and the prune behind it; a directory that cannot be listed is not pruned. */
    method ArchiveStep(h: DestroyHost) returns (ok: bool)
      modifies dir
      ensures ok <==> ArchiveWorks(h.archive, old(dir.files))
      ensures ArchiveLeft(dir.files, old(dir.files), true, h, keep, maxBytes)
      ensures ok && HasSuffix(h.archive.name) && NewestHere(h.archive, old(dir.files)) ==>
                h.archive.name in dir.files && dir.files[h.archive.name].complete
    {
      ok := dir.ArchiveHome(h.archive);
      if ok && h.listable {
        var order := ReadDir(dir);
        label L:
        ghost var ranking, kept;
        var removed;
        removed, ranking, kept := dir.Prune(order, keep, maxBytes, h.removable);
        ArchivePruned(old(dir.files), old@L(dir.files), dir.files, h, ranking, kept, removed, keep, maxBytes);
        if HasSuffix(h.archive.name) && NewestHere(h.archive, old(dir.files)) {
          FreshArchiveKept(old(dir.files), old@L(dir.files), h.archive, ranking, kept, keep, maxBytes);
        }
      }
    }

    /** retryUserdelOnceAfterReap: one reap if a fresh scan sees processes, then exactly one userdel. */
    method RetryUserdel(id: Id, h: DestroyHost) returns (ok: bool, trace: seq<Event>)
      requires h.Valid()
      modifies host
      ensures ok <==> h.secondUserdel.Removed?
      ensures |trace| >= 1 && trace[|trace| - 1] == UserdelRun(h.secondUserdel)
      ensures forall i :: 0 <= i < |trace| - 1 ==> trace[i].Sent?
      ensures SignalsOutside(trace, h.killing.self)
      ensures host.users == (if DropsUser(h.secondUserdel) then old(host.users) - {id} else old(host.users))
      ensures host.homes == (if h.secondUserdel.Removed? then old(host.homes) - {id} else old(host.homes))
    {
      trace := [];
      if h.stragglers.Some? && h.stragglers.value.Seen? && |h.stragglers.value.procs| > 0 {
        var sent, _, _ := ReapBounded(h.straggling, h.stragglers.value.procs);
        trace := SentEvents(sent, h.straggling.self);
      }
      host.RunUserdel(id, h.secondUserdel);
      trace := trace + [UserdelRun(h.secondUserdel)];
      ok := h.secondUserdel.Removed?;
    }

    /** Both retries failed: the refusal is recorded, then every record of the agent goes. */
    method GiveUp(id: Id, h: DestroyHost)
      requires ValidId(id) && (pool != null ==> pool.Valid())
      modifies this`counters, tracker, pool, store
      ensures pool != null ==> pool.Valid()
      ensures counters == old(counters).Refusal(UserdelFailed)
      ensures Held() == old(Held()) - {id} && tracker.agents == old(tracker.agents) - {id}
      ensures LiveRecords() - {id} == old(LiveRecords()) - {id}
      ensures h.destroyWriteOk ==> id !in LiveRecords()
    {
      RecordRefusal(id, UserdelFailed, h.now, h.refusalWriteOk);
      FreePorts(id);
      tracker.Unregister(id);
      StatusThenGone(old(tracker.agents), id, Refused(UserdelFailed));
      PersistDestroy(id, h.destroyWriteOk);
    }

    /** Step 3 to the end: userdel, its recovery, and the teardown of the records. */
    method RemoveUser(id: Id, force: bool, h: DestroyHost) returns (status: Status, trace: seq<Event>)
      requires h.Valid() && ValidId(id)
      requires pool != null ==> pool.Valid()
      modifies this`counters, tracker, pool, store, host
      ensures pool != null ==> pool.Valid()
      ensures status == RemovalStatus(force, old(KnownAgent(id)), h)
      ensures RemovalShape(trace, h) && SignalsOutside(trace, h.killing.self)
      ensures counters == old(counters).Refusal(status)
      ensures Held() == old(Held()) - {id} && tracker.agents == old(tracker.agents) - {id}
      ensures LiveRecords() - {id} == old(LiveRecords()) - {id}
      ensures status != NotFound && h.destroyWriteOk ==> id !in LiveRecords()
      ensures HostAfter(host.users, host.homes, old(host.users), old(host.homes), id, h)
    {
      host.RunUserdel(id, h.firstUserdel);
      trace := [UserdelRun(h.firstUserdel)];
      if h.firstUserdel.Busy? {
        var recovered, more := RetryUserdel(id, h);
        trace := trace + more;
        if !recovered {
          GiveUp(id, h);
          return UserdelFailed, trace;
        }
      } else if h.firstUserdel.Absent? && !force {
        FreePorts(id);
        tracker.Unregister(id);
        if !h.userPresent && KnownAgent(id) {
          PersistDestroy(id, h.destroyWriteOk);
          return Destroyed, trace;
        }
        return NotFound, trace;
      }
      tracker.Unregister(id);
      FreePorts(id);
      PersistDestroy(id, h.destroyWriteOk);
      status := Destroyed;
    }

    predicate NeedsArchive(skipArchive: bool, h: DestroyHost) {
      h.homeNonEmpty && !skipArchive && archivePolicy
    }

    /** This destroy gets as far as archiving the home. */
    predicate Archives(id: Id, force: bool, skipArchive: bool, h: DestroyHost) {
      ValidId(id) && GateOpens(force, h) && NeedsArchive(skipArchive, h)
    }

    /** Archive, verify and prune when the policy asks for it; a failed archive refuses the delete. */
    method ArchiveGate(id: Id, skipArchive: bool, h: DestroyHost) returns (pass: bool, a: seq<Event>)
      modifies this`counters, tracker, store, dir
      ensures pass <==> (NeedsArchive(skipArchive, h) ==> ArchiveWorks(h.archive, old(dir.files)))
      ensures pass ==>
        && counters == old(counters) && tracker.agents == old(tracker.agents)
        && LiveRecords() == old(LiveRecords()) && KnownIds() == old(KnownIds())
        && a == if NeedsArchive(skipArchive, h) then [ArchivedHome] else []
      ensures !pass ==>
        && counters == old(counters).Refusal(HomeRetained)
        && tracker.agents == WithStatus(old(tracker.agents), id, Refused(HomeRetained))
        && OnlyRefusalChanged(LiveRecords(), old(LiveRecords()), id) && KnownIds() == old(KnownIds())
        && RefusalRecorded(LiveRecords(), old(LiveRecords()), id, HomeRetained, h)
      ensures LiveRecords() - {id} == old(LiveRecords()) - {id}
      ensures ArchiveLeft(dir.files, old(dir.files), NeedsArchive(skipArchive, h), h, keep, maxBytes)
    {
      pass, a := true, [];
      if NeedsArchive(skipArchive, h) {
        pass := ArchiveStep(h);
        if pass {
          a := [ArchivedHome];
        } else {
          RecordRefusal(id, HomeRetained, h.now, h.refusalWriteOk);
        }
      }
    }

    /** The live-process gate and the archive gate: passed with nothing changed, or refused with everything kept. */
    method Admit(id: Id, force: bool, skipArchive: bool, h: DestroyHost)
      returns (refusal: Option<Status>, g: seq<Event>, a: seq<Event>)
      requires h.Valid()
      modifies this`counters, tracker, store, dir
      ensures refusal ==
        if !GateOpens(force, h) then Some(LiveProcesses)
        else if NeedsArchive(skipArchive, h) && !ArchiveWorks(h.archive, old(dir.files)) then Some(HomeRetained)
        else None
      ensures NoUserdel(g) && SignalsOutside(g, h.killing.self)
      ensures refusal.None? ==>
        && counters == old(counters) && tracker.agents == old(tracker.agents)
        && LiveRecords() == old(LiveRecords()) && KnownIds() == old(KnownIds())
        && |g| > 0 && CleanProbe(g[|g| - 1]) && a == if NeedsArchive(skipArchive, h) then [ArchivedHome] else []
      ensures refusal.Some? ==>
        && counters == old(counters).Refusal(refusal.value)
        && tracker.agents == WithStatus(old(tracker.agents), id, Refused(refusal.value))
        && OnlyRefusalChanged(LiveRecords(), old(LiveRecords()), id) && KnownIds() == old(KnownIds())
        && RefusalRecorded(LiveRecords(), old(LiveRecords()), id, refusal.value, h)
      ensures LiveRecords() - {id} == old(LiveRecords()) - {id}
      ensures ArchiveLeft(dir.files, old(dir.files), GateOpens(force, h) && NeedsArchive(skipArchive, h), h, keep, maxBytes)
    {
      var pass;
      pass, g := Gate(id, force, h);
      if !pass {
        return Some(LiveProcesses), g, [];
      }
      pass, a := ArchiveGate(id, skipArchive, h);
      refusal := if pass then None else Some(HomeRetained);
    }

    /** The removal behind the two gates, with the events so far put in front of its own. */
    method RemoveBehind(id: Id, force: bool, g: seq<Event>, a: seq<Event>, h: DestroyHost)
      returns (status: Status, trace: seq<Event>, ghost cut: nat)
      requires h.Valid() && ValidId(id) && (pool != null ==> pool.Valid())
      requires |g| > 0 && CleanProbe(g[|g| - 1]) && NoUserdel(g) && SignalsOutside(g, h.killing.self)
      requires a == [] || a == [ArchivedHome]
      modifies this`counters, tracker, pool, store, host
      ensures pool != null ==> pool.Valid()
      ensures status == RemovalStatus(force, old(KnownAgent(id)), h)
      ensures Ordered(trace, cut, h.killing.self) && RemovalShape(trace[cut..], h)
      ensures a != [] ==> ArchivedBeforeUserdel(trace)
      ensures counters == old(counters).Refusal(status)
      ensures Held() == old(Held()) - {id} && tracker.agents == old(tracker.agents) - {id}
      ensures LiveRecords() - {id} == old(LiveRecords()) - {id}
      ensures status != NotFound && h.destroyWriteOk ==> id !in LiveRecords()
      ensures HostAfter(host.users, host.homes, old(host.users), old(host.homes), id, h)
    {
      var u;
      status, u := RemoveUser(id, force, h);
      ComposeTrace(g, a, u, h);
      trace, cut := g + a + u, |g| + |a|;
    }

    /** Destroy of a well-formed id, up to the outcome counters. */
    method DestroyAgent(id: Id, force: bool, skipArchive: bool, h: DestroyHost)
      returns (status: Status, didArchive: bool, trace: seq<Event>, ghost cut: nat)
      requires ValidId(id) && h.Valid() && (pool != null ==> pool.Valid())
      modifies this`counters, tracker, pool, store, dir, host
      ensures pool != null ==> pool.Valid()
      ensures counters == old(counters).Refusal(status)
      ensures status == DestroyStatus(id, force, NeedsArchive(skipArchive, h), ArchiveWorks(h.archive, old(dir.files)),
                                      old(KnownAgent(id)), h)
      ensures didArchive <==> !Kept(status) && NeedsArchive(skipArchive, h)
      ensures Ordered(trace, cut, h.killing.self)
      ensures NeedsArchive(skipArchive, h) ==> ArchivedBeforeUserdel(trace)
      ensures if Kept(status) then cut == |trace| else RemovalShape(trace[cut..], h)
      ensures Kept(status) ==>
        && Held() == old(Held()) && tracker.agents == WithStatus(old(tracker.agents), id, Refused(status))
        && OnlyRefusalChanged(LiveRecords(), old(LiveRecords()), id) && KnownIds() == old(KnownIds())
        && RefusalRecorded(LiveRecords(), old(LiveRecords()), id, status, h)
        && host.users == old(host.users) && host.homes == old(host.homes)
      ensures !Kept(status) ==> Held() == old(Held()) - {id} && tracker.agents == old(tracker.agents) - {id}
      ensures LiveRecords() - {id} == old(LiveRecords()) - {id}
      ensures (status == Destroyed || status == UserdelFailed) && h.destroyWriteOk ==> id !in LiveRecords()
      ensures !Kept(status) ==> HostAfter(host.users, host.homes, old(host.users), old(host.homes), id, h)
      ensures ArchiveLeft(dir.files, old(dir.files), GateOpens(force, h) && NeedsArchive(skipArchive, h), h, keep, maxBytes)
    {
      var refusal, g, a := Admit(id, force, skipArchive, h);
      if refusal.Some? {
        OrderedWithoutRemoval(g, h.killing.self);
        return refusal.value, false, g, |g|;
      }
      didArchive := NeedsArchive(skipArchive, h);
      status, trace, cut := RemoveBehind(id, force, g, a, h);
    }

    /** A malformed id: its range is freed, should it hold one, and nothing else happens. */
    method Reject(id: Id)
      requires Valid()
      modifies this`counters, this`calls, pool
      ensures Valid() && calls == old(calls) + 1 && Held() == old(Held()) - {id}
    {
      FreePorts(id);
      counters := counters.Outcome(Error, false, false);
      calls := calls + 1;
    }

    /** The deferred outcome counter; before are the counters at the start of the call. */
    method CountOutcome(status: Status, didArchive: bool, didSkip: bool, ghost before: Counters)
      requires before.Balanced(calls) && counters == before.Refusal(status)
      modifies this`counters, this`calls
      ensures counters.Balanced(calls) && calls == old(calls) + 1
      ensures counters == old(counters).Outcome(status, didArchive, didSkip)
    {
      OutcomeBalanced(before, calls, status, didArchive, didSkip);
      counters := counters.Outcome(status, didArchive, didSkip);
      calls := calls + 1;
    }

    /** Destroy. trace[cut..] is the removal of the user; nothing before it deletes. */
    method Destroy(id: Id, force: bool, skipArchive: bool, h: DestroyHost)
      returns (status: Status, trace: seq<Event>, ghost cut: nat)
      requires Valid() && h.Valid()
      modifies this, tracker, pool, store, dir, host
      ensures Valid() && calls == old(calls) + 1
      ensures status == DestroyStatus(id, force, NeedsArchive(skipArchive, h), ArchiveWorks(h.archive, old(dir.files)),
                                      old(KnownAgent(id)), h)
      ensures status != Error ==>
        counters == old(counters).Refusal(status).Outcome(status, !Kept(status) && NeedsArchive(skipArchive, h), h.homeNonEmpty && skipArchive)
      // the order of events
      ensures Ordered(trace, cut, h.killing.self)
      ensures NeedsArchive(skipArchive, h) ==> ArchivedBeforeUserdel(trace)
      ensures if Kept(status) || status == Error then cut == |trace| else RemovalShape(trace[cut..], h)
      // a refusal to delete keeps everything
      ensures Kept(status) ==>
        && Held() == old(Held()) && tracker.agents == WithStatus(old(tracker.agents), id, Refused(status))
        && OnlyRefusalChanged(LiveRecords(), old(LiveRecords()), id) && KnownIds() == old(KnownIds())
        && RefusalRecorded(LiveRecords(), old(LiveRecords()), id, status, h)
        && host.users == old(host.users) && host.homes == old(host.homes)
      // every other exit forgets the agent, and only that agent
      ensures !Kept(status) ==> Held() == old(Held()) - {id}
      ensures !Kept(status) && status != Error ==> tracker.agents == old(tracker.agents) - {id}
      ensures status == Error ==> tracker.agents == old(tracker.agents) && LiveRecords() == old(LiveRecords())
                                  && host.users == old(host.users) && host.homes == old(host.homes)
      ensures LiveRecords() - {id} == old(LiveRecords()) - {id}
      ensures (status == Destroyed || status == UserdelFailed) && h.destroyWriteOk ==> id !in LiveRecords()
      // the user, the home and the archive at the end
      ensures !Kept(status) && status != Error ==>
        HostAfter(host.users, host.homes, old(host.users), old(host.homes), id, h)
      ensures host.users - {id} == old(host.users) - {id} && host.homes - {id} == old(host.homes) - {id}
      ensures status == Destroyed && (h.firstUserdel.Absent? ==> id !in old(host.users)) ==> id !in host.users
      ensures ArchiveLeft(dir.files, old(dir.files), Archives(id, force, skipArchive, h), h, keep, maxBytes)
    {
      if !ValidId(id) {
        Reject(id);
        OrderedWithoutRemoval([], h.killing.self);
        return Error, [], 0;
      }
      var didArchive;
      status, didArchive, trace, cut := DestroyAgent(id, force, skipArchive, h);
      if !Kept(status) {
        HostAfterGone(host.users, host.homes, old(host.users), old(host.homes), id, force, old(KnownAgent(id)), h);
      }
      CountOutcome(status, didArchive, h.homeNonEmpty && skipArchive, old(counters));
    }
  }

  lemma OutcomeBalanced(c: Counters, calls: nat, s: Status, didArchive: bool, didSkip: bool)
    requires c.Balanced(calls)
    ensures c.Refusal(s).Outcome(s, didArchive, didSkip).Balanced(calls + 1)
  {}

  /** The two statuses that promise that nothing was deleted. */
  predicate Kept(s: Status) {
    s.LiveProcesses? || s.HomeRetained?
  }

  function DestroyStatus(id: Id, force: bool, needsArchive: bool, archiveWorks: bool, known: bool, h: DestroyHost): Status {
    if !ValidId(id) then Error
    else if !GateOpens(force, h) then LiveProcesses
    else if needsArchive && !archiveWorks then HomeRetained
    else RemovalStatus(force, known, h)
  }

  /** A refusal that could be written is on the live record, one attempt on from what it replaced. */
  predicate RefusalRecorded(live: map<Id, Record>, was: map<Id, Record>, id: Id, status: Status, h: DestroyHost) {
    h.refusalWriteOk && id != "" && id in was ==>
      RefusalOf(live, id) == Some(NextRefusal(RefusalOf(was, id), status, h.now))
  }

  lemma StatusThenGone(agents: map<Id, AgentRecord>, id: Id, status: AgentStatus)
    ensures WithStatus(agents, id, status) - {id} == agents - {id}
  {}

  /** The refusal after one more refused attempt: the first reason sticks, the attempts add up. */
  function NextRefusal(prev: Option<Refusal>, status: Status, now: int): Refusal {
    match prev
    case None => Refusal(status, 1, At(now / 1000))
    case Some(p) => Refusal(p.status, p.attempts + 1, At(now / 1000))
  }

  method SentEvents(sent: seq<Signal>, self: int) returns (t: seq<Event>)
    requires forall s :: s in sent ==> !Excluded(self, s.pid)
    ensures |t| == |sent| && forall i :: 0 <= i < |t| ==> t[i] == Sent(sent[i])
    ensures SignalsOutside(t, self)
  {
    t := [];
    var i := 0;
    while i < |sent|
      invariant 0 <= i <= |sent| && |t| == i
      invariant forall k :: 0 <= k < i ==> t[k] == Sent(sent[k])
    {
      t := t + [Sent(sent[i])];
      i := i + 1;
    }
  }

  /** The directory with the fresh archive in it. */
  function WithArchive(files: map<string, Entry>, a: ArchiveHost): map<string, Entry>
    requires a.tar.TarDone?
  {
    files[a.name := Entry(false, true, a.tar.size, a.mtime, true)]
  }

  /** Rank k of the directory survives a prune: limits off, the newest, or within both limits. */
  ghost predicate RankKept(ranking: seq<Item>, k: nat, keep: int, maxBytes: int) {
    (keep <= 0 && maxBytes <= 0) || k == 0 || Fits(ranking, k + 1, keep, maxBytes)
  }

  /** The fresh archive has a rank that the limits leave. */
  ghost predicate Spared(files: map<string, Entry>, a: ArchiveHost, keep: int, maxBytes: int)
    requires a.tar.TarDone?
  {
    exists ranking: seq<Item>, k: nat ::
      && Ranking(ranking, WithArchive(files, a)) && k < |ranking| && ranking[k].name == a.name
      && RankKept(ranking, k, keep, maxBytes)
  }

  /** The fresh archive outlives the prune: no prune, not an archive name, not removable, or spared by the limits. */
  ghost predicate Outlives(files: map<string, Entry>, h: DestroyHost, keep: int, maxBytes: int)
    requires h.archive.tar.TarDone?
  {
    var a := h.archive;
    !h.listable || !HasSuffix(a.name) || !h.removable(a.name) || Spared(files, a, keep, maxBytes)
  }

  /**
   The archive directory after a destroy. Untouched when no archive was due; after a failed one
   too, once the partial file is gone; otherwise it holds the fresh archive, whole, exactly when
   that outlives the prune, and nothing that was not there before; a directory that cannot be
   listed loses nothing.
   */
  ghost predicate ArchiveLeft(files: map<string, Entry>, was: map<string, Entry>, due: bool, h: DestroyHost, keep: int, maxBytes: int) {
    var a := h.archive;
    if !due then files == was
    else if !ArchiveWorks(a, was) then a.removeOk ==> files == was
    else
      && (a.name in files <==> Outlives(was, h, keep, maxBytes))
      && (!h.listable ==> files == WithArchive(was, a))
      && (a.name in files ==> files[a.name].complete)
      && (forall n :: n in files && n != a.name ==> n in was && files[n] == was[n])
      && (Sound(was) ==> Sound(files))
  }

  lemma RankUnique(ranking: seq<Item>, other: seq<Item>, files: map<string, Entry>, k: nat, j: nat)
    requires Ranking(ranking, files) && Ranking(other, files)
    requires k < |ranking| && j < |other| && ranking[k].name == other[j].name
    ensures ranking == other && k == j
  {
    RankingUnique(ranking, other);
    RankingDistinct(ranking, files);
  }

  /** Pruning spares the fresh archive exactly when its rank is one the limits leave. */
  lemma PrunedExactly(was: map<string, Entry>, files: map<string, Entry>, a: ArchiveHost,
                      ranking: seq<Item>, kept: nat, keep: int, maxBytes: int)
    requires a.tar.TarDone? && a.name !in was && files == WithArchive(was, a)
    requires Ranking(ranking, files) && kept <= |ranking|
    requires if keep <= 0 && maxBytes <= 0 then kept == |ranking| else IsLongest(ranking, kept, keep, maxBytes)
    ensures !HasSuffix(a.name) ==> a.name !in Names(ranking[kept..])
    ensures HasSuffix(a.name) ==> (a.name !in Names(ranking[kept..]) <==> Spared(was, a, keep, maxBytes))
  {
    RankingDistinct(ranking, files);
    if HasSuffix(a.name) {
      var mine := Item(a.name, a.tar.size, a.mtime);
      assert mine in ranking by { assert mine in Items(files); }
      var k :| 0 <= k < |ranking| && ranking[k] == mine;
      RankSpared(ranking, k, kept, keep, maxBytes);
      forall other: seq<Item>, j: nat | Ranking(other, files) && j < |other| && other[j].name == a.name
        ensures other == ranking && j == k
      {
        RankUnique(ranking, other, files, k, j);
      }
    } else {
      forall k | 0 <= k < |ranking| ensures ranking[k].name != a.name {
        assert ranking[k] in ranking && ranking[k] in Items(files);
      }
    }
  }

  lemma RankSpared(ranking: seq<Item>, k: nat, kept: nat, keep: int, maxBytes: int)
    requires DistinctNames(ranking) && k < |ranking| && kept <= |ranking|
    requires if keep <= 0 && maxBytes <= 0 then kept == |ranking| else IsLongest(ranking, kept, keep, maxBytes)
    ensures ranking[k].name !in Names(ranking[kept..]) <==> RankKept(ranking, k, keep, maxBytes)
  {
    if keep > 0 || maxBytes > 0 {
      NewestSurvives(ranking, kept, keep, maxBytes, k);
    }
    if k < kept {
      FreshName(ranking, k, kept);
    } else {
      assert ranking[kept..][k - kept] == ranking[k];
    }
  }

  lemma ArchivePruned(was: map<string, Entry>, full: map<string, Entry>, files: map<string, Entry>, h: DestroyHost,
                      ranking: seq<Item>, kept: nat, removed: seq<string>, keep: int, maxBytes: int)
    requires ArchiveWorks(h.archive, was) && full == WithArchive(was, h.archive)
    requires Ranking(ranking, full) && kept <= |ranking|
    requires if keep <= 0 && maxBytes <= 0 then kept == |ranking| else IsLongest(ranking, kept, keep, maxBytes)
    requires forall n :: n in removed <==> n in Names(ranking[kept..])
    requires Without(files, full, removed, h.removable) && h.listable
    ensures ArchiveLeft(files, was, true, h, keep, maxBytes)
  {
    PrunedExactly(was, full, h.archive, ranking, kept, keep, maxBytes);
  }

  /** No archive in the directory is as new as the one about to be written. */
  ghost predicate NewestHere(a: ArchiveHost, files: map<string, Entry>) {
    forall x :: x in Items(files) ==> x.mtime < a.mtime
  }

  lemma ItemsAfterAdd(was: map<string, Entry>, name: string, e: Entry, x: Item)
    requires name !in was && x in Items(was[name := e])
    ensures x in Items(was) || x == Item(name, e.size, e.mtime)
  {}

  lemma NewestIsFirst(a: seq<Item>, x: Item)
    requires Ranked(a) && x in a && forall y :: y in a && y != x ==> y.mtime < x.mtime
    ensures a[0] == x
  {}

  lemma FreshArchiveKept(was: map<string, Entry>, files: map<string, Entry>, a: ArchiveHost,
                         ranking: seq<Item>, kept: nat, keep: int, maxBytes: int)
    requires a.tar.TarDone? && a.name !in was && HasSuffix(a.name) && NewestHere(a, was)
    requires files == WithArchive(was, a)
    requires Ranking(ranking, files) && kept <= |ranking|
    requires if keep <= 0 && maxBytes <= 0 then kept == |ranking| else IsLongest(ranking, kept, keep, maxBytes)
    ensures a.name !in Names(ranking[kept..])
  {
    var mine := Item(a.name, a.tar.size, a.mtime);
    assert mine in ranking by { assert mine in Items(files); }
    forall y | y in ranking && y != mine ensures y.mtime < mine.mtime {
      ItemsAfterAdd(was, a.name, files[a.name], y);
    }
    NewestIsFirst(ranking, mine);
    RankingDistinct(ranking, files);
    FreshName(ranking, 0, kept);
  }
}
