/**
 The orphan walk of a reconciliation pass and the pass as a whole
 (internal/agent/reconcile.go): classification, the sweep guard, adopt or
 destroy, the second drift sweep, and the books the pass leaves behind.
 */
module OrphanSweep {
  import opened PortPool
  import opened Records
  import opened Lifecycle
  import opened Reconciliation

  datatype OrphanOutcome = SkippedForeign | SkippedUnproven | AdoptedOrphan | DestroyedOrphan | FailedOrphan {
    predicate Hit() {
      DestroyedOrphan? || FailedOrphan?
    }
  }

  function CountOrphan(rep: Report, o: OrphanOutcome): Report {
    match o
    case SkippedForeign => rep.(foreign := rep.foreign + 1)
    case SkippedUnproven => rep.(unproven := rep.unproven + 1)
    case AdoptedOrphan => rep.(adopted := rep.adopted + 1)
    case DestroyedOrphan => rep.(destroyed := rep.destroyed + 1)
    case FailedOrphan => rep.(failed := rep.failed + 1)
  }

  /** The orphan can be taken over with the books as they are. */
  ghost predicate Adopts(su: Setup, l: Ledger, sa: SystemAgent) {
    Adoptable(su.pool, l.held, su.Room(l, sa.id), su.durable, sa, su.env.Adopt(sa.id))
  }

  /** The orphan is ours, and the mode or a stage of its adoption rules out keeping it. */
  ghost predicate DestroyDue(su: Setup, l: Ledger, sa: SystemAgent, mode: Mode, instance: string) {
    Classify(sa, instance, su.pool) == Ours && (mode == AdoptMode ==> !Adopts(su, l, sa))
  }

  /** The books after one orphan: unchanged unless it is adopted. */
  ghost function LedgerAfter(su: Setup, l: Ledger, sa: SystemAgent, mode: Mode, instance: string): Ledger {
    if Classify(sa, instance, su.pool) == Ours && mode == AdoptMode && Adopts(su, l, sa)
    then su.Add(l, sa.id, sa.ports.value.start, sa.ports.value.end) else l
  }

  /** One orphan was dealt with as its disposition and the books before it demand. */
  ghost predicate DealtWith(su: Setup, l: Ledger, was: Ledger, sa: SystemAgent, mode: Mode, instance: string, o: OrphanOutcome) {
    && l == LedgerAfter(su, was, sa, mode, instance)
    && (o.Hit() <==> DestroyDue(su, was, sa, mode, instance))
    && (o.AdoptedOrphan? <==> Classify(sa, instance, su.pool) == Ours && mode == AdoptMode && Adopts(su, was, sa))
  }

  /** Where the walk over the first n orphans leads from these books: the books and the destroy calls. */
  datatype Plan = Plan(ledger: Ledger, log: seq<Id>)

  ghost function Walking(su: Setup, list: seq<SystemAgent>, n: nat, mode: Mode, instance: string, start: Ledger): Plan
    requires n <= |list|
  {
    if n == 0 then Plan(start, [])
    else
      var sa, p := list[n - 1], Walking(su, list, n - 1, mode, instance, start);
      Plan(LedgerAfter(su, p.ledger, sa, mode, instance),
           if DestroyDue(su, p.ledger, sa, mode, instance) then p.log + [sa.id] else p.log)
  }

  lemma WalkingStep(su: Setup, list: seq<SystemAgent>, n: nat, mode: Mode, instance: string, start: Ledger,
                    l: Ledger, was: Ledger, log: seq<Id>, o: OrphanOutcome)
    requires n < |list| && Walking(su, list, n, mode, instance, start) == Plan(was, log)
    requires DealtWith(su, l, was, list[n], mode, instance, o)
    ensures Walking(su, list, n + 1, mode, instance, start) == Plan(l, LogWith(log, list[n].id, o))
  {}

  /** adoptAgent on settled books; a failed adoption leaves no residue behind. */
  method AdoptOrDrop(m: AgentManager, sa: SystemAgent, a: AdoptHost) returns (ok: bool)
    requires (m.pool != null ==> m.pool.Valid()) && Settled(m) && sa.id !in m.tracker.agents
    modifies m.pool, m.tracker, m.store
    ensures (m.pool != null ==> m.pool.Valid()) && Settled(m)
    ensures ok <==> Adoptable(PoolOf(m), old(m.Held()), old(Registrable(m.tracker, sa.id)), m.store != null, sa, a)
    ensures m.LiveRecords() - {sa.id} == old(m.LiveRecords()) - {sa.id}
    ensures ok ==>
      && m.Held() == (if m.pool == null then map[] else old(m.Held())[sa.id := sa.ports.value.start])
      && m.tracker.agents == old(m.tracker.agents)[sa.id := AgentRecord(Running, sa.ports.value.start, sa.ports.value.end)]
    ensures !ok ==> m.Held() == old(m.Held()) && m.tracker.agents == old(m.tracker.agents)
  {
    SettledFresh(PoolOf(m), m.Held(), m.tracker.agents, sa.id);
    ok := AdoptAgent(m, sa, a);
    if ok {
      ghost var rec := AgentRecord(Running, sa.ports.value.start, sa.ports.value.end);
      SettledAdd(PoolOf(m), old(m.Held()), old(m.tracker.agents), sa.id, rec.start, rec.end);
    } else {
      DropHalfManaged(m, sa.id);
      assert m.Held() == old(m.Held()) && m.tracker.agents == old(m.tracker.agents);
    }
  }

  lemma AddTouches(su: Setup, l: Ledger, was: Ledger, id: Id, start: u32, end: u32)
    requires l == su.Add(was, id, start, end) && (su.pool.None? ==> was.held == map[])
    ensures l.held - {id} == was.held - {id} && l.agents - {id} == was.agents - {id}
  {
    AddedGone(was.agents, id, AgentRecord(Running, start, end));
    AddedGone(was.held, id, start);
  }

  /** destroyOrphan on settled books: the id stays untracked and unreserved, whatever the outcome. */
  method DestroySettled(m: AgentManager, id: Id, env: Host) returns (o: OrphanOutcome)
    requires m.Valid() && env.Valid() && Settled(m) && id !in m.tracker.agents
    modifies m, m.tracker, m.pool, m.store, m.dir, m.host
    ensures m.Valid() && Settled(m) && o.Hit()
    ensures m.calls == old(m.calls) + 1
    ensures OnlyTouches(BooksOf(m), old(BooksOf(m)), id)
    ensures m.Held() == old(m.Held()) && m.tracker.agents == old(m.tracker.agents)
    ensures CallOf(SetupOf(m, env), m.dir.files, old(m.dir.files), id, true, o.DestroyedOrphan?)
    ensures o.DestroyedOrphan? && (env.Destroy(id).firstUserdel.Absent? ==> id !in old(m.host.users)) ==> id !in m.host.users
  {
    SettledFresh(PoolOf(m), m.Held(), m.tracker.agents, id);
    var ok := DestroyOrphan(m, id, env.Destroy(id));
    o := if ok then DestroyedOrphan else FailedOrphan;
  }

  /** An orphan of ours in adopt mode: adopted whole, or destroyed with nothing left of the attempt. */
  method AdoptOrDestroy(m: AgentManager, sa: SystemAgent, env: Host) returns (o: OrphanOutcome)
    requires m.Valid() && env.Valid() && Settled(m) && sa.id !in m.tracker.agents
    modifies m, m.tracker, m.pool, m.store, m.dir, m.host
    ensures m.Valid() && Settled(m) && (o.AdoptedOrphan? || o.Hit())
    ensures m.calls == old(m.calls) + (if o.Hit() then 1 else 0)
    ensures CallOf(SetupOf(m, env), m.dir.files, old(m.dir.files), sa.id, o.Hit(), o.DestroyedOrphan?)
    ensures o.AdoptedOrphan? <==> Adopts(SetupOf(m, env), old(LedgerOf(BooksOf(m))), sa)
    ensures LedgerOf(BooksOf(m)) == if o.AdoptedOrphan?
              then SetupOf(m, env).Add(old(LedgerOf(BooksOf(m))), sa.id, sa.ports.value.start, sa.ports.value.end)
              else old(LedgerOf(BooksOf(m)))
    ensures OnlyTouches(BooksOf(m), old(BooksOf(m)), sa.id)
    ensures o.AdoptedOrphan? ==> m.host.users == old(m.host.users) && m.host.homes == old(m.host.homes)
    ensures sa.id in m.tracker.agents <==> o.AdoptedOrphan?
    ensures o.AdoptedOrphan? ==> sa.ports == Readable(Range(m.tracker.agents[sa.id].start, m.tracker.agents[sa.id].end))
  {
    var adopted := AdoptOrDrop(m, sa, env.Adopt(sa.id));
    if adopted {
      AddTouches(SetupOf(m, env), LedgerOf(BooksOf(m)), old(LedgerOf(BooksOf(m))), sa.id, sa.ports.value.start, sa.ports.value.end);
      return AdoptedOrphan;
    }
    o := DestroySettled(m, sa.id, env);
  }

  /** What the walk does with one orphan. */
  method OrphanOne(m: AgentManager, sa: SystemAgent, mode: Mode, instance: string, env: Host) returns (o: OrphanOutcome)
    requires m.Valid() && env.Valid() && Settled(m) && sa.id !in m.tracker.agents
    modifies m, m.tracker, m.pool, m.store, m.dir, m.host
    ensures m.Valid() && Settled(m)
    ensures OnlyTouches(BooksOf(m), old(BooksOf(m)), sa.id)
    ensures m.calls == old(m.calls) + (if o.Hit() then 1 else 0)
    ensures o.SkippedForeign? <==> Classify(sa, instance, PoolOf(m)) == Foreign
    ensures o.SkippedUnproven? <==> Classify(sa, instance, PoolOf(m)) == Unproven
    ensures o.SkippedForeign? || o.SkippedUnproven? ==> BooksOf(m) == old(BooksOf(m))
    ensures DealtWith(SetupOf(m, env), LedgerOf(BooksOf(m)), old(LedgerOf(BooksOf(m))), sa, mode, instance, o)
    ensures CallOf(SetupOf(m, env), m.dir.files, old(m.dir.files), sa.id, o.Hit(), o.DestroyedOrphan?)
    ensures !o.Hit() ==> m.host.users == old(m.host.users) && m.host.homes == old(m.host.homes)
    ensures sa.id in m.tracker.agents <==> o.AdoptedOrphan?
    ensures o.AdoptedOrphan? ==> sa.ports == Readable(Range(m.tracker.agents[sa.id].start, m.tracker.agents[sa.id].end))
  {
    match Classify(sa, instance, PoolOf(m)) {
      case Foreign => return SkippedForeign;
      case Unproven => return SkippedUnproven;
      case Ours =>
    }
    if mode == AdoptMode {
      o := AdoptOrDestroy(m, sa, env);
    } else {
      o := DestroySettled(m, sa.id, env);
    }
  }

  ghost predicate DistinctAgents(list: seq<SystemAgent>) {
    forall i, j :: 0 <= i < j < |list| ==> list[i].id != list[j].id
  }

  ghost predicate Untracked(list: seq<SystemAgent>, n: nat, agents: map<Id, AgentRecord>) {
    forall k :: n <= k < |list| ==> list[k].id !in agents
  }

  /** A destroy call for id is a call for one of the first n orphans, and that is ours. */
  ghost predicate CalledFor(list: seq<SystemAgent>, n: nat, instance: string, pool: Option<Geometry>, id: Id)
    requires n <= |list|
  {
    exists k :: 0 <= k < n && list[k].id == id && Classify(list[k], instance, pool) == Ours
  }

  /** An orphan of ours was adopted or had its destroy call. */
  predicate ActedOn(sa: SystemAgent, instance: string, pool: Option<Geometry>, mode: Mode, agents: map<Id, AgentRecord>, log: seq<Id>) {
    Classify(sa, instance, pool) == Ours ==> sa.id in log || (mode == AdoptMode && sa.id in agents)
  }

  /** The destroy calls are for orphans of ours, and every orphan of ours was adopted or had one. */
  ghost predicate Walked(list: seq<SystemAgent>, n: nat, instance: string, pool: Option<Geometry>, mode: Mode,
                         agents: map<Id, AgentRecord>, log: seq<Id>)
    requires n <= |list|
  {
    && (forall id {:trigger CalledFor(list, n, instance, pool, id)} :: id in log ==> CalledFor(list, n, instance, pool, id))
    && (forall k {:trigger ActedOn(list[k], instance, pool, mode, agents, log)} :: 0 <= k < n ==>
          ActedOn(list[k], instance, pool, mode, agents, log))
  }

  lemma WalkedStep(list: seq<SystemAgent>, n: nat, instance: string, pool: Option<Geometry>, mode: Mode,
                   agents: map<Id, AgentRecord>, agents': map<Id, AgentRecord>, log: seq<Id>, log': seq<Id>, o: OrphanOutcome)
    requires n < |list| && DistinctAgents(list) && Walked(list, n, instance, pool, mode, agents, log)
    requires agents' - {list[n].id} == agents - {list[n].id}
    requires log' == if o.Hit() then log + [list[n].id] else log
    requires o.SkippedForeign? || o.SkippedUnproven? <==> Classify(list[n], instance, pool) != Ours
    requires o.AdoptedOrphan? ==> mode == AdoptMode && list[n].id in agents'
    ensures Walked(list, n + 1, instance, pool, mode, agents', log')
  {
    forall k | 0 <= k < n + 1 ensures ActedOn(list[k], instance, pool, mode, agents', log') {
      if k < n {
        assert ActedOn(list[k], instance, pool, mode, agents, log);
        assert list[k].id in agents ==> list[k].id in agents - {list[n].id};
      }
    }
    forall id | id in log' ensures CalledFor(list, n + 1, instance, pool, id) {
      assert id in log ==> CalledFor(list, n, instance, pool, id);
    }
  }

  lemma UntrackedStep(list: seq<SystemAgent>, n: nat, agents: map<Id, AgentRecord>, agents': map<Id, AgentRecord>)
    requires n < |list| && DistinctAgents(list) && Untracked(list, n, agents)
    requires agents' - {list[n].id} == agents - {list[n].id}
    ensures Untracked(list, n + 1, agents')
  {
    forall k | n + 1 <= k < |list| ensures list[k].id !in agents' {
      assert list[k].id !in agents - {list[n].id};
    }
  }

  lemma PersistedStep(agents: map<Id, AgentRecord>, agents': map<Id, AgentRecord>, live: map<Id, Record>,
                      sys: seq<SystemAgent>, sa: SystemAgent)
    requires Persisted(agents, live, sys) && sa in sys && agents' - {sa.id} == agents - {sa.id}
    requires sa.id in agents' ==> sa.ports == Readable(Range(agents'[sa.id].start, agents'[sa.id].end))
    ensures Persisted(agents', live, sys)
  {
    forall id ensures PersistedAt(agents', live, sys, id) {
      assert PersistedAt(agents, live, sys, id);
      assert id in agents' && id != sa.id ==> id in agents' - {sa.id} && agents'[id] == (agents - {sa.id})[id];
    }
  }

  lemma FreshInLog(list: seq<SystemAgent>, n: nat, instance: string, pool: Option<Geometry>, mode: Mode,
                   agents: map<Id, AgentRecord>, log: seq<Id>)
    requires n < |list| && DistinctAgents(list) && Walked(list, n, instance, pool, mode, agents, log)
    ensures list[n].id !in log
  {
    assert !CalledFor(list, n, instance, pool, list[n].id);
  }

  /** The orphans that one pass through the walk has dealt with. */
  function Dealt(rep: Report): nat {
    rep.foreign + rep.unproven + rep.adopted + rep.failed + rep.destroyed
  }

  predicate OrphanCounters(rep: Report, was: Report) {
    rep == was.(foreign := rep.foreign, unproven := rep.unproven, adopted := rep.adopted,
                failed := rep.failed, destroyed := rep.destroyed)
  }

  /** How many of the first n orphans have this disposition. */
  function CountOf(list: seq<SystemAgent>, n: nat, instance: string, pool: Option<Geometry>, d: Disposition): nat
    requires n <= |list|
  {
    if n == 0 then 0
    else CountOf(list, n - 1, instance, pool, d) + if Classify(list[n - 1], instance, pool) == d then 1 else 0
  }

  /** Each skipped orphan is counted under its own disposition, each of ours as adopted, failed or destroyed. */
  ghost predicate OrphanTally(rep: Report, was: Report, list: seq<SystemAgent>, n: nat, instance: string, pool: Option<Geometry>)
    requires n <= |list|
  {
    && rep.foreign == was.foreign + CountOf(list, n, instance, pool, Foreign)
    && rep.unproven == was.unproven + CountOf(list, n, instance, pool, Unproven)
    && rep.adopted + rep.failed + rep.destroyed == was.adopted + was.failed + was.destroyed + CountOf(list, n, instance, pool, Ours)
  }

  lemma OrphanTallyStep(rep: Report, was: Report, list: seq<SystemAgent>, n: nat, instance: string, pool: Option<Geometry>, o: OrphanOutcome)
    requires n < |list| && OrphanTally(rep, was, list, n, instance, pool)
    requires o.SkippedForeign? <==> Classify(list[n], instance, pool) == Foreign
    requires o.SkippedUnproven? <==> Classify(list[n], instance, pool) == Unproven
    ensures OrphanTally(CountOrphan(rep, o), was, list, n + 1, instance, pool)
  {}

  /** What the walk has achieved after the first n orphans, with these destroy calls; live is the registry of the replay. */
  ghost predicate WalkInv(su: Setup, list: seq<SystemAgent>, n: nat, sys: seq<SystemAgent>, live: map<Id, Record>, instance: string,
                          b: Books, was: Books, log: seq<Id>, dirs: seq<Files>, rep: Report, rep0: Report)
    requires n <= |list|
  {
    && Persisted(b.agents, live, sys) && Untracked(list, n, b.agents)
    && NoDupIds(log) && Walked(list, n, instance, su.pool, rep0.mode, b.agents, log)
    && HostKept(b.users, b.homes, was.users, was.homes, log)
    && Counted(list, n, instance, su.pool, |log|, rep, rep0)
    && History(su, log, dirs, was.files, b.files, rep.destroyed - rep0.destroyed)
    && Walking(su, list, n, rep0.mode, instance, LedgerOf(was)) == Plan(LedgerOf(b), log)
  }

  /** The counters after the first n orphans and this many destroy calls. */
  ghost predicate Counted(list: seq<SystemAgent>, n: nat, instance: string, pool: Option<Geometry>, calls: nat, rep: Report, rep0: Report)
    requires n <= |list|
  {
    && calls <= n && OrphanCounters(rep, rep0) && Dealt(rep) == Dealt(rep0) + n
    && OrphanTally(rep, rep0, list, n, instance, pool)
    && rep.failed + rep.destroyed == rep0.failed + rep0.destroyed + calls
  }

  lemma CountedStep(list: seq<SystemAgent>, n: nat, instance: string, pool: Option<Geometry>, calls: nat, rep: Report, rep0: Report, o: OrphanOutcome)
    requires n < |list| && Counted(list, n, instance, pool, calls, rep, rep0)
    requires o.SkippedForeign? <==> Classify(list[n], instance, pool) == Foreign
    requires o.SkippedUnproven? <==> Classify(list[n], instance, pool) == Unproven
    ensures Counted(list, n + 1, instance, pool, calls + (if o.Hit() then 1 else 0), CountOrphan(rep, o), rep0)
  {
    OrphanTallyStep(rep, rep0, list, n, instance, pool, o);
  }

  lemma NoDupStep(log: seq<Id>, id: Id)
    requires NoDupIds(log) && id !in log
    ensures NoDupIds(log + [id])
  {}

  function LogWith(log: seq<Id>, id: Id, o: OrphanOutcome): seq<Id> {
    if o.Hit() then log + [id] else log
  }

  lemma WalkStep(su: Setup, list: seq<SystemAgent>, n: nat, sys: seq<SystemAgent>, live: map<Id, Record>, instance: string,
                 b: Books, b0: Books, was: Books, log: seq<Id>, dirs: seq<Files>, rep: Report, rep0: Report, o: OrphanOutcome)
    requires n < |list| && DistinctAgents(list) && list[n] in sys
    requires WalkInv(su, list, n, sys, live, instance, b0, was, log, dirs, rep, rep0) && OnlyTouches(b, b0, list[n].id)
    requires CallOf(su, b.files, b0.files, list[n].id, o.Hit(), o.DestroyedOrphan?)
    requires o.SkippedForeign? <==> Classify(list[n], instance, su.pool) == Foreign
    requires o.SkippedUnproven? <==> Classify(list[n], instance, su.pool) == Unproven
    requires DealtWith(su, LedgerOf(b), LedgerOf(b0), list[n], rep0.mode, instance, o)
    requires !o.Hit() ==> b.users == b0.users && b.homes == b0.homes
    requires list[n].id in b.agents <==> o.AdoptedOrphan?
    requires o.AdoptedOrphan? ==> list[n].ports == Readable(Range(b.agents[list[n].id].start, b.agents[list[n].id].end))
    ensures WalkInv(su, list, n + 1, sys, live, instance, b, was, LogWith(log, list[n].id, o), DirsAfter(dirs, b.files, o.Hit()),
                    CountOrphan(rep, o), rep0)
  {
    var log' := LogWith(log, list[n].id, o);
    FreshInLog(list, n, instance, su.pool, rep0.mode, b0.agents, log);
    NoDupStep(log, list[n].id);
    CountedStep(list, n, instance, su.pool, |log|, rep, rep0, o);
    WalkedStep(list, n, instance, su.pool, rep0.mode, b0.agents, b.agents, log, log', o);
    UntrackedStep(list, n, b0.agents, b.agents);
    PersistedStep(b0.agents, b.agents, live, sys, list[n]);
    HostKeptStep(b, b0, was.users, was.homes, log, list[n].id, log');
    HistoryStep(su, log, dirs, was.files, b0.files, b.files, rep.destroyed - rep0.destroyed,
                list[n].id, o.Hit(), o.DestroyedOrphan?);
    WalkingStep(su, list, n, rep0.mode, instance, LedgerOf(was), LedgerOf(b), LedgerOf(b0), log, o);
  }

  lemma WalkStart(su: Setup, list: seq<SystemAgent>, sys: seq<SystemAgent>, live: map<Id, Record>, instance: string, b: Books, rep: Report)
    requires Persisted(b.agents, live, sys) && Untracked(list, 0, b.agents)
    ensures WalkInv(su, list, 0, sys, live, instance, b, b, [], [b.files], rep, rep)
  {}

  lemma WalkDone(su: Setup, list: seq<SystemAgent>, sys: seq<SystemAgent>, live: map<Id, Record>, instance: string,
                 b: Books, was: Books, log: seq<Id>, dirs: seq<Files>, rep: Report, rep0: Report)
    requires WalkInv(su, list, |list|, sys, live, instance, b, was, log, dirs, rep, rep0)
    ensures Persisted(b.agents, live, sys) && NoDupIds(log) && HostKept(b.users, b.homes, was.users, was.homes, log)
    ensures WalkResult(list, false, instance, su.pool, b.agents, rep, rep0, log) && rep.refused == rep0.refused
    ensures History(su, log, dirs, was.files, b.files, rep.destroyed - rep0.destroyed)
    ensures Walking(su, list, |list|, rep0.mode, instance, LedgerOf(was)) == Plan(LedgerOf(b), log)
  {}

  /** One more orphan of the walk. */
  method WalkNext(m: AgentManager, list: seq<SystemAgent>, n: nat, ghost sys: seq<SystemAgent>, ghost live: map<Id, Record>,
                  instance: string, env: Host, ghost was: Books, log: seq<Id>, ghost dirs: seq<Files>, rep: Report, rep0: Report)
    returns (rep': Report, log': seq<Id>, ghost dirs': seq<Files>)
    requires m.Valid() && env.Valid() && Settled(m) && n < |list| && DistinctAgents(list)
    requires forall sa :: sa in list ==> sa in sys
    requires WalkInv(SetupOf(m, env), list, n, sys, live, instance, BooksOf(m), was, log, dirs, rep, rep0)
    modifies m, m.tracker, m.pool, m.store, m.dir, m.host
    ensures m.Valid() && Settled(m) && m.calls + |log| == old(m.calls) + |log'|
    ensures WalkInv(SetupOf(m, env), list, n + 1, sys, live, instance, BooksOf(m), was, log', dirs', rep', rep0)
  {
    var o := OrphanOne(m, list[n], rep0.mode, instance, env);
    WalkStep(SetupOf(m, env), list, n, sys, live, instance, BooksOf(m), old(BooksOf(m)), was, log, dirs, rep, rep0, o);
    rep', log', dirs' := CountOrphan(rep, o), LogWith(log, list[n].id, o), DirsAfter(dirs, m.dir.files, o.Hit());
  }

  /** The walk proper, each orphan dealt with once; log lists the destroy calls. */
  method WalkOrphans(m: AgentManager, list: seq<SystemAgent>, ghost sys: seq<SystemAgent>, ghost live: map<Id, Record>,
                     instance: string, env: Host, rep: Report)
    returns (rep': Report, log: seq<Id>, ghost dirs: seq<Files>)
    requires m.Valid() && env.Valid() && Settled(m) && DistinctAgents(list) && Untracked(list, 0, m.tracker.agents)
    requires Persisted(m.tracker.agents, live, sys) && forall sa :: sa in list ==> sa in sys
    modifies m, m.tracker, m.pool, m.store, m.dir, m.host
    ensures m.Valid() && Settled(m) && m.calls == old(m.calls) + |log|
    ensures WalkInv(SetupOf(m, env), list, |list|, sys, live, instance, BooksOf(m), old(BooksOf(m)), log, dirs, rep', rep)
  {
    rep', log, dirs := rep, [], [m.dir.files];
    WalkStart(SetupOf(m, env), list, sys, live, instance, BooksOf(m), rep);
    var i := 0;
    while i < |list|
      invariant 0 <= i <= |list|
      invariant m.Valid() && Settled(m) && m.calls == old(m.calls) + |log|
      invariant WalkInv(SetupOf(m, env), list, i, sys, live, instance, BooksOf(m), old(BooksOf(m)), log, dirs, rep', rep)
    {
      rep', log, dirs := WalkNext(m, list, i, sys, live, instance, env, old(BooksOf(m)), log, dirs, rep', rep);
      i := i + 1;
    }
  }

  /** A drift sweep over settled books finds nothing to release, whoever is mid-spawn. */
  method SweepSettled(m: AgentManager, inFlight: set<Id>) returns (released: nat)
    requires (m.pool != null ==> m.pool.Valid()) && Settled(m)
    modifies m.pool
    ensures (m.pool != null ==> m.pool.Valid()) && Settled(m)
    ensures released == 0 && m.Held() == old(m.Held())
  {
    var gone := Sweep(m, inFlight);
    assert gone == {};
    assert old(m.Held()) - {} == old(m.Held());
    released := |gone|;
  }

  /** registryIsUnproven: nothing live, or a registry file that is new this boot. */
  predicate NoStanding(live: map<Id, Record>, createdThisBoot: bool) {
    live == map[] || createdThisBoot
  }

  /** Where the guarded walk leads: nowhere when it is withheld. */
  ghost function Planned(su: Setup, list: seq<SystemAgent>, refused: bool, mode: Mode, instance: string, start: Ledger): Plan {
    if refused then Plan(start, []) else Walking(su, list, |list|, mode, instance, start)
  }

  /** The guard, the walk and the second drift sweep. */
  method GuardedWalk(m: AgentManager, list: seq<SystemAgent>, ghost sys: seq<SystemAgent>, ghost live: map<Id, Record>,
                     c: Config, inFlight: set<Id>, instance: string, env: Host, rep: Report)
    returns (rep': Report, log: seq<Id>, ghost dirs: seq<Files>)
    requires m.Valid() && env.Valid() && m.store != null
    requires Settled(m) && DistinctAgents(list) && Untracked(list, 0, m.tracker.agents)
    requires Persisted(m.tracker.agents, live, sys) && forall sa :: sa in list ==> sa in sys
    modifies m, m.tracker, m.pool, m.store, m.dir, m.host
    ensures m.Valid() && Settled(m) && Persisted(m.tracker.agents, live, sys)
    ensures NoDupIds(log) && m.calls == old(m.calls) + |log|
    ensures HostKept(m.host.users, m.host.homes, old(m.host.users), old(m.host.homes), log)
    ensures WalkResult(list, GuardRefuses(c, NoStanding(old(m.store.live), m.store.createdThisBoot), |list|), instance, PoolOf(m),
                       m.tracker.agents, rep', rep, log)
    ensures History(SetupOf(m, env), log, dirs, old(m.dir.files), m.dir.files, rep'.destroyed - rep.destroyed)
    ensures rep'.refused > rep.refused ==> BooksOf(m) == old(BooksOf(m))
    ensures Planned(SetupOf(m, env), list, GuardRefuses(c, NoStanding(old(m.store.live), m.store.createdThisBoot), |list|),
                    rep.mode, instance, old(LedgerOf(BooksOf(m)))) == Plan(LedgerOf(BooksOf(m)), log)
  {
    if GuardRefuses(c, NoStanding(m.store.live, m.store.createdThisBoot), |list|) {
      return rep.(refused := |list|), [], [m.dir.files];
    }
    rep', log, dirs := WalkOrphans(m, list, sys, live, instance, env, rep);
    WalkDone(SetupOf(m, env), list, sys, live, instance, BooksOf(m), old(BooksOf(m)), log, dirs, rep', rep);
    var released := SweepSettled(m, inFlight);
    rep' := rep'.(portPoolReleased := rep'.portPoolReleased + released);
  }

  /** The host's agents that the registry did not know as live, in host order. */
  function OrphansOf(list: seq<SystemAgent>, known: set<Id>): (r: seq<SystemAgent>)
    ensures forall sa :: sa in r <==> sa in list && sa.id !in known
  {
    if list == [] then []
    else
      var last := list[|list| - 1];
      OrphansOf(list[..|list| - 1], known) + (if last.id in known then [] else [last])
  }

  lemma {:induction false} OrphansDistinct(list: seq<SystemAgent>, known: set<Id>)
    requires DistinctAgents(list)
    ensures DistinctAgents(OrphansOf(list, known))
  {
    if list != [] {
      OrphansDistinct(list[..|list| - 1], known);
    }
  }

  /** The filter in front of the walk: neither live in the registry now nor dealt with by the replay. */
  method FindOrphans(list: seq<SystemAgent>, live: set<Id>, handled: seq<Id>, ghost known: set<Id>) returns (r: seq<SystemAgent>)
    requires forall id :: id in live || id in handled <==> id in known
    ensures r == OrphansOf(list, known)
  {
    r := [];
    var i := 0;
    while i < |list|
      invariant 0 <= i <= |list|
      invariant r == OrphansOf(list[..i], known)
    {
      assert list[..i + 1][..i] == list[..i];
      if !(list[i].id in live || list[i].id in handled) {
        r := r + [list[i]];
      }
      i := i + 1;
    }
    assert list[..i] == list;
  }

  /** Both logs name every destroy call of the pass, no id twice. */
  lemma LogsDisjoint(a: seq<Id>, b: seq<Id>, known: set<Id>)
    requires NoDupIds(a) && NoDupIds(b)
    requires (forall id :: id in a ==> id in known) && (forall id :: id in b ==> id !in known)
    ensures NoDupIds(a + b)
  {
    forall i, j | 0 <= i < j < |a + b| ensures (a + b)[i] != (a + b)[j] {
      assert i < |a| ==> a[i] in a;
      assert j >= |a| ==> b[j - |a|] in b;
    }
  }

  lemma HostKeptChain(u2: set<Id>, h2: set<Id>, u1: set<Id>, h1: set<Id>, u0: set<Id>, h0: set<Id>, a: seq<Id>, b: seq<Id>)
    requires HostKept(u1, h1, u0, h0, a) && HostKept(u2, h2, u1, h1, b)
    ensures HostKept(u2, h2, u0, h0, a + b)
  {
    forall id ensures HostKeptAt(u2, h2, u0, h0, a + b, id) {
      assert HostKeptAt(u1, h1, u0, h0, a, id) && HostKeptAt(u2, h2, u1, h1, b, id);
    }
  }

  /** What the guarded walk leaves of the report: everything withheld, or every orphan dealt with. */
  ghost predicate WalkResult(orphans: seq<SystemAgent>, refused: bool, instance: string, pool: Option<Geometry>,
                             agents: map<Id, AgentRecord>, rep: Report, was: Report, log: seq<Id>) {
    if refused then log == [] && rep == was.(refused := |orphans|)
    else && Walked(orphans, |orphans|, instance, pool, was.mode, agents, log)
         && Counted(orphans, |orphans|, instance, pool, |log|, rep, was)
  }

  lemma SettleOrphans(list: seq<SystemAgent>, known: set<Id>, instance: string, pool: Option<Geometry>,
                      agents: map<Id, AgentRecord>, c: Config, unproven: bool, rep: Report, was: Report, log: seq<Id>)
    requires var orphans := OrphansOf(list, known);
             WalkResult(orphans, GuardRefuses(c, unproven, |orphans|), instance, pool, agents, rep, was, log)
    requires was.mode == c.RunMode() && ReplayCounters(was, NewReport(c.RunMode()))
    ensures OrphansSettled(list, known, instance, pool, agents, c, unproven, rep, was.destroyed, log)
  {
    var orphans := OrphansOf(list, known);
    forall id | id in log
      ensures id !in known && exists sa :: sa in list && sa.id == id && Classify(sa, instance, pool) == Ours
    {
      assert CalledFor(orphans, |orphans|, instance, pool, id);
      var k :| 0 <= k < |orphans| && orphans[k].id == id && Classify(orphans[k], instance, pool) == Ours;
      assert orphans[k] in orphans;
    }
  }

  /** What one pass promises about the orphans and its destroy calls for them; unproven is asked before the walk. */
  ghost predicate OrphansSettled(list: seq<SystemAgent>, known: set<Id>, instance: string, pool: Option<Geometry>,
                                 agents: map<Id, AgentRecord>, c: Config, unproven: bool,
                                 rep: Report, replayDestroyed: nat, log: seq<Id>) {
    var orphans := OrphansOf(list, known);
    && rep.foreign + rep.unproven + rep.adopted + rep.failed + rep.refused + rep.destroyed == |orphans| + replayDestroyed
    && rep.failed + rep.destroyed == |log| + replayDestroyed
    && (forall id :: id in log ==> exists sa :: sa in list && sa.id == id && Classify(sa, instance, pool) == Ours)
    && (forall id :: id in log ==> id !in known)
    && (rep.refused == 0 ==> Walked(orphans, |orphans|, instance, pool, c.RunMode(), agents, log))
    && (rep.refused == 0 ==> && rep.foreign == CountOf(orphans, |orphans|, instance, pool, Foreign)
                             && rep.unproven == CountOf(orphans, |orphans|, instance, pool, Unproven))
    && (rep.refused > 0 <==> GuardRefuses(c, unproven, |orphans|))
    && (rep.refused > 0 ==> log == [] && rep.refused == |orphans|)
    && (unproven && !c.guardDisabled && c.GuardSeesDestroy() && |log| > 0 ==> |log| <= c.limit)
  }

  function HostIds(list: seq<SystemAgent>): set<Id> {
    set sa | sa in list :: sa.id
  }

  /** What a finished replay walk hands to the orphan walk. */
  lemma ReplayDone(su: Setup, b: Books, was: Books, list: seq<SystemAgent>, present: set<Id>,
                   order: seq<Id>, log: seq<Id>, dirs: seq<Files>, rep: Report, rep0: Report)
    requires ReplayInv(su, b, was, present, order, log, dirs, rep, rep0)
    requires (forall id :: id in order <==> id in was.live) && present == HostIds(list)
    ensures Persisted(b.agents, was.live, list) && Untracked(OrphansOf(list, was.live.Keys), 0, b.agents)
    ensures forall id :: id in b.live || id in order <==> id in was.live.Keys
    ensures NoDupIds(log) && forall id :: id in log ==> id in was.live && exists sa :: sa in list && sa.id == id
  {
    var orphans := OrphansOf(list, was.live.Keys);
    forall k | 0 <= k < |orphans| ensures orphans[k].id !in b.agents {
      assert orphans[k] in orphans;
      UnvisitedUntracked(b.agents, was.live, present, order, log, orphans[k].id);
    }
    forall id ensures PersistedAt(b.agents, was.live, list, id) {
      assert TracksAt(b.agents, was.live, present, order, log, id);
    }
    forall id | id in b.live ensures id in was.live {
      assert FateAt(b.live, was.live, present, su.env.purgeFails, order, log, id);
    }
  }

  /** Where the replay of this registry on this host leads. */
  ghost function ReplayPlan(su: Setup, live: map<Id, Record>, list: seq<SystemAgent>, order: seq<Id>): Replay {
    Replaying(su, order, live, HostIds(list))
  }

  /** The registry after the replay, record by record, and the replay's destroy calls and counters. */
  ghost predicate ReplaySettled(su: Setup, live: map<Id, Record>, was: map<Id, Record>, list: seq<SystemAgent>, order: seq<Id>,
                                log: seq<Id>, rep: Report, mode: Mode) {
    && ReplayPlan(su, was, list, order).log == log && ReplayPlan(su, was, list, order).restored == rep.restored
    && Fates(live, was, HostIds(list), su.env.purgeFails, order, log)
    && ReplayTally(rep, NewReport(mode), order, HostIds(list), |log|, su.env.purgeFails)
    && forall id :: id in log ==> id in was && exists sa :: sa in list && sa.id == id
  }

  /** The replay walk, the first drift sweep and the list of orphans. */
  method ReplayPhase(m: AgentManager, list: seq<SystemAgent>, order: seq<Id>, mode: Mode, inFlight: set<Id>, env: Host)
    returns (rep: Report, log: seq<Id>, orphans: seq<SystemAgent>, ghost dirs: seq<Files>)
    requires m.Valid() && env.Valid() && m.store != null && m.tracker.agents == map[] && m.Held() == map[]
    requires DistinctAgents(list) && NoDupIds(order) && forall id :: id in order <==> id in m.store.live
    modifies m, m.tracker, m.pool, m.store, m.dir, m.host
    ensures m.Valid() && Settled(m) && Persisted(m.tracker.agents, old(m.store.live), list)
    ensures orphans == OrphansOf(list, old(m.store.live).Keys)
    ensures DistinctAgents(orphans) && Untracked(orphans, 0, m.tracker.agents)
    ensures ReplayCounters(rep, NewReport(mode)) && ReplaySettled(SetupOf(m, env), m.store.live, old(m.store.live), list, order, log, rep, mode)
    ensures ReplayPlan(SetupOf(m, env), old(m.store.live), list, order).ledger == LedgerOf(BooksOf(m))
    ensures History(SetupOf(m, env), log, dirs, old(m.dir.files), m.dir.files, rep.destroyed)
    ensures m.calls == old(m.calls) + |log| && NoDupIds(log)
    ensures HostKept(m.host.users, m.host.homes, old(m.host.users), old(m.host.homes), log)
  {
    ghost var known := m.store.live.Keys;
    var present := HostIds(list);
    rep, log, dirs := ReplayWalk(m, order, present, env, NewReport(mode));
    ReplayDone(SetupOf(m, env), BooksOf(m), old(BooksOf(m)), list, present, order, log, dirs, rep, NewReport(mode));
    var released := SweepSettled(m, inFlight);
    rep := rep.(portPoolReleased := rep.portPoolReleased + released);
    orphans := FindOrphans(list, m.store.live.Keys, order, known);
    OrphansDistinct(list, known);
  }

  /** How a pass got where it is: the archives before and after each call, and the registry between the walks. */
  datatype Course = Course(replayDirs: seq<Files>, live: map<Id, Record>, replayDestroyed: nat, walkDirs: seq<Files>)

  /** Where a pass leads: the guarded walk over the orphans, from the books the replay leaves. */
  ghost function PassPlan(su: Setup, live: map<Id, Record>, list: seq<SystemAgent>, order: seq<Id>, c: Config, unproven: bool,
                          instance: string): Plan {
    var orphans := OrphansOf(list, live.Keys);
    Planned(su, orphans, GuardRefuses(c, unproven, |orphans|), c.RunMode(), instance, ReplayPlan(su, live, list, order).ledger)
  }

  /** What one pass promises, from the registry, host and archives it met to the report it gives. */
  ghost predicate PassSettled(su: Setup, b: Books, was: Books, list: seq<SystemAgent>, order: seq<Id>, c: Config, createdThisBoot: bool,
                              instance: string, rep: Report, replayLog: seq<Id>, walkLog: seq<Id>, t: Course) {
    && Persisted(b.agents, was.live, list)
    && ReplaySettled(su, t.live, was.live, list, order, replayLog, rep, c.RunMode())
    && OrphansSettled(list, was.live.Keys, instance, su.pool, b.agents, c, NoStanding(t.live, createdThisBoot),
                      rep, t.replayDestroyed, walkLog)
    && Plan(LedgerOf(b), walkLog) == PassPlan(su, was.live, list, order, c, NoStanding(t.live, createdThisBoot), instance)
    && |t.walkDirs| > 0
    && History(su, replayLog, t.replayDirs, was.files, t.walkDirs[0], t.replayDestroyed)
    && History(su, walkLog, t.walkDirs, t.walkDirs[0], b.files, rep.destroyed - t.replayDestroyed)
  }

  lemma PassDone(su: Setup, b: Books, mid: Books, was: Books, list: seq<SystemAgent>, order: seq<Id>, c: Config, createdThisBoot: bool,
                 instance: string, rep: Report, rep1: Report, replayLog: seq<Id>, walkLog: seq<Id>,
                 replayDirs: seq<Files>, walkDirs: seq<Files>)
    requires Persisted(b.agents, was.live, list) && ReplayCounters(rep1, NewReport(c.RunMode()))
    requires ReplaySettled(su, mid.live, was.live, list, order, replayLog, rep1, c.RunMode())
    requires History(su, replayLog, replayDirs, was.files, mid.files, rep1.destroyed)
    requires var orphans := OrphansOf(list, was.live.Keys);
             WalkResult(orphans, GuardRefuses(c, NoStanding(mid.live, createdThisBoot), |orphans|), instance, su.pool,
                        b.agents, rep, rep1, walkLog)
    requires History(su, walkLog, walkDirs, mid.files, b.files, rep.destroyed - rep1.destroyed)
    requires ReplayPlan(su, was.live, list, order).ledger == LedgerOf(mid)
    requires var orphans := OrphansOf(list, was.live.Keys);
             Planned(su, orphans, GuardRefuses(c, NoStanding(mid.live, createdThisBoot), |orphans|), rep1.mode, instance,
                     LedgerOf(mid)) == Plan(LedgerOf(b), walkLog)
    ensures PassSettled(su, b, was, list, order, c, createdThisBoot, instance, rep, replayLog, walkLog,
                        Course(replayDirs, mid.live, rep1.destroyed, walkDirs))
  {
    SettleOrphans(list, was.live.Keys, instance, su.pool, b.agents, c, NoStanding(mid.live, createdThisBoot), rep, rep1, walkLog);
    SameCounts(su, mid.live, was.live, list, order, replayLog, rep, rep1, c.RunMode());
  }

  /** The orphan walk leaves the replay's counters alone. */
  lemma SameCounts(su: Setup, live: map<Id, Record>, was: map<Id, Record>, list: seq<SystemAgent>, order: seq<Id>,
                   log: seq<Id>, rep: Report, rep1: Report, mode: Mode)
    requires ReplaySettled(su, live, was, list, order, log, rep1, mode)
    requires rep.restored == rep1.restored && rep.restoredForeignPool == rep1.restoredForeignPool && rep.purged == rep1.purged
    ensures ReplaySettled(su, live, was, list, order, log, rep, mode)
  {}

  /** No id is destroyed by both walks, and neither sweep has found anything. */
  lemma PassTidy(list: seq<SystemAgent>, known: set<Id>, refused: bool, instance: string, pool: Option<Geometry>,
                 agents: map<Id, AgentRecord>, mode: Mode, rep: Report, rep1: Report, replayLog: seq<Id>, walkLog: seq<Id>)
    requires ReplayCounters(rep1, NewReport(mode)) && NoDupIds(replayLog) && NoDupIds(walkLog)
    requires forall id :: id in replayLog ==> id in known
    requires WalkResult(OrphansOf(list, known), refused, instance, pool, agents, rep, rep1, walkLog)
    ensures NoDupIds(replayLog + walkLog) && rep.mode == mode && rep.portPoolReleased == 0
  {
    var orphans := OrphansOf(list, known);
    forall id | id in walkLog ensures id !in known {
      assert CalledFor(orphans, |orphans|, instance, pool, id);
      var k :| 0 <= k < |orphans| && orphans[k].id == id;
      assert orphans[k] in orphans;
    }
    LogsDisjoint(replayLog, walkLog, known);
  }

  /** The pass once the registry is open and the host has been listed. */
  method Pass(m: AgentManager, list: seq<SystemAgent>, order: seq<Id>, c: Config,
              inFlight: set<Id>, instance: string, env: Host)
    returns (rep: Report, replayLog: seq<Id>, walkLog: seq<Id>, ghost t: Course)
    requires m.Valid() && env.Valid() && m.store != null && m.tracker.agents == map[] && m.Held() == map[]
    requires DistinctAgents(list) && NoDupIds(order) && forall id :: id in order <==> id in m.store.live
    modifies m, m.tracker, m.pool, m.store, m.dir, m.host
    ensures m.Valid() && Settled(m)
    ensures rep.portPoolReleased == 0 && rep.mode == c.RunMode()
    ensures m.calls == old(m.calls) + |replayLog + walkLog| && NoDupIds(replayLog + walkLog)
    ensures HostKept(m.host.users, m.host.homes, old(m.host.users), old(m.host.homes), replayLog + walkLog)
    ensures PassSettled(SetupOf(m, env), BooksOf(m), old(BooksOf(m)), list, order, c, m.store.createdThisBoot, instance,
                        rep, replayLog, walkLog, t)
  {
    ghost var live := m.store.live;
    var orphans;
    ghost var replayDirs, walkDirs;
    rep, replayLog, orphans, replayDirs := ReplayPhase(m, list, order, c.RunMode(), inFlight, env);
    ghost var was := rep;
    label Replayed:
    rep, walkLog, walkDirs := GuardedWalk(m, orphans, list, live, c, inFlight, instance, env, rep);
    t := Course(replayDirs, old@Replayed(m.store.live), was.destroyed, walkDirs);
    PassDone(SetupOf(m, env), BooksOf(m), old@Replayed(BooksOf(m)), old(BooksOf(m)), list, order, c, m.store.createdThisBoot,
             instance, rep, was, replayLog, walkLog, replayDirs, walkDirs);
    PassTidy(list, live.Keys, GuardRefuses(c, NoStanding(t.live, m.store.createdThisBoot), |orphans|), instance, PoolOf(m),
             m.tracker.agents, c.RunMode(), rep, was, replayLog, walkLog);
    HostKeptChain(m.host.users, m.host.homes, old@Replayed(m.host.users), old@Replayed(m.host.homes),
                  old(m.host.users), old(m.host.homes), replayLog, walkLog);
  }

  /** A pass that never reaches the walks leaves everything as it is. */
  ghost predicate NothingDone(b: Books, was: Books, rep: Report, c: Config, logs: seq<Id>) {
    b == was && rep == NewReport(c.RunMode()) && logs == []
  }

  /**
   Reconcile, the synchronous form, from an empty tracker and allocator. listed is None when the
   host could not be enumerated; order is the registry's iteration order.
   */
  method Reconcile(m: AgentManager, listed: Option<seq<SystemAgent>>, order: seq<Id>, c: Config,
                   inFlight: set<Id>, instance: string, env: Host)
    returns (rep: Report, replayLog: seq<Id>, walkLog: seq<Id>, ghost t: Course)
    requires m.Valid() && env.Valid() && m.tracker.agents == map[] && m.Held() == map[]
    requires listed.Some? ==> DistinctAgents(listed.value)
    requires m.store != null ==> NoDupIds(order) && forall id :: id in order <==> id in m.store.live
    modifies m, m.tracker, m.pool, m.store, m.dir, m.host
    ensures m.Valid() && Settled(m) && rep.portPoolReleased == 0 && rep.mode == c.RunMode()
    ensures m.store == null || listed.None? ==> NothingDone(BooksOf(m), old(BooksOf(m)), rep, c, replayLog + walkLog)
    ensures m.calls == old(m.calls) + |replayLog + walkLog| && NoDupIds(replayLog + walkLog)
    ensures HostKept(m.host.users, m.host.homes, old(m.host.users), old(m.host.homes), replayLog + walkLog)
    ensures m.store != null && listed.Some? ==>
      PassSettled(SetupOf(m, env), BooksOf(m), old(BooksOf(m)), listed.value, order, c, m.store.createdThisBoot, instance,
                  rep, replayLog, walkLog, t)
  {
    if m.store == null || listed.None? {
      return NewReport(c.RunMode()), [], [], Course([], map[], 0, []);
    }
    rep, replayLog, walkLog, t := Pass(m, listed.value, order, c, inFlight, instance, env);
  }
}
