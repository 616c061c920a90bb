/**
 Startup reconciliation (internal/agent/reconcile.go): the replay walk over the
 durable registry, the two drift sweeps and the orphan walk, with every registry
 write, adoption stage and destroy free to fail.
 */
module Reconciliation {
  import opened PortPool
  import opened Records
  import opened Archive
  import opened Lifecycle

  // ---- configuration ----

  datatype Mode = DestroyMode | AdoptMode

  /** agent.reconciliation as configured; mode is the raw string. */
  datatype Config = Config(mode: string, guardDisabled: bool, limit: int) {

    predicate Validates() {
      limit >= 0 && (mode == "" || mode == "destroy" || mode == "adopt")
    }

    /** The mode the walk runs in: anything invalid falls back to destroy. */
    function RunMode(): Mode {
      if Validates() && mode == "adopt" then AdoptMode else DestroyMode
    }

    /** What the sweep guard looks at: ModeOrDestroy of the raw string. */
    predicate GuardSeesDestroy() {
      mode == "" || mode == "destroy"
    }
  }

  /** sweepRefusal for n orphans. */
  predicate GuardRefuses(c: Config, unproven: bool, n: nat) {
    n != 0 && !c.guardDisabled && unproven && c.GuardSeesDestroy() && n > c.limit
  }

  /**
   The guard withholds every oversized unproven destroy sweep, unless the configuration
   fails validation with a mode string that is not destroy: then the walk destroys and
   the guard looks away.
   */
  lemma GuardCoversDestroyModeExactly(c: Config)
    requires !c.guardDisabled
    ensures (forall n: nat :: c.RunMode() == DestroyMode && n > 0 && n > c.limit ==> GuardRefuses(c, true, n))
            <==> (c.RunMode() == DestroyMode ==> c.GuardSeesDestroy())
  {
    var big: nat := if c.limit < 0 then 1 else c.limit + 1;
    assert !c.GuardSeesDestroy() ==> !GuardRefuses(c, true, big);
  }

  /** A negative limit in adopt mode is such a configuration: the guard is off and the walk destroys. */
  lemma NegativeLimitDisarmsGuard(n: nat)
    ensures var c := Config("adopt", false, -1);
            !c.guardDisabled && c.RunMode() == DestroyMode && !GuardRefuses(c, true, n)
  {}

  // ---- orphans ----

  datatype Meta<+T> = Readable(value: T) | Malformed | Missing | Unreadable

  /** A bunker-* user on the host with what its home says about owner and ports. */
  datatype SystemAgent = SystemAgent(id: Id, owner: Meta<string>, ports: Meta<Range>)

  datatype Disposition = Ours | Foreign | Unproven

  predicate OutsidePool(g: Geometry, r: Range) {
    r.end < g.start || r.start > g.end
  }

  /** classifyOrphan; instance is "" when the daemon has no identity. */
  function Classify(sa: SystemAgent, instance: string, pool: Option<Geometry>): Disposition {
    if sa.owner.Readable? && instance != "" then
      if sa.owner.value != instance then Foreign else Ours
    else if sa.owner.Unreadable? then Unproven
    else match sa.ports
      case Readable(r) => if pool.Some? && OutsidePool(pool.value, r) then Foreign else Ours
      case Malformed => Ours
      case Missing => Unproven
      case Unreadable => Unproven
  }

  /** No marker that can be compared with this daemon's identity, but none that is hidden either. */
  predicate Unmarked(sa: SystemAgent, instance: string) {
    !sa.owner.Unreadable? && (sa.owner.Readable? ==> instance == "")
  }

  /**
   An orphan is acted on exactly when something readable speaks for it: our own marker, or,
   with no usable marker, port metadata that can be read and is not another pool's. It is
   foreign exactly when something readable speaks against it; the rest is unproven.
   */
  lemma DispositionExactly(sa: SystemAgent, instance: string, pool: Option<Geometry>)
    ensures Classify(sa, instance, pool) == Ours <==>
            || (instance != "" && sa.owner == Readable(instance))
            || (Unmarked(sa, instance) && !sa.ports.Missing? && !sa.ports.Unreadable?
                && (sa.ports.Readable? && pool.Some? ==> !OutsidePool(pool.value, sa.ports.value)))
    ensures Classify(sa, instance, pool) == Foreign <==>
            || (instance != "" && sa.owner.Readable? && sa.owner.value != instance)
            || (Unmarked(sa, instance) && sa.ports.Readable? && pool.Some? && OutsidePool(pool.value, sa.ports.value))
  {}

  // ---- the books that reconciliation must leave behind ----

  predicate Exact(g: Geometry, slot: nat, rec: AgentRecord)
    requires g.rangeSize > 0
  {
    slot == rec.start && RangeAt(g, rec.start) == Range(rec.start, rec.end)
  }

  /** Every held range has its tracked owner; every tracked agent holds its range or is outside the pool. */
  ghost predicate SettledBooks(pool: Option<Geometry>, held: map<Id, nat>, agents: map<Id, AgentRecord>) {
    match pool
    case None => held == map[]
    case Some(g) =>
      && g.rangeSize > 0
      && (forall id :: id in held ==> id in agents && Exact(g, held[id], agents[id]))
      && (forall id :: id in agents ==>
            (id in held && Exact(g, held[id], agents[id])) || OutsidePool(g, Range(agents[id].start, agents[id].end)))
  }

  /** A tracked agent's range is the one persisted for it, in the registry or in its home. */
  ghost predicate PersistedAt(agents: map<Id, AgentRecord>, live: map<Id, Record>, sys: seq<SystemAgent>, id: Id) {
    id in agents ==>
      || (id in live && agents[id].start == live[id].start && agents[id].end == live[id].end)
      || (exists sa :: sa in sys && sa.id == id && sa.ports == Readable(Range(agents[id].start, agents[id].end)))
  }

  ghost predicate Persisted(agents: map<Id, AgentRecord>, live: map<Id, Record>, sys: seq<SystemAgent>) {
    forall id :: PersistedAt(agents, live, sys, id)
  }

  /** A range outside the pool shares no port with any range the pool can hand out. */
  lemma OutsideIsDisjoint(g: Geometry, r: Range, s: nat)
    requires g.Valid() && g.IsSlot(s) && OutsidePool(g, r)
    ensures s < U32_SPAN && Disjoint(r, RangeAt(g, s))
  {
    SlotInPool(g, s);
  }

  /** In settled books an agent that holds a pool range shares no port with any other tracked agent. */
  lemma SettledDisjoint(g: Geometry, held: map<Id, nat>, free: seq<nat>, agents: map<Id, AgentRecord>, a: Id, b: Id)
    requires Balanced(g, held, free) && SettledBooks(Some(g), held, agents)
    requires a in agents && b in agents && a != b && a in held
    ensures Disjoint(Range(agents[a].start, agents[a].end), Range(agents[b].start, agents[b].end))
  {
    if b in held {
      HeldRangesDisjoint(g, held, free, a, b);
    } else {
      OutsideIsDisjoint(g, Range(agents[b].start, agents[b].end), held[a]);
    }
  }

  // ---- the host's answers ----

  datatype AdoptHost = AdoptHost(presetOk: bool, userOk: bool, unitOk: bool, sliceOk: bool, persistWriteOk: bool) {
    predicate StagesOk() {
      presetOk && userOk && unitOk && sliceOk
    }
  }

  /** Answers by id, with a common one for every id that has none of its own, and the registry writes that fail. */
  datatype Host = Host(
    destroys: map<Id, DestroyHost>,
    otherDestroy: DestroyHost,
    adopts: map<Id, AdoptHost>,
    otherAdopt: AdoptHost,
    purgeFails: set<Id>,
    dropFails: set<Id>)
  {
    ghost predicate Valid() {
      otherDestroy.Valid() && forall id :: id in destroys ==> destroys[id].Valid()
    }

    function Destroy(id: Id): DestroyHost {
      if id in destroys then destroys[id] else otherDestroy
    }

    function Adopt(id: Id): AdoptHost {
      if id in adopts then adopts[id] else otherAdopt
    }
  }

  datatype Report = Report(
    mode: Mode, restored: nat, restoredForeignPool: nat, purged: nat, adopted: nat, destroyed: nat,
    failed: nat, foreign: nat, unproven: nat, refused: nat, portPoolReleased: nat)

  function NewReport(mode: Mode): Report {
    Report(mode, 0, 0, 0, 0, 0, 0, 0, 0, 0, 0)
  }

  function PoolOf(m: AgentManager): Option<Geometry> {
    if m.pool == null then None else Some(m.pool.geo)
  }

  ghost predicate Settled(m: AgentManager)
    reads m.pool, m.tracker
  {
    SettledBooks(PoolOf(m), m.Held(), m.tracker.agents)
  }

  // ---- single steps ----

  /** dropHalfManagedState. */
  method DropHalfManaged(m: AgentManager, id: Id)
    requires m.pool != null ==> m.pool.Valid()
    modifies m.pool, m.tracker
    ensures m.pool != null ==> m.pool.Valid()
    ensures m.Held() == old(m.Held()) - {id} && m.tracker.agents == old(m.tracker.agents) - {id}
  {
    m.tracker.Unregister(id);
    m.FreePorts(id);
  }

  /** sweepPortPoolDrift with nothing else running; inFlight are the spawns it must not disturb. */
  method Sweep(m: AgentManager, inFlight: set<Id>) returns (released: set<Id>)
    requires m.pool != null ==> m.pool.Valid()
    modifies m.pool
    ensures m.pool != null ==> m.pool.Valid()
    ensures forall id :: id in released <==> id in old(m.Held()) && id !in inFlight && id !in m.tracker.agents
    ensures m.Held() == old(m.Held()) - released
  {
    released := {};
    if m.pool != null {
      var agents := m.tracker.agents;
      released := m.pool.ReconcileFrom(id => id in inFlight || id in agents);
    }
  }

  /** Reserve would succeed: already held at this start, or a whole free sub-range. */
  ghost predicate Reservable(pool: Option<Geometry>, held: map<Id, nat>, id: Id, r: Range) {
    pool.Some? && pool.value.rangeSize > 0 ==>
      if id in held then held[id] == r.start
      else pool.value.IsSlot(r.start) && r == RangeAt(pool.value, r.start) && r.start !in held.Values
  }

  predicate Registrable(t: Tracker, id: Id)
    reads t
  {
    id in t.agents || |t.agents| < t.maxAgents
  }

  /** restoreAgent: the exact reservation first, then the tracker record, undone if that fails. */
  method RestoreAgent(m: AgentManager, id: Id, rec: Record) returns (ok: bool)
    requires m.pool != null ==> m.pool.Valid()
    modifies m.pool, m.tracker
    ensures m.pool != null ==> m.pool.Valid()
    ensures ok <==>
      && (m.pool != null ==> rec.start != 0 && rec.end != 0)
      && Reservable(PoolOf(m), old(m.Held()), id, Range(rec.start, rec.end)) && old(Registrable(m.tracker, id))
    ensures ok ==>
      && m.tracker.agents == (if id in old(m.tracker.agents) then old(m.tracker.agents)
                              else old(m.tracker.agents)[id := AgentRecord(Running, rec.start, rec.end)])
      && m.Held() == (if m.pool == null then map[] else old(m.Held())[id := rec.start])
      && (m.pool != null && id !in old(m.Held()) ==> Exact(m.pool.geo, rec.start, AgentRecord(Running, rec.start, rec.end)))
    ensures !ok ==> m.tracker.agents == old(m.tracker.agents)
                    && (m.Held() == old(m.Held()) || m.Held() == old(m.Held()) - {id})
  {
    if m.pool != null {
      if rec.start == 0 || rec.end == 0 {
        return false;
      }
      ok := m.pool.Reserve(id, Range(rec.start, rec.end));
      if !ok {
        return;
      }
    }
    ok := true;
    if id !in m.tracker.agents {
      ok := m.tracker.Register(id, AgentRecord(Running, rec.start, rec.end));
      if !ok {
        m.FreePorts(id);
        assert m.Held() == old(m.Held()) - {id};
      }
    }
  }

  type Files = map<string, Entry>

  /** Everything reconciliation can move: reservations, tracker, durable records, users, homes and archives. */
  datatype Books = Books(held: map<Id, nat>, agents: map<Id, AgentRecord>, live: map<Id, Record>,
                         users: set<Id>, homes: set<Id>, files: Files)

  ghost function BooksOf(m: AgentManager): Books
    reads m.pool, m.tracker, m.store, m.host, m.dir
  {
    Books(m.Held(), m.tracker.agents, m.LiveRecords(), m.host.users, m.host.homes, m.dir.files)
  }

  /** The part of the books that decides what can still be restored or adopted. */
  datatype Ledger = Ledger(held: map<Id, nat>, agents: map<Id, AgentRecord>)

  function LedgerOf(b: Books): Ledger {
    Ledger(b.held, b.agents)
  }

  /** What does not change during a pass: the pool, the tracker's room, the archive policy and the host's answers. */
  datatype Setup = Setup(pool: Option<Geometry>, maxAgents: nat, durable: bool, archivePolicy: bool, keep: int, maxBytes: int, env: Host) {

    predicate Room(l: Ledger, id: Id) {
      id in l.agents || |l.agents| < maxAgents
    }

    /** The books with one more agent on its own range. */
    function Add(l: Ledger, id: Id, start: u32, end: u32): Ledger {
      Ledger(if pool.None? then map[] else l.held[id := start], l.agents[id := AgentRecord(Running, start, end)])
    }
  }

  function SetupOf(m: AgentManager, env: Host): Setup {
    Setup(PoolOf(m), m.tracker.maxAgents, m.store != null, m.archivePolicy, m.keep, m.maxBytes, env)
  }

  /** Nothing but id's own entries may differ. */
  ghost predicate OnlyTouches(b: Books, was: Books, id: Id) {
    && b.held - {id} == was.held - {id} && b.agents - {id} == was.agents - {id} && b.live - {id} == was.live - {id}
    && b.users - {id} == was.users - {id} && b.homes - {id} == was.homes - {id}
  }

  /** A forced destroy comes through: gate, archive if the policy wants one, and one of two userdels. */
  predicate ForcedDestroyWorks(archivePolicy: bool, files: Files, id: Id, h: DestroyHost) {
    && ValidId(id) && GateOpens(true, h)
    && (archivePolicy && h.homeNonEmpty ==> ArchiveWorks(h.archive, files))
    && (h.firstUserdel.Busy? ==> h.secondUserdel.Removed?)
  }

  predicate Works(su: Setup, files: Files, id: Id) {
    ForcedDestroyWorks(su.archivePolicy, files, id, su.env.Destroy(id))
  }

  /** What one forced destroy of id may do to the archive directory. */
  ghost predicate CallLeaves(su: Setup, files: Files, was: Files, id: Id) {
    var h := su.env.Destroy(id);
    ArchiveLeft(files, was, ValidId(id) && GateOpens(true, h) && h.homeNonEmpty && su.archivePolicy, h, su.keep, su.maxBytes)
  }

  /** A destroy call, if there was one, that worked exactly as it should; otherwise the archives are as they were. */
  ghost predicate CallOf(su: Setup, files: Files, was: Files, id: Id, hit: bool, worked: bool) {
    if hit then CallLeaves(su, files, was, id) && (worked <==> Works(su, was, id)) else files == was
  }

  ghost predicate CallAt(su: Setup, log: seq<Id>, dirs: seq<Files>, j: nat)
    requires |dirs| == |log| + 1 && j < |log|
  {
    CallLeaves(su, dirs[j + 1], dirs[j], log[j])
  }

  /** The archive directory before every destroy call of the log and after the last. */
  ghost predicate Calls(su: Setup, log: seq<Id>, dirs: seq<Files>) {
    |dirs| == |log| + 1 && forall j :: 0 <= j < |log| ==> CallAt(su, log, dirs, j)
  }

  /** How many of the calls worked. */
  function Successes(su: Setup, log: seq<Id>, dirs: seq<Files>): nat
    requires |dirs| == |log| + 1
  {
    if log == [] then 0
    else
      var n := |log| - 1;
      Successes(su, log[..n], dirs[..n + 1]) + if Works(su, dirs[n], log[n]) then 1 else 0
  }

  /** The calls lead from one state of the archives to another, and this many of them are reported destroyed. */
  ghost predicate History(su: Setup, log: seq<Id>, dirs: seq<Files>, was: Files, files: Files, destroyed: int) {
    Calls(su, log, dirs) && dirs[0] == was && dirs[|log|] == files && destroyed == Successes(su, log, dirs)
  }

  lemma HistoryStep(su: Setup, log: seq<Id>, dirs: seq<Files>, was: Files, before: Files, files: Files, destroyed: int,
                    id: Id, hit: bool, worked: bool)
    requires History(su, log, dirs, was, before, destroyed) && CallOf(su, files, before, id, hit, worked)
    ensures History(su, if hit then log + [id] else log, if hit then dirs + [files] else dirs, was, files,
                    destroyed + if hit && worked then 1 else 0)
  {
    if hit {
      assert (log + [id])[..|log|] == log && (dirs + [files])[..|dirs|] == dirs;
      forall j | 0 <= j < |log| + 1 ensures CallAt(su, log + [id], dirs + [files], j) {
        assert j < |log| ==> CallAt(su, log, dirs, j);
      }
    }
  }

  /** destroyOrphan: a forced destroy under the configured policy; an error unless it reports destroyed. */
  method DestroyOrphan(m: AgentManager, id: Id, h: DestroyHost) returns (ok: bool)
    requires m.Valid() && h.Valid()
    requires id !in m.tracker.agents && id !in m.Held()
    modifies m, m.tracker, m.pool, m.store, m.dir, m.host
    ensures m.Valid() && m.calls == old(m.calls) + 1
    ensures m.Held() == old(m.Held()) && m.tracker.agents == old(m.tracker.agents)
    ensures OnlyTouches(BooksOf(m), old(BooksOf(m)), id)
    ensures ok && (h.firstUserdel.Absent? ==> id !in old(m.host.users)) ==> id !in m.host.users
    ensures ok <==> ForcedDestroyWorks(m.archivePolicy, old(m.dir.files), id, h)
    ensures ArchiveLeft(m.dir.files, old(m.dir.files), m.Archives(id, true, false, h), h, m.keep, m.maxBytes)
    ensures !ValidId(id) || !GateOpens(true, h) ==> m.host.users == old(m.host.users) && m.host.homes == old(m.host.homes)
  {
    var status, _, _ := m.Destroy(id, true, false, h);
    assert old(m.Held()) - {id} == old(m.Held());
    assert old(m.tracker.agents) - {id} == old(m.tracker.agents);
    ok := status == Destroyed;
  }

  /** failClosedRestore. */
  method FailClosed(m: AgentManager, id: Id, env: Host) returns (destroyed: bool)
    requires m.Valid() && env.Valid() && m.store != null
    modifies m, m.tracker, m.pool, m.store, m.dir, m.host
    ensures m.Valid() && m.calls == old(m.calls) + 1
    ensures m.Held() == old(m.Held()) - {id} && m.tracker.agents == old(m.tracker.agents) - {id}
    ensures OnlyTouches(BooksOf(m), old(BooksOf(m)), id)
    ensures CallOf(SetupOf(m, env), m.dir.files, old(m.dir.files), id, true, destroyed)
  {
    DropHalfManaged(m, id);
    var _ := m.store.AppendDestroy(id, id !in env.dropFails);
    destroyed := DestroyOrphan(m, id, env.Destroy(id));
  }

  /** The range passes validation and can be reserved exactly. */
  ghost predicate Pinnable(pool: Option<Geometry>, held: map<Id, nat>, id: Id, r: Range) {
    && (pool.Some? ==> pool.value.rangeSize > 0 && pool.value.Accepts(r))
    && Reservable(pool, held, id, r)
  }

  /** The adopted range: validated, then pinned exactly. */
  method AdoptReserve(m: AgentManager, id: Id, r: Range) returns (ok: bool)
    requires m.pool != null ==> m.pool.Valid()
    modifies m.pool
    ensures m.pool != null ==> m.pool.Valid()
    ensures ok <==> Pinnable(PoolOf(m), old(m.Held()), id, r)
    ensures ok ==> m.Held() == (if m.pool == null then map[] else old(m.Held())[id := r.start])
    ensures ok && m.pool != null ==> Exact(m.pool.geo, r.start, AgentRecord(Running, r.start, r.end))
    ensures !ok ==> m.Held() == old(m.Held())
  {
    ok := true;
    if m.pool != null {
      ok := m.pool.geo.Accepts(r);
      if ok {
        ok := m.pool.Reserve(id, r);
      }
    }
  }

  lemma AddedGone<V>(m: map<Id, V>, id: Id, v: V)
    ensures m[id := v] - {id} == m - {id}
  {}

  /** Tracker record and durable record, both or neither. */
  method AdoptRecord(m: AgentManager, id: Id, r: Range, persistWriteOk: bool) returns (ok: bool)
    modifies m.tracker, m.store
    ensures ok <==> old(Registrable(m.tracker, id)) && (m.store != null ==> id != "" && persistWriteOk)
    ensures ok ==>
      && m.tracker.agents == (if id in old(m.tracker.agents) then old(m.tracker.agents)
                              else old(m.tracker.agents)[id := AgentRecord(Running, r.start, r.end)])
      && (m.store != null ==> id in m.store.live)
    ensures !ok ==> m.tracker.agents - {id} == old(m.tracker.agents) - {id} && m.LiveRecords() == old(m.LiveRecords())
    ensures m.LiveRecords() - {id} == old(m.LiveRecords()) - {id}
  {
    if id !in m.tracker.agents {
      var registered := m.tracker.Register(id, AgentRecord(Running, r.start, r.end));
      if !registered {
        return false;
      }
    }
    ok := true;
    if m.store != null {
      ok := m.store.AppendSpawn(id, r.start, r.end, persistWriteOk);
      AddedGone(old(m.store.live), id, Record(r.start, r.end, None));
      if !ok {
        m.tracker.Unregister(id);
        AddedGone(old(m.tracker.agents), id, AgentRecord(Running, r.start, r.end));
      }
    }
  }

  /** The stages behind the reservation; any failure gives it back. */
  method AdoptPinned(m: AgentManager, id: Id, r: Range, a: AdoptHost) returns (ok: bool)
    requires m.pool != null ==> m.pool.Valid()
    modifies m.pool, m.tracker, m.store
    ensures m.pool != null ==> m.pool.Valid()
    ensures ok <==> a.StagesOk() && old(Registrable(m.tracker, id)) && (m.store != null ==> id != "" && a.persistWriteOk)
    ensures ok ==>
      && m.tracker.agents == (if id in old(m.tracker.agents) then old(m.tracker.agents)
                              else old(m.tracker.agents)[id := AgentRecord(Running, r.start, r.end)])
      && m.Held() == old(m.Held()) && (m.store != null ==> id in m.store.live)
    ensures !ok ==> m.Held() == old(m.Held()) - {id} && m.tracker.agents - {id} == old(m.tracker.agents) - {id}
                    && m.LiveRecords() == old(m.LiveRecords())
    ensures m.LiveRecords() - {id} == old(m.LiveRecords()) - {id}
  {
    ok := a.StagesOk();
    if ok {
      ok := AdoptRecord(m, id, r, a.persistWriteOk);
    }
    if !ok {
      m.FreePorts(id);
    }
  }

  /** Every stage of an adoption works out: readable and reservable ports, host, tracker, registry. */
  ghost predicate Adoptable(pool: Option<Geometry>, held: map<Id, nat>, room: bool, durable: bool, sa: SystemAgent, a: AdoptHost) {
    && sa.ports.Readable? && a.StagesOk() && Pinnable(pool, held, sa.id, sa.ports.value)
    && room && (durable ==> sa.id != "" && a.persistWriteOk)
  }

  /** adoptAgent: exact port or nothing; every failed stage gives the reservation back. */
  method AdoptAgent(m: AgentManager, sa: SystemAgent, a: AdoptHost) returns (ok: bool)
    requires m.pool != null ==> m.pool.Valid()
    modifies m.pool, m.tracker, m.store
    ensures m.pool != null ==> m.pool.Valid()
    ensures ok <==> Adoptable(PoolOf(m), old(m.Held()), old(Registrable(m.tracker, sa.id)), m.store != null, sa, a)
    ensures ok ==>
      && sa.ports.Readable?
      && m.tracker.agents == (if sa.id in old(m.tracker.agents) then old(m.tracker.agents)
                              else old(m.tracker.agents)[sa.id := AgentRecord(Running, sa.ports.value.start, sa.ports.value.end)])
      && m.Held() == (if m.pool == null then map[] else old(m.Held())[sa.id := sa.ports.value.start])
      && (m.pool != null ==> Exact(m.pool.geo, sa.ports.value.start, AgentRecord(Running, sa.ports.value.start, sa.ports.value.end)))
      && (m.store != null ==> sa.id in m.store.live)
    ensures !ok ==> m.Held() - {sa.id} == old(m.Held()) - {sa.id}
                    && m.tracker.agents - {sa.id} == old(m.tracker.agents) - {sa.id}
                    && m.LiveRecords() == old(m.LiveRecords())
    ensures m.LiveRecords() - {sa.id} == old(m.LiveRecords()) - {sa.id}
  {
    if !sa.ports.Readable? {
      return false;
    }
    ok := AdoptReserve(m, sa.id, sa.ports.value);
    if !ok {
      return;
    }
    ok := AdoptPinned(m, sa.id, sa.ports.value, a);
  }

  // ---- the replay walk ----

  /** What became of a replayed record; Purged when its user is not on the host. */
  datatype Replayed = Restored | Tolerated | FailedClosed(destroyed: bool) | Purged(ok: bool)

  /** restoreAgent on settled books, for an id that is not tracked yet. */
  method RestoreSettled(m: AgentManager, id: Id, rec: Record) returns (ok: bool)
    requires (m.pool != null ==> m.pool.Valid()) && Settled(m) && id !in m.tracker.agents
    modifies m.pool, m.tracker
    ensures (m.pool != null ==> m.pool.Valid()) && Settled(m)
    ensures ok <==> Restorable(PoolOf(m), old(m.Held()), old(Registrable(m.tracker, id)), id, rec)
    ensures ok ==> m.tracker.agents == old(m.tracker.agents)[id := AgentRecord(Running, rec.start, rec.end)]
    ensures ok ==> m.Held() == if m.pool == null then map[] else old(m.Held())[id := rec.start]
    ensures m.Held() - {id} == old(m.Held()) - {id}
    ensures !ok ==> m.Held() == old(m.Held()) && m.tracker.agents == old(m.tracker.agents)
  {
    SettledFresh(PoolOf(m), m.Held(), m.tracker.agents, id);
    ok := RestoreAgent(m, id, rec);
    if ok {
      SettledAdd(PoolOf(m), old(m.Held()), old(m.tracker.agents), id, rec.start, rec.end);
    }
  }

  /** After a refused restore: tolerated when the range lies outside the pool, otherwise failed closed. */
  method TolerateOrFail(m: AgentManager, id: Id, rec: Record, env: Host) returns (r: Replayed)
    requires m.Valid() && env.Valid() && m.store != null && Settled(m) && id !in m.tracker.agents
    modifies m, m.tracker, m.pool, m.store, m.dir, m.host
    ensures m.Valid() && Settled(m)
    ensures OnlyTouches(BooksOf(m), old(BooksOf(m)), id)
    ensures m.calls == old(m.calls) + (if r.FailedClosed? then 1 else 0)
    ensures !r.FailedClosed? ==> m.host.users == old(m.host.users) && m.host.homes == old(m.host.homes)
    ensures CallOf(SetupOf(m, env), m.dir.files, old(m.dir.files), id, r.FailedClosed?, r.FailedClosed? && r.destroyed)
    ensures id in m.tracker.agents ==> m.tracker.agents[id].start == rec.start && m.tracker.agents[id].end == rec.end
    ensures if ForeignPool(PoolOf(m), rec) then r.Tolerated? else r.FailedClosed?
    ensures m.Held() == old(m.Held())
    ensures m.tracker.agents == (if r.Tolerated? && |old(m.tracker.agents)| < m.tracker.maxAgents
                                 then old(m.tracker.agents)[id := AgentRecord(Running, rec.start, rec.end)]
                                 else old(m.tracker.agents))
    ensures r.Tolerated? ==> m.LiveRecords() == old(m.LiveRecords())
    ensures r.FailedClosed? ==> id !in m.tracker.agents
  {
    if m.pool != null && rec.start != 0 && rec.end != 0 && OutsidePool(m.pool.geo, Range(rec.start, rec.end)) {
      var _ := m.tracker.Register(id, AgentRecord(Running, rec.start, rec.end));
      SettledAddOutside(PoolOf(m), old(m.Held()), old(m.tracker.agents), id, rec.start, rec.end);
      return Tolerated;
    }
    var destroyed := FailClosed(m, id, env);
    SettledFresh(PoolOf(m), old(m.Held()), old(m.tracker.agents), id);
    r := FailedClosed(destroyed);
  }

  /** A record whose user still exists: restored exactly, tolerated outside the pool, or destroyed. */
  method ReplayPresent(m: AgentManager, id: Id, rec: Record, env: Host) returns (r: Replayed)
    requires m.Valid() && env.Valid() && m.store != null && Settled(m) && id !in m.tracker.agents
    modifies m, m.tracker, m.pool, m.store, m.dir, m.host
    ensures m.Valid() && Settled(m)
    ensures OnlyTouches(BooksOf(m), old(BooksOf(m)), id)
    ensures m.calls == old(m.calls) + (if r.FailedClosed? then 1 else 0)
    ensures !r.FailedClosed? ==> m.host.users == old(m.host.users) && m.host.homes == old(m.host.homes)
    ensures CallOf(SetupOf(m, env), m.dir.files, old(m.dir.files), id, r.FailedClosed?, r.FailedClosed? && r.destroyed)
    ensures id in m.tracker.agents ==> m.tracker.agents[id].start == rec.start && m.tracker.agents[id].end == rec.end
    ensures ReplayedTo(SetupOf(m, env), LedgerOf(BooksOf(m)), old(LedgerOf(BooksOf(m))), id, rec, true, r)
    ensures r.Restored? ==> id in m.tracker.agents
    ensures r.Tolerated? ==> ForeignPool(PoolOf(m), rec)
    ensures r.FailedClosed? ==> id !in m.tracker.agents
    ensures !r.Purged? && (!r.FailedClosed? ==> m.LiveRecords() == old(m.LiveRecords()))
  {
    var restored := RestoreSettled(m, id, rec);
    if restored {
      return Restored;
    }
    r := TolerateOrFail(m, id, rec, env);
  }

  /** The record gets its exact range back. */
  ghost predicate Restores(su: Setup, l: Ledger, id: Id, rec: Record) {
    Restorable(su.pool, l.held, su.Room(l, id), id, rec)
  }

  /** The record's user is on the host, its range cannot be restored, and it is not another pool's. */
  ghost predicate FailsClosed(su: Setup, l: Ledger, id: Id, rec: Record, onHost: bool) {
    onHost && !Restores(su, l, id, rec) && !ForeignPool(su.pool, rec)
  }

  /** The books after one record; a tolerated agent is tracked as far as there is room. */
  ghost function NextLedger(su: Setup, l: Ledger, id: Id, rec: Record, onHost: bool): Ledger {
    if !onHost then l
    else if Restores(su, l, id, rec) then su.Add(l, id, rec.start, rec.end)
    else if ForeignPool(su.pool, rec) && |l.agents| < su.maxAgents then
      l.(agents := l.agents[id := AgentRecord(Running, rec.start, rec.end)])
    else l
  }

  /** One record was dealt with as the books before it demand. */
  ghost predicate ReplayedTo(su: Setup, l: Ledger, was: Ledger, id: Id, rec: Record, onHost: bool, r: Replayed) {
    && l == NextLedger(su, was, id, rec, onHost)
    && (r.Restored? <==> onHost && Restores(su, was, id, rec))
    && (r.FailedClosed? <==> FailsClosed(su, was, id, rec, onHost))
    && (r.Purged? <==> !onHost)
  }

  /** Where the replay of a list of records leads: the books, the destroy calls and the restored. */
  datatype Replay = Replay(ledger: Ledger, log: seq<Id>, restored: nat)

  ghost function Replaying(su: Setup, order: seq<Id>, live: map<Id, Record>, present: set<Id>): Replay {
    if order == [] then Replay(Ledger(map[], map[]), [], 0)
    else
      var id, p := order[|order| - 1], Replaying(su, order[..|order| - 1], live, present);
      if id !in live then p
      else Replay(NextLedger(su, p.ledger, id, live[id], id in present),
                  if FailsClosed(su, p.ledger, id, live[id], id in present) then p.log + [id] else p.log,
                  p.restored + if id in present && Restores(su, p.ledger, id, live[id]) then 1 else 0)
  }

  lemma ReplayingStep(su: Setup, l: Ledger, was: Ledger, order: seq<Id>, live: map<Id, Record>, present: set<Id>,
                      log: seq<Id>, restored: nat, id: Id, r: Replayed)
    requires Replaying(su, order, live, present) == Replay(was, log, restored)
    requires id in live && ReplayedTo(su, l, was, id, live[id], id in present, r)
    ensures Replaying(su, order + [id], live, present) ==
            Replay(l, LogAfter(log, id, r), restored + if r.Restored? then 1 else 0)
  {
    assert (order + [id])[..|order|] == order;
  }

  function CountReplayed(rep: Report, r: Replayed): Report {
    match r
    case Restored => rep.(restored := rep.restored + 1)
    case Tolerated => rep.(restoredForeignPool := rep.restoredForeignPool + 1)
    case FailedClosed(d) => if d then rep.(destroyed := rep.destroyed + 1) else rep
    case Purged(ok) => if ok then rep.(purged := rep.purged + 1) else rep
  }

  /** One record of the walk: purged without its user, otherwise restored, tolerated or failed closed. */
  method ReplayRecord(m: AgentManager, id: Id, rec: Record, onHost: bool, env: Host) returns (r: Replayed)
    requires m.Valid() && env.Valid() && m.store != null && Settled(m) && id !in m.tracker.agents
    modifies m, m.tracker, m.pool, m.store, m.dir, m.host
    ensures m.Valid() && Settled(m)
    ensures ReplayedTo(SetupOf(m, env), LedgerOf(BooksOf(m)), old(LedgerOf(BooksOf(m))), id, rec, onHost, r)
    ensures r.Purged? && id != "" && id !in env.purgeFails ==> r.ok
    ensures !r.Purged? && !r.FailedClosed? ==> m.LiveRecords() == old(m.LiveRecords())
    ensures r.Purged? ==> if r.ok then id !in m.LiveRecords() else m.LiveRecords() == old(m.LiveRecords())
    ensures OnlyTouches(BooksOf(m), old(BooksOf(m)), id)
    ensures m.calls == old(m.calls) + (if r.FailedClosed? then 1 else 0)
    ensures !r.FailedClosed? ==> m.host.users == old(m.host.users) && m.host.homes == old(m.host.homes)
    ensures CallOf(SetupOf(m, env), m.dir.files, old(m.dir.files), id, r.FailedClosed?, r.FailedClosed? && r.destroyed)
    ensures id in m.tracker.agents ==>
      onHost && !r.FailedClosed? && m.tracker.agents[id].start == rec.start && m.tracker.agents[id].end == rec.end
    ensures onHost ==> id in m.tracker.agents || r.FailedClosed? || ForeignPool(PoolOf(m), rec)
  {
    if onHost {
      r := ReplayPresent(m, id, rec, env);
    } else {
      var ok := m.store.AppendDestroy(id, id !in env.purgeFails);
      r := Purged(ok);
    }
  }

  lemma SettledAdd(pool: Option<Geometry>, held: map<Id, nat>, agents: map<Id, AgentRecord>, id: Id, start: u32, end: u32)
    requires SettledBooks(pool, held, agents) && id !in agents
    requires pool.Some? ==> Exact(pool.value, start, AgentRecord(Running, start, end))
    ensures SettledBooks(pool, if pool.None? then map[] else held[id := start],
                         agents[id := AgentRecord(Running, start, end)])
  {}

  lemma SettledAddOutside(pool: Option<Geometry>, held: map<Id, nat>, agents: map<Id, AgentRecord>, id: Id, start: u32, end: u32)
    requires SettledBooks(pool, held, agents) && id !in agents
    requires pool.Some? && OutsidePool(pool.value, Range(start, end))
    ensures SettledBooks(pool, held, agents[id := AgentRecord(Running, start, end)])
  {}

  /** The exact reservation of the record can be re-established for an id that is not tracked. */
  ghost predicate Restorable(pool: Option<Geometry>, held: map<Id, nat>, room: bool, id: Id, rec: Record) {
    && (pool.Some? ==> rec.start != 0 && rec.end != 0)
    && Reservable(pool, held, id, Range(rec.start, rec.end)) && room
  }

  /** A persisted range that lies wholly outside the pool: drifted geometry, tolerated. */
  predicate ForeignPool(pool: Option<Geometry>, rec: Record) {
    pool.Some? && rec.start != 0 && rec.end != 0 && OutsidePool(pool.value, Range(rec.start, rec.end))
  }

  lemma SettledFresh(pool: Option<Geometry>, held: map<Id, nat>, agents: map<Id, AgentRecord>, id: Id)
    requires SettledBooks(pool, held, agents) && id !in agents
    ensures id !in held && held - {id} == held && agents - {id} == agents
  {}

  ghost predicate NoDupIds(s: seq<Id>) {
    forall i, j :: 0 <= i < j < |s| ==> s[i] != s[j]
  }

  /** A tracked id was visited, is present and undestroyed, and has its replayed range. */
  predicate TracksAt(agents: map<Id, AgentRecord>, live: map<Id, Record>, present: set<Id>,
                     visited: seq<Id>, log: seq<Id>, id: Id) {
    id in agents ==>
      && id in visited && id in present && id !in log && id in live
      && agents[id].start == live[id].start && agents[id].end == live[id].end
  }

  ghost predicate TracksReplayed(agents: map<Id, AgentRecord>, live: map<Id, Record>, present: set<Id>,
                                 visited: seq<Id>, log: seq<Id>) {
    forall id :: TracksAt(agents, live, present, visited, log, id)
  }

  /** A visited record is not dropped silently: tracked, destroyed, or tolerated outside the pool. */
  predicate AccountedAt(pool: Option<Geometry>, agents: map<Id, AgentRecord>, live: map<Id, Record>,
                        present: set<Id>, visited: seq<Id>, log: seq<Id>, id: Id) {
    id in visited && id in present && id in live ==> id in agents || id in log || ForeignPool(pool, live[id])
  }

  ghost predicate Accounted(pool: Option<Geometry>, agents: map<Id, AgentRecord>, live: map<Id, Record>,
                            present: set<Id>, visited: seq<Id>, log: seq<Id>) {
    forall id :: AccountedAt(pool, agents, live, present, visited, log, id)
  }

  lemma AccountedStep(pool: Option<Geometry>, agents: map<Id, AgentRecord>, agents0: map<Id, AgentRecord>,
                      live: map<Id, Record>, present: set<Id>, visited: seq<Id>, log: seq<Id>, id: Id, log': seq<Id>)
    requires Accounted(pool, agents0, live, present, visited, log) && log <= log'
    requires id in live && (id in present ==> id in agents || id in log' || ForeignPool(pool, live[id]))
    requires agents - {id} == agents0 - {id}
    ensures Accounted(pool, agents, live, present, visited + [id], log')
  {
    forall x ensures AccountedAt(pool, agents, live, present, visited + [id], log', x) {
      assert AccountedAt(pool, agents0, live, present, visited, log, x);
      assert x in agents0 && x != id ==> x in agents0 - {id};
    }
  }

  lemma TracksStep(agents: map<Id, AgentRecord>, agents0: map<Id, AgentRecord>, live: map<Id, Record>,
                   present: set<Id>, visited: seq<Id>, log: seq<Id>, id: Id, log': seq<Id>)
    requires TracksReplayed(agents0, live, present, visited, log) && id !in visited && id in live
    requires agents - {id} == agents0 - {id} && id !in agents0 && id !in log
    requires id in agents ==>
      id in present && agents[id].start == live[id].start && agents[id].end == live[id].end && log' == log
    requires log' == log || log' == log + [id]
    ensures TracksReplayed(agents, live, present, visited + [id], log')
  {
    forall x ensures TracksAt(agents, live, present, visited + [id], log', x) {
      assert TracksAt(agents0, live, present, visited, log, x);
      assert x in agents && x != id ==> x in agents - {id} && agents[x] == (agents0 - {id})[x];
    }
  }

  predicate HostKeptAt(users: set<Id>, homes: set<Id>, users0: set<Id>, homes0: set<Id>, log: seq<Id>, id: Id) {
    id !in log ==> (id in users <==> id in users0) && (id in homes <==> id in homes0)
  }

  /** Users and homes of every id without a destroy call are as they were. */
  ghost predicate HostKept(users: set<Id>, homes: set<Id>, users0: set<Id>, homes0: set<Id>, log: seq<Id>) {
    forall id :: HostKeptAt(users, homes, users0, homes0, log, id)
  }

  lemma HostKeptStep(b: Books, was: Books, users0: set<Id>, homes0: set<Id>, log: seq<Id>, id: Id, log': seq<Id>)
    requires HostKept(was.users, was.homes, users0, homes0, log) && OnlyTouches(b, was, id)
    requires log' == log + [id] || (log' == log && b.users == was.users && b.homes == was.homes)
    ensures HostKept(b.users, b.homes, users0, homes0, log')
  {
    forall x ensures HostKeptAt(b.users, b.homes, users0, homes0, log', x) {
      assert HostKeptAt(was.users, was.homes, users0, homes0, log, x);
      if x != id {
        assert x in b.users <==> x in b.users - {id};
        assert x in was.users <==> x in was.users - {id};
        assert x in b.homes <==> x in b.homes - {id};
        assert x in was.homes <==> x in was.homes - {id};
      }
    }
  }

  /** Only the replay counters may have moved. */
  predicate ReplayCounters(rep: Report, was: Report) {
    rep == was.(restored := rep.restored, restoredForeignPool := rep.restoredForeignPool,
                purged := rep.purged, destroyed := rep.destroyed)
  }

  /** How many of the records have their user on the host. */
  function OnHost(order: seq<Id>, present: set<Id>): nat {
    if order == [] then 0
    else OnHost(order[..|order| - 1], present) + if order[|order| - 1] in present then 1 else 0
  }

  /** Every record on the host is restored, tolerated or destroyed, and the others purged as far as the registry allows. */
  ghost predicate ReplayTally(rep: Report, was: Report, order: seq<Id>, present: set<Id>, calls: nat, failing: set<Id>) {
    && rep.restored + rep.restoredForeignPool + calls == was.restored + was.restoredForeignPool + OnHost(order, present)
    && rep.purged + OnHost(order, present) <= was.purged + |order|
    && ((forall id :: id in order ==> id != "" && id !in failing) ==> rep.purged + OnHost(order, present) == was.purged + |order|)
  }

  lemma TallyStep(rep: Report, was: Report, order: seq<Id>, present: set<Id>, calls: nat, failing: set<Id>, id: Id, r: Replayed)
    requires ReplayTally(rep, was, order, present, calls, failing) && (r.Purged? <==> id !in present)
    requires r.Purged? && id != "" && id !in failing ==> r.ok
    ensures ReplayTally(CountReplayed(rep, r), was, order + [id], present, calls + (if r.FailedClosed? then 1 else 0), failing)
  {
    assert (order + [id])[..|order|] == order;
    assert forall x :: x in order ==> x in order + [id];
    assert id in order + [id];
  }

  ghost predicate LogOf(log: seq<Id>, visited: seq<Id>, present: set<Id>) {
    NoDupIds(log) && forall id :: id in log ==> id in visited && id in present
  }

  /** What became of the durable record of id: kept when restored or tolerated, gone when purged, else only ever dropped. */
  predicate FateAt(live: map<Id, Record>, was: map<Id, Record>, present: set<Id>, failing: set<Id>,
                   visited: seq<Id>, log: seq<Id>, id: Id) {
    && (id in live ==> id in was)
    && (id in was && (id !in visited || (id in present && id !in log)) ==> id in live)
    && (id in visited && id !in present && id != "" && id !in failing ==> id !in live)
  }

  ghost predicate Fates(live: map<Id, Record>, was: map<Id, Record>, present: set<Id>, failing: set<Id>,
                        visited: seq<Id>, log: seq<Id>) {
    forall id :: FateAt(live, was, present, failing, visited, log, id)
  }

  lemma FateStep(live: map<Id, Record>, live0: map<Id, Record>, was: map<Id, Record>, present: set<Id>, failing: set<Id>,
                 visited: seq<Id>, log: seq<Id>, id: Id, r: Replayed)
    requires Fates(live0, was, present, failing, visited, log) && live - {id} == live0 - {id}
    requires id in was && id !in visited && (r.Purged? <==> id !in present)
    requires r.Purged? && id != "" && id !in failing ==> r.ok
    requires !r.Purged? && !r.FailedClosed? ==> live == live0
    requires r.Purged? && r.ok ==> id !in live
    ensures Fates(live, was, present, failing, visited + [id], LogAfter(log, id, r))
  {
    forall x ensures FateAt(live, was, present, failing, visited + [id], LogAfter(log, id, r), x) {
      assert FateAt(live0, was, present, failing, visited, log, x);
      assert x != id ==> (x in live <==> x in live - {id}) && (x in live0 <==> x in live0 - {id});
    }
  }

  /** What the walk has achieved after visiting these ids, with these destroy calls; was are the books at its start. */
  ghost predicate ReplayInv(su: Setup, b: Books, was: Books, present: set<Id>, visited: seq<Id>, log: seq<Id>, dirs: seq<Files>,
                            rep: Report, rep0: Report) {
    && TracksReplayed(b.agents, was.live, present, visited, log)
    && Accounted(su.pool, b.agents, was.live, present, visited, log)
    && Fates(b.live, was.live, present, su.env.purgeFails, visited, log)
    && LogOf(log, visited, present)
    && HostKept(b.users, b.homes, was.users, was.homes, log)
    && ReplayCounters(rep, rep0) && ReplayTally(rep, rep0, visited, present, |log|, su.env.purgeFails)
    && History(su, log, dirs, was.files, b.files, rep.destroyed - rep0.destroyed)
    && rep.restored >= rep0.restored
    && Replaying(su, visited, was.live, present) == Replay(LedgerOf(b), log, rep.restored - rep0.restored)
  }

  function LogAfter(log: seq<Id>, id: Id, r: Replayed): seq<Id> {
    if r.FailedClosed? then log + [id] else log
  }

  function DirsAfter(dirs: seq<Files>, files: Files, hit: bool): seq<Files> {
    if hit then dirs + [files] else dirs
  }

  lemma ReplayStep(su: Setup, b: Books, b0: Books, was: Books, present: set<Id>, visited: seq<Id>, log: seq<Id>, dirs: seq<Files>,
                   rep: Report, rep0: Report, id: Id, r: Replayed)
    requires ReplayInv(su, b0, was, present, visited, log, dirs, rep, rep0)
    requires id !in visited && id in was.live && id !in b0.agents && OnlyTouches(b, b0, id)
    requires ReplayedTo(su, LedgerOf(b), LedgerOf(b0), id, was.live[id], id in present, r)
    requires r.Purged? && id != "" && id !in su.env.purgeFails ==> r.ok
    requires !r.FailedClosed? ==> b.users == b0.users && b.homes == b0.homes
    requires CallOf(su, b.files, b0.files, id, r.FailedClosed?, r.FailedClosed? && r.destroyed)
    requires !r.Purged? && !r.FailedClosed? ==> b.live == b0.live
    requires r.Purged? && r.ok ==> id !in b.live
    requires id in b.agents ==>
      id in present && !r.FailedClosed? && b.agents[id].start == was.live[id].start && b.agents[id].end == was.live[id].end
    requires id in present ==> id in b.agents || r.FailedClosed? || ForeignPool(su.pool, was.live[id])
    ensures ReplayInv(su, b, was, present, visited + [id], LogAfter(log, id, r), DirsAfter(dirs, b.files, r.FailedClosed?),
                      CountReplayed(rep, r), rep0)
  {
    var log' := LogAfter(log, id, r);
    assert LogOf(log', visited + [id], present);
    TracksStep(b.agents, b0.agents, was.live, present, visited, log, id, log');
    AccountedStep(su.pool, b.agents, b0.agents, was.live, present, visited, log, id, log');
    HostKeptStep(b, b0, was.users, was.homes, log, id, log');
    TallyStep(rep, rep0, visited, present, |log|, su.env.purgeFails, id, r);
    FateStep(b.live, b0.live, was.live, present, su.env.purgeFails, visited, log, id, r);
    HistoryStep(su, log, dirs, was.files, b0.files, b.files, rep.destroyed - rep0.destroyed,
                id, r.FailedClosed?, r.FailedClosed? && r.destroyed);
    ReplayingStep(su, LedgerOf(b), LedgerOf(b0), visited, was.live, present, log, rep.restored - rep0.restored, id, r);
  }

  lemma ReplayStart(su: Setup, b: Books, present: set<Id>, rep: Report)
    requires b.agents == map[] && SettledBooks(su.pool, b.held, b.agents)
    ensures ReplayInv(su, b, b, present, [], [], [b.files], rep, rep)
  {}

  lemma UnvisitedUntracked(agents: map<Id, AgentRecord>, live: map<Id, Record>, present: set<Id>, visited: seq<Id>, log: seq<Id>, id: Id)
    requires TracksReplayed(agents, live, present, visited, log) && id !in visited
    ensures id !in agents
  {
    assert TracksAt(agents, live, present, visited, log, id);
  }

  /** One more record of the walk. */
  method ReplayNext(m: AgentManager, order: seq<Id>, i: nat, live: map<Id, Record>, present: set<Id>, env: Host, ghost was: Books,
                    log: seq<Id>, ghost dirs: seq<Files>, rep: Report, ghost rep0: Report)
    returns (rep': Report, log': seq<Id>, ghost dirs': seq<Files>)
    requires m.Valid() && env.Valid() && m.store != null && Settled(m)
    requires i < |order| && NoDupIds(order) && live == was.live && order[i] in live
    requires ReplayInv(SetupOf(m, env), BooksOf(m), was, present, order[..i], log, dirs, rep, rep0)
    modifies m, m.tracker, m.pool, m.store, m.dir, m.host
    ensures m.Valid() && Settled(m) && m.calls + |log| == old(m.calls) + |log'|
    ensures ReplayInv(SetupOf(m, env), BooksOf(m), was, present, order[..i + 1], log', dirs', rep', rep0)
  {
    var id := order[i];
    ghost var visited := order[..i];
    assert id !in visited && order[..i + 1] == visited + [id];
    UnvisitedUntracked(m.tracker.agents, was.live, present, visited, log, id);
    var r := ReplayRecord(m, id, live[id], id in present, env);
    ReplayStep(SetupOf(m, env), BooksOf(m), old(BooksOf(m)), was, present, visited, log, dirs, rep, rep0, id, r);
    rep', log', dirs' := CountReplayed(rep, r), LogAfter(log, id, r), DirsAfter(dirs, m.dir.files, r.FailedClosed?);
  }

  /** The walk over the replayed records, each visited once; log lists the destroy calls. */
  method ReplayWalk(m: AgentManager, order: seq<Id>, present: set<Id>, env: Host, rep: Report)
    returns (rep': Report, log: seq<Id>, ghost dirs: seq<Files>)
    requires m.Valid() && env.Valid() && m.store != null && Settled(m) && m.tracker.agents == map[]
    requires NoDupIds(order) && forall id :: id in order ==> id in m.store.live
    modifies m, m.tracker, m.pool, m.store, m.dir, m.host
    ensures m.Valid() && Settled(m) && m.calls == old(m.calls) + |log|
    ensures ReplayInv(SetupOf(m, env), BooksOf(m), old(BooksOf(m)), present, order, log, dirs, rep', rep)
  {
    var live := m.store.live;
    rep', log, dirs := rep, [], [m.dir.files];
    ReplayStart(SetupOf(m, env), BooksOf(m), present, rep);
    var i := 0;
    assert order[..i] == [];
    while i < |order|
      invariant 0 <= i <= |order|
      invariant m.Valid() && Settled(m) && m.calls == old(m.calls) + |log|
      invariant ReplayInv(SetupOf(m, env), BooksOf(m), old(BooksOf(m)), present, order[..i], log, dirs, rep', rep)
    {
      rep', log, dirs := ReplayNext(m, order, i, live, present, env, old(BooksOf(m)), log, dirs, rep', rep);
      i := i + 1;
    }
    assert order[..i] == order;
  }
}
