/**
 The port-ownership protocol: spawns, rollbacks, adoptions and destroys of many
 agents interleaved with the drift sweep of internal/agent/reconcile.go.

 Every shared-memory access is its own step. The sweep's ownership oracle is two
 separate reads, and a Discipline switches the habits the oracle leans on, so
 that the theorem can say which of them are needed.
 */
module SweepRace {
  import opened PortPool

  datatype Discipline = Discipline(
    markFirst: bool,      // a spawn marks itself in flight before it allocates
    registerFirst: bool,  // a spawn registers in the tracker before it clears the mark
    registerOk: bool,     // the tracker's Register does not fail inside a spawn
    inFlightFirst: bool,  // the oracle reads the in-flight set before the tracker
    lockHeld: bool,       // the sweep keeps the allocator lock over both reads and the release
    gated: bool,          // no sweep overlaps an adoption
    alone: bool,          // no second spawn of an id is tried while one of it is under way
    serialised: bool      // no destroy of an id overlaps a spawn or adoption of that id
  ) {
    predicate OracleSound() {
      markFirst && registerFirst && registerOk && inFlightFirst && lockHeld && gated && alone
    }
  }

  /** Where the one spawn or adoption of an id stands; slots are numbered from 0. */
  datatype Phase =
    | Idle
    | Marked
    | AllocFailed
    | AllocatedUnmarked(slot: nat)
    | Allocated(slot: nat)
    | ClearedUnregistered(slot: nat)
    | Registered(slot: nat, ok: bool)
    | Cleared(slot: nat, ok: bool)
    | RollFree
    | RollClear
    | RollUnregister
    | Adopting(slot: nat)
    | AdoptRegistered(slot: nat)
    | AdoptFree

  datatype DestroyStage = Begun | Unregistered | Freed

  datatype DestroyRun = DestroyRun(id: Id, stage: DestroyStage)

  /** A second spawn of an id that another one is setting up; refused: its allocation has failed. */
  datatype Retry = Retry(id: Id, refused: bool)

  datatype SweepStage =
    | NoSweep
    | Scanning
    | FirstRead(id: Id, owned: bool)
    | Verdict(id: Id, owned: bool)

  datatype State = State(
    capacity: nat,
    held: map<Id, nat>,
    tracked: map<Id, nat>,
    inFlight: set<Id>,
    phases: map<Id, Phase>,
    destroys: map<nat, DestroyRun>,
    sweep: SweepStage,
    retries: map<nat, Retry>)
  {
    function Phase(id: Id): Phase {
      if id in phases then phases[id] else Idle
    }

    predicate UnderDestroy(id: Id) {
      exists t :: t in destroys && destroys[t].id == id
    }

    predicate SlotFree(slot: nat) {
      slot < capacity && slot !in held.Values
    }
  }

  function Init(capacity: nat): State {
    State(capacity, map[], map[], {}, map[], map[], NoSweep, map[])
  }

  /** A spawn up to the step that decides whether it is kept. */
  datatype SpawnStep =
    | Mark(id: Id)
    | Allocate(id: Id, slot: nat)
    | AllocateFail(id: Id)
    | ClearFailed(id: Id)
    | MarkLate(id: Id)
    | Register(id: Id)
    | RegisterFail(id: Id)
    | ClearEarly(id: Id)
    | RegisterLate(id: Id)
    | Clear(id: Id)
    | PersistOk(id: Id)
    | PersistFail(id: Id)
    | SpawnFail(id: Id)

  datatype RollbackStep =
    | RollbackFree(id: Id)
    | RollbackClear(id: Id)
    | RollbackUnregister(id: Id)

  datatype AdoptStep =
    | AdoptReserve(id: Id, slot: nat)
    | AdoptFail(id: Id)
    | AdoptRegister(id: Id)
    | AdoptPersistOk(id: Id)
    | AdoptPersistFail(id: Id)
    | AdoptRelease(id: Id)

  datatype RetryStep =
    | RetryMark(thread: nat, target: Id)
    | RetryRefused(thread: nat)
    | RetryClear(thread: nat)

  datatype DestroyStep =
    | DestroyBegin(thread: nat, target: Id)
    | DestroyRefuse(thread: nat)
    | DestroyUnregister(thread: nat)
    | DestroyFree(thread: nat)

  datatype SweepStep =
    | SweepBegin
    | SweepFirst(id: Id)
    | SweepSecond
    | SweepRelease
    | SweepEnd

  datatype Action =
    | OfSpawn(spawn: SpawnStep)
    | OfRollback(rollback: RollbackStep)
    | OfAdoption(adoption: AdoptStep)
    | OfRetry(retry: RetryStep)
    | OfDestroy(destroy: DestroyStep)
    | OfSweep(sweep: SweepStep)

  /** The allocator lock is free for Allocate, Free and Restore. */
  predicate LockFree(d: Discipline, s: State) {
    d.lockHeld ==> s.sweep.NoSweep?
  }

  predicate MayStart(d: Discipline, s: State, id: Id) {
    s.Phase(id).Idle? && (d.serialised ==> !s.UnderDestroy(id))
  }

  predicate SpawnEnabled(d: Discipline, s: State, a: SpawnStep) {
    match a
    case Mark(id) => d.markFirst && MayStart(d, s, id)
    case Allocate(id, slot) =>
      && LockFree(d, s) && id !in s.held && s.SlotFree(slot)
      && (if d.markFirst then s.Phase(id).Marked? else MayStart(d, s, id))
    case AllocateFail(id) => LockFree(d, s) && s.Phase(id).Marked?
    case ClearFailed(id) => s.Phase(id).AllocFailed?
    case MarkLate(id) => s.Phase(id).AllocatedUnmarked?
    case Register(id) => d.registerFirst && s.Phase(id).Allocated? && id !in s.tracked
    case RegisterFail(id) => d.registerFirst && !d.registerOk && s.Phase(id).Allocated?
    case ClearEarly(id) => !d.registerFirst && s.Phase(id).Allocated?
    case RegisterLate(id) => s.Phase(id).ClearedUnregistered? && id !in s.tracked
    case Clear(id) => s.Phase(id).Registered?
    case PersistOk(id) => s.Phase(id).Cleared?
    case PersistFail(id) => s.Phase(id).Cleared?
    case SpawnFail(id) => s.Phase(id).Allocated? || s.Phase(id).AllocatedUnmarked?
  }

  predicate RollbackEnabled(d: Discipline, s: State, a: RollbackStep) {
    match a
    case RollbackFree(id) => LockFree(d, s) && s.Phase(id).RollFree?
    case RollbackClear(id) => s.Phase(id).RollClear?
    case RollbackUnregister(id) => s.Phase(id).RollUnregister?
  }

  predicate AdoptEnabled(d: Discipline, s: State, a: AdoptStep) {
    match a
    case AdoptReserve(id, slot) =>
      && LockFree(d, s) && id !in s.held && s.SlotFree(slot) && MayStart(d, s, id) && id !in s.tracked
      && (d.gated ==> s.sweep.NoSweep?)
    case AdoptFail(id) => s.Phase(id).Adopting?
    case AdoptRegister(id) => s.Phase(id).Adopting? && id !in s.tracked
    case AdoptPersistOk(id) => s.Phase(id).AdoptRegistered?
    case AdoptPersistFail(id) => s.Phase(id).AdoptRegistered?
    case AdoptRelease(id) => LockFree(d, s) && s.Phase(id).AdoptFree?
  }

  predicate RetryEnabled(d: Discipline, s: State, a: RetryStep) {
    match a
    case RetryMark(t, id) => !d.alone && d.markFirst && t !in s.retries && !s.Phase(id).Idle?
    case RetryRefused(t) => t in s.retries && !s.retries[t].refused && LockFree(d, s) && s.retries[t].id in s.held
    case RetryClear(t) => t in s.retries && s.retries[t].refused
  }

  predicate DestroyEnabled(d: Discipline, s: State, a: DestroyStep) {
    match a
    case DestroyBegin(t, id) => t !in s.destroys && (d.serialised ==> s.Phase(id).Idle?)
    case DestroyRefuse(t) => t in s.destroys && s.destroys[t].stage.Begun?
    case DestroyUnregister(t) => t in s.destroys && !s.destroys[t].stage.Unregistered?
    case DestroyFree(t) => t in s.destroys && LockFree(d, s) && !s.destroys[t].stage.Freed?
  }

  predicate SweepEnabled(d: Discipline, s: State, a: SweepStep) {
    match a
    case SweepBegin =>
      s.sweep.NoSweep? && (d.gated ==> forall id :: id in s.phases ==> !s.phases[id].Adopting?)
    case SweepFirst(id) => s.sweep.Scanning? && id in s.held
    case SweepSecond => s.sweep.FirstRead?
    case SweepRelease => s.sweep.Verdict?
    case SweepEnd => s.sweep.Scanning?
  }

  predicate Enabled(d: Discipline, s: State, a: Action) {
    match a
    case OfSpawn(b) => SpawnEnabled(d, s, b)
    case OfRollback(b) => RollbackEnabled(d, s, b)
    case OfAdoption(b) => AdoptEnabled(d, s, b)
    case OfRetry(b) => RetryEnabled(d, s, b)
    case OfDestroy(b) => DestroyEnabled(d, s, b)
    case OfSweep(b) => SweepEnabled(d, s, b)
  }

  function At(s: State, id: Id, p: Phase): State {
    s.(phases := s.phases[id := p])
  }

  function AfterUnregister(s: State, t: nat): State
    requires t in s.destroys
  {
    var r := s.destroys[t];
    s.(tracked := s.tracked - {r.id},
       destroys := if r.stage.Freed? then s.destroys - {t} else s.destroys[t := r.(stage := Unregistered)])
  }

  function AfterFree(s: State, t: nat): State
    requires t in s.destroys
  {
    var r := s.destroys[t];
    s.(held := s.held - {r.id},
       destroys := if r.stage.Unregistered? then s.destroys - {t} else s.destroys[t := r.(stage := Freed)])
  }

  function ReadInFlight(s: State, id: Id): bool { id in s.inFlight }

  function ReadTracker(s: State, id: Id): bool { id in s.tracked }

  function SpawnNext(d: Discipline, s: State, a: SpawnStep): State
    requires SpawnEnabled(d, s, a)
  {
    match a
    case Mark(id) => At(s, id, Marked).(inFlight := s.inFlight + {id})
    case Allocate(id, slot) =>
      At(s, id, if d.markFirst then Allocated(slot) else AllocatedUnmarked(slot)).(held := s.held[id := slot])
    case AllocateFail(id) => At(s, id, AllocFailed)
    case ClearFailed(id) => At(s, id, Idle).(inFlight := s.inFlight - {id})
    case MarkLate(id) => At(s, id, Allocated(s.Phase(id).slot)).(inFlight := s.inFlight + {id})
    case Register(id) =>
      At(s, id, Registered(s.Phase(id).slot, true)).(tracked := s.tracked[id := s.Phase(id).slot])
    case RegisterFail(id) => At(s, id, Registered(s.Phase(id).slot, false))
    case ClearEarly(id) => At(s, id, ClearedUnregistered(s.Phase(id).slot)).(inFlight := s.inFlight - {id})
    case RegisterLate(id) =>
      At(s, id, Cleared(s.Phase(id).slot, true)).(tracked := s.tracked[id := s.Phase(id).slot])
    case Clear(id) => At(s, id, Cleared(s.Phase(id).slot, s.Phase(id).ok)).(inFlight := s.inFlight - {id})
    case PersistOk(id) => At(s, id, Idle)
    case PersistFail(id) => At(s, id, RollFree).(tracked := s.tracked - {id})
    case SpawnFail(id) => At(s, id, RollFree)
  }

  function RollbackNext(d: Discipline, s: State, a: RollbackStep): State
    requires RollbackEnabled(d, s, a)
  {
    match a
    case RollbackFree(id) => At(s, id, RollClear).(held := s.held - {id})
    case RollbackClear(id) => At(s, id, RollUnregister).(inFlight := s.inFlight - {id})
    case RollbackUnregister(id) => At(s, id, Idle).(tracked := s.tracked - {id})
  }

  function AdoptNext(d: Discipline, s: State, a: AdoptStep): State
    requires AdoptEnabled(d, s, a)
  {
    match a
    case AdoptReserve(id, slot) => At(s, id, Adopting(slot)).(held := s.held[id := slot])
    case AdoptFail(id) => At(s, id, AdoptFree)
    case AdoptRegister(id) =>
      At(s, id, AdoptRegistered(s.Phase(id).slot)).(tracked := s.tracked[id := s.Phase(id).slot])
    case AdoptPersistOk(id) => At(s, id, Idle)
    case AdoptPersistFail(id) => At(s, id, AdoptFree).(tracked := s.tracked - {id})
    case AdoptRelease(id) => At(s, id, Idle).(held := s.held - {id})
  }

  function RetryNext(d: Discipline, s: State, a: RetryStep): State
    requires RetryEnabled(d, s, a)
  {
    match a
    case RetryMark(t, id) => s.(inFlight := s.inFlight + {id}, retries := s.retries[t := Retry(id, false)])
    case RetryRefused(t) => s.(retries := s.retries[t := s.retries[t].(refused := true)])
    case RetryClear(t) => s.(inFlight := s.inFlight - {s.retries[t].id}, retries := s.retries - {t})
  }

  function DestroyNext(d: Discipline, s: State, a: DestroyStep): State
    requires DestroyEnabled(d, s, a)
  {
    match a
    case DestroyBegin(t, id) => s.(destroys := s.destroys[t := DestroyRun(id, Begun)])
    case DestroyRefuse(t) => s.(destroys := s.destroys - {t})
    case DestroyUnregister(t) => AfterUnregister(s, t)
    case DestroyFree(t) => AfterFree(s, t)
  }

  function SweepNext(d: Discipline, s: State, a: SweepStep): State
    requires SweepEnabled(d, s, a)
  {
    match a
    case SweepBegin => s.(sweep := Scanning)
    case SweepFirst(id) =>
      s.(sweep := FirstRead(id, if d.inFlightFirst then ReadInFlight(s, id) else ReadTracker(s, id)))
    case SweepSecond =>
      var id := s.sweep.id;
      s.(sweep := Verdict(id, s.sweep.owned || if d.inFlightFirst then ReadTracker(s, id) else ReadInFlight(s, id)))
    case SweepRelease =>
      s.(sweep := Scanning, held := if s.sweep.owned then s.held else s.held - {s.sweep.id})
    case SweepEnd => s.(sweep := NoSweep)
  }

  function Next(d: Discipline, s: State, a: Action): State
    requires Enabled(d, s, a)
  {
    match a
    case OfSpawn(b) => SpawnNext(d, s, b)
    case OfRollback(b) => RollbackNext(d, s, b)
    case OfAdoption(b) => AdoptNext(d, s, b)
    case OfRetry(b) => RetryNext(d, s, b)
    case OfDestroy(b) => DestroyNext(d, s, b)
    case OfSweep(b) => SweepNext(d, s, b)
  }

  // ---- runs ----

  ghost predicate Legal(d: Discipline, s: State, run: seq<Action>)
    decreases |run|
  {
    run == [] || (Enabled(d, s, run[0]) && Legal(d, Next(d, s, run[0]), run[1..]))
  }

  ghost function Exec(d: Discipline, s: State, run: seq<Action>): State
    requires Legal(d, s, run)
    decreases |run|
  {
    if run == [] then s else Exec(d, Next(d, s, run[0]), run[1..])
  }

  ghost predicate Reachable(d: Discipline, s: State) {
    exists capacity: nat, run: seq<Action> :: Legal(d, Init(capacity), run) && Exec(d, Init(capacity), run) == s
  }

  // ---- what must never happen ----

  /** Between allocation and registration: the range is in use and only the mark speaks for it. */
  predicate Undeclared(p: Phase) {
    || p.AllocatedUnmarked? || p.Allocated? || p.ClearedUnregistered? || p.Adopting?
    || (p.Registered? && !p.ok) || (p.Cleared? && !p.ok)
  }

  /** The sweep has made up its mind to release a range that a live agent is using. */
  predicate Steals(s: State) {
    && s.sweep.Verdict? && !s.sweep.owned
    && var p := s.Phase(s.sweep.id);
       Undeclared(p) || p.Registered? || s.sweep.id in s.tracked
  }

  /** The slot an agent is using, while it is being set up and while it is tracked. */
  function Uses(s: State, id: Id): Option<nat> {
    var p := s.Phase(id);
    if Undeclared(p) || p.Registered? || p.Cleared? || p.AdoptRegistered? then Some(p.slot)
    else if id in s.tracked then Some(s.tracked[id])
    else None
  }

  /** Two agents, neither of them being torn down, use the same slot. */
  ghost predicate Collides(s: State, a: Id, b: Id) {
    && a != b && Uses(s, a).Some? && Uses(s, a) == Uses(s, b)
    && !s.UnderDestroy(a) && !s.UnderDestroy(b)
  }

  // ---- the oracle is sound exactly under the discipline ----

  predicate OracleIdInv(s: State, id: Id) {
    var p := s.Phase(id);
    && (p.Marked? || p.Allocated? || p.Registered? ==> id in s.inFlight)
    && !p.AllocatedUnmarked? && !p.ClearedUnregistered?
    && (p.Registered? || p.Cleared? ==> p.ok)
    && (!s.sweep.NoSweep? ==> !p.Adopting?)
  }

  ghost predicate OracleInv(s: State) {
    && s.retries == map[]
    && (forall id :: OracleIdInv(s, id))
    && ((s.sweep.FirstRead? || s.sweep.Verdict?) && !s.sweep.owned ==>
          !s.Phase(s.sweep.id).Allocated? && !s.Phase(s.sweep.id).Registered?)
    && (s.sweep.Verdict? && !s.sweep.owned ==> s.sweep.id !in s.tracked)
  }

  /** What a step of the sweep leaves alone. */
  lemma SweepLeaves(d: Discipline, s: State, a: SweepStep)
    requires SweepEnabled(d, s, a)
    ensures var s' := SweepNext(d, s, a);
            s'.phases == s.phases && s'.inFlight == s.inFlight && s'.tracked == s.tracked && s'.retries == s.retries
  {}

  lemma OracleSweep(d: Discipline, s: State, a: SweepStep)
    requires d.OracleSound() && OracleInv(s) && SweepEnabled(d, s, a)
    ensures OracleInv(SweepNext(d, s, a))
  {
    var s' := SweepNext(d, s, a);
    SweepLeaves(d, s, a);
    forall id ensures OracleIdInv(s', id) {
      assert OracleIdInv(s, id) && s'.Phase(id) == s.Phase(id);
    }
    if s'.sweep.FirstRead? || s'.sweep.Verdict? {
      assert OracleIdInv(s, s'.sweep.id);
    }
  }

  lemma NoRetries(d: Discipline, s: State, a: RetryStep)
    requires d.alone && s.retries == map[]
    ensures !RetryEnabled(d, s, a)
  {}

  lemma OracleIdSpawn(d: Discipline, s: State, a: SpawnStep, id: Id)
    requires d.OracleSound() && OracleIdInv(s, id) && SpawnEnabled(d, s, a)
    ensures OracleIdInv(SpawnNext(d, s, a), id)
  {}

  /** While the sweep has an unowned id in hand, no spawn of it gets past the lock. */
  lemma OracleSpawn(d: Discipline, s: State, a: SpawnStep)
    requires d.OracleSound() && OracleInv(s) && SpawnEnabled(d, s, a)
    ensures OracleInv(SpawnNext(d, s, a))
  {
    forall id ensures OracleIdInv(SpawnNext(d, s, a), id) {
      OracleIdSpawn(d, s, a, id);
    }
    if s.sweep.FirstRead? || s.sweep.Verdict? { assert OracleIdInv(s, s.sweep.id); }
  }

  lemma OracleRollback(d: Discipline, s: State, a: RollbackStep)
    requires d.OracleSound() && OracleInv(s) && RollbackEnabled(d, s, a)
    ensures OracleInv(RollbackNext(d, s, a))
  {
    forall id ensures OracleIdInv(RollbackNext(d, s, a), id) {
      assert OracleIdInv(s, id);
    }
  }

  lemma OracleAdopt(d: Discipline, s: State, a: AdoptStep)
    requires d.OracleSound() && OracleInv(s) && AdoptEnabled(d, s, a)
    ensures OracleInv(AdoptNext(d, s, a))
  {
    forall id ensures OracleIdInv(AdoptNext(d, s, a), id) {
      assert OracleIdInv(s, id);
    }
    if s.sweep.FirstRead? || s.sweep.Verdict? { assert OracleIdInv(s, s.sweep.id); }
  }

  lemma OracleDestroy(d: Discipline, s: State, a: DestroyStep)
    requires d.OracleSound() && OracleInv(s) && DestroyEnabled(d, s, a)
    ensures OracleInv(DestroyNext(d, s, a))
  {
    forall id ensures OracleIdInv(DestroyNext(d, s, a), id) {
      assert OracleIdInv(s, id);
    }
  }

  lemma OracleStep(d: Discipline, s: State, a: Action)
    requires d.OracleSound() && OracleInv(s) && Enabled(d, s, a)
    ensures OracleInv(Next(d, s, a))
  {
    match a
    case OfSpawn(b) => OracleSpawn(d, s, b);
    case OfRollback(b) => OracleRollback(d, s, b);
    case OfAdoption(b) => OracleAdopt(d, s, b);
    case OfRetry(b) => NoRetries(d, s, b);
    case OfDestroy(b) => OracleDestroy(d, s, b);
    case OfSweep(b) => OracleSweep(d, s, b);
  }

  lemma {:induction false} OracleRun(d: Discipline, s: State, run: seq<Action>)
    requires d.OracleSound() && OracleInv(s) && Legal(d, s, run)
    ensures OracleInv(Exec(d, s, run))
    decreases |run|
  {
    if run != [] {
      OracleStep(d, s, run[0]);
      OracleRun(d, Next(d, s, run[0]), run[1..]);
    }
  }

  /** One more step at the end of a legal run. */
  lemma {:induction false} Extend(d: Discipline, s0: State, run: seq<Action>, a: Action) returns (run': seq<Action>)
    requires Legal(d, s0, run) && Enabled(d, Exec(d, s0, run), a)
    ensures Legal(d, s0, run') && Exec(d, s0, run') == Next(d, Exec(d, s0, run), a)
    decreases |run|
  {
    if run == [] {
      run' := [a];
      assert run'[1..] == [];
      assert Legal(d, Next(d, s0, a), []);
    } else {
      var rest := Extend(d, Next(d, s0, run[0]), run[1..], a);
      run' := [run[0]] + rest;
      assert run'[1..] == rest;
    }
  }

  lemma Do(d: Discipline, s: State, a: Action) returns (s': State)
    requires Reachable(d, s) && Enabled(d, s, a)
    ensures Reachable(d, s') && s' == Next(d, s, a)
  {
    var capacity: nat, run :| Legal(d, Init(capacity), run) && Exec(d, Init(capacity), run) == s;
    var run' := Extend(d, Init(capacity), run, a);
    s' := Next(d, s, a);
  }

  lemma DoSpawn(d: Discipline, s: State, a: SpawnStep) returns (s': State)
    requires Reachable(d, s) && SpawnEnabled(d, s, a)
    ensures Reachable(d, s') && s' == SpawnNext(d, s, a)
  {
    s' := Do(d, s, OfSpawn(a));
  }

  lemma DoDestroy(d: Discipline, s: State, a: DestroyStep) returns (s': State)
    requires Reachable(d, s) && DestroyEnabled(d, s, a)
    ensures Reachable(d, s') && s' == DestroyNext(d, s, a)
  {
    s' := Do(d, s, OfDestroy(a));
  }

  lemma DoRetry(d: Discipline, s: State, a: RetryStep) returns (s': State)
    requires Reachable(d, s) && RetryEnabled(d, s, a)
    ensures Reachable(d, s') && s' == RetryNext(d, s, a)
  {
    s' := Do(d, s, OfRetry(a));
  }

  lemma DoSweep(d: Discipline, s: State, a: SweepStep) returns (s': State)
    requires Reachable(d, s) && SweepEnabled(d, s, a)
    ensures Reachable(d, s') && s' == SweepNext(d, s, a)
  {
    s' := Do(d, s, OfSweep(a));
  }

  lemma DoAdopt(d: Discipline, s: State, a: AdoptStep) returns (s': State)
    requires Reachable(d, s) && AdoptEnabled(d, s, a)
    ensures Reachable(d, s') && s' == AdoptNext(d, s, a)
  {
    s' := Do(d, s, OfAdoption(a));
  }

  lemma Start(d: Discipline) returns (s: State)
    ensures Reachable(d, s) && s == Init(1) && s.SlotFree(0)
  {
    s := Init(1);
    assert Legal(d, s, []) && Exec(d, s, []) == s;
    assert s.held.Values == {};
  }

  lemma DoMark(d: Discipline, s: State, id: Id) returns (s': State)
    requires Reachable(d, s) && d.markFirst && s.Phase(id).Idle? && s.destroys == map[]
    ensures Reachable(d, s') && s' == At(s, id, Marked).(inFlight := s.inFlight + {id})
  {
    s' := DoSpawn(d, s, Mark(id));
  }

  lemma DoAllocate(d: Discipline, s: State, id: Id) returns (s': State)
    requires Reachable(d, s) && d.markFirst && LockFree(d, s) && s.Phase(id).Marked? && s.held == map[] && s.capacity == 1
    ensures Reachable(d, s') && s' == At(s, id, Allocated(0)).(held := map[id := 0])
  {
    assert s.held.Values == {};
    s' := DoSpawn(d, s, Allocate(id, 0));
  }

  const X: Id := "x"

  /** Sweep an id that looks unowned to both reads. */
  lemma Look(d: Discipline, s: State) returns (s': State)
    requires Reachable(d, s)
    requires SweepEnabled(d, s, SweepBegin) && X in s.held && X !in s.inFlight && X !in s.tracked
    ensures Reachable(d, s') && s' == s.(sweep := Verdict(X, false))
  {
    s' := DoSweep(d, s, SweepBegin);
    s' := BothReads(d, s');
  }

  lemma BothReads(d: Discipline, s: State) returns (s': State)
    requires Reachable(d, s) && s.sweep.Scanning? && X in s.held && X !in s.inFlight && X !in s.tracked
    ensures Reachable(d, s') && s' == s.(sweep := Verdict(X, false))
  {
    s' := DoSweep(d, s, SweepFirst(X));
    s' := DoSweep(d, s', SweepSecond);
  }

  lemma UpToAllocated(d: Discipline) returns (s: State)
    requires d.markFirst
    ensures Reachable(d, s)
    ensures s == State(1, map[X := 0], map[], {X}, map[X := Allocated(0)], map[], NoSweep, map[])
  {
    s := Start(d);
    s := DoMark(d, s, X);
    s := DoAllocate(d, s, X);
  }

  lemma UpToCleared(d: Discipline) returns (s: State)
    requires d.markFirst && d.registerFirst
    ensures Reachable(d, s)
    ensures s == State(1, map[X := 0], map[X := 0], {}, map[X := Cleared(0, true)], map[], NoSweep, map[])
  {
    s := UpToAllocated(d);
    s := DoSpawn(d, s, Register(X));
    s := DoSpawn(d, s, Clear(X));
  }

  lemma StealUnmarked(d: Discipline) returns (s: State)
    requires !d.markFirst
    ensures Reachable(d, s) && Steals(s)
  {
    s := Start(d);
    s := DoSpawn(d, s, Allocate(X, 0));
    s := Look(d, s);
  }

  lemma StealClearedEarly(d: Discipline) returns (s: State)
    requires d.markFirst && !d.registerFirst
    ensures Reachable(d, s) && Steals(s)
  {
    s := UpToAllocated(d);
    s := DoSpawn(d, s, ClearEarly(X));
    s := Look(d, s);
  }

  lemma StealUnregistered(d: Discipline) returns (s: State)
    requires d.markFirst && d.registerFirst && !d.registerOk
    ensures Reachable(d, s) && Steals(s)
  {
    s := UpToAllocated(d);
    s := DoSpawn(d, s, RegisterFail(X));
    s := DoSpawn(d, s, Clear(X));
    s := Look(d, s);
  }

  /** Tracker first: the spawn slips through between the two reads. */
  lemma StealBetweenReads(d: Discipline) returns (s: State)
    requires d.markFirst && d.registerFirst && !d.inFlightFirst
    ensures Reachable(d, s) && Steals(s)
  {
    s := FirstReadMidSpawn(d);
    s := DoSpawn(d, s, Register(X));
    s := DoSpawn(d, s, Clear(X));
    assert s.sweep == FirstRead(X, false) && s.inFlight == {} && X in s.tracked;
    s := DoSweep(d, s, SweepSecond);
  }

  lemma FirstReadMidSpawn(d: Discipline) returns (s: State)
    requires d.markFirst && !d.inFlightFirst
    ensures Reachable(d, s)
    ensures s == State(1, map[X := 0], map[], {X}, map[X := Allocated(0)], map[], FirstRead(X, false), map[])
  {
    s := UpToAllocated(d);
    s := DoSweep(d, s, SweepBegin);
    s := DoSweep(d, s, SweepFirst(X));
  }

  lemma UpToTracked(d: Discipline) returns (s: State)
    requires d.markFirst && d.registerFirst
    ensures Reachable(d, s)
    ensures s == State(1, map[X := 0], map[X := 0], {}, map[X := Idle], map[], NoSweep, map[])
  {
    s := UpToCleared(d);
    s := DoSpawn(d, s, PersistOk(X));
  }

  /** A destroy between Unregister and Free: the drift the sweep exists to repair. */
  lemma HalfDestroyed(d: Discipline, s: State) returns (s': State)
    requires Reachable(d, s) && s.destroys == map[] && (d.serialised ==> s.Phase(X).Idle?)
    ensures Reachable(d, s')
    ensures s' == s.(tracked := s.tracked - {X}, destroys := map[0 := DestroyRun(X, DestroyStage.Unregistered)])
  {
    s' := DoDestroy(d, s, DestroyBegin(0, X));
    assert s' == s.(destroys := map[0 := DestroyRun(X, Begun)]);
    s' := DoDestroy(d, s', DestroyUnregister(0));
  }

  lemma RestDestroyed(d: Discipline, s: State) returns (s': State)
    requires Reachable(d, s) && LockFree(d, s) && s.destroys == map[0 := DestroyRun(X, DestroyStage.Unregistered)]
    ensures Reachable(d, s') && s' == s.(held := s.held - {X}, destroys := map[])
  {
    s' := DoDestroy(d, s, DestroyFree(0));
    assert s'.destroys == map[];
  }

  lemma HalfRespawned(d: Discipline) returns (s: State)
    requires d.markFirst && d.registerFirst && !d.lockHeld
    ensures Reachable(d, s)
    ensures s == State(1, map[], map[], {}, map[X := Idle], map[], Verdict(X, false), map[])
  {
    s := UpToTracked(d);
    s := HalfDestroyed(d, s);
    s := Look(d, s);
    s := RestDestroyed(d, s);
  }

  /** No lock: the id is freed and spawned again between the verdict and the release. */
  lemma StealRespawned(d: Discipline) returns (s: State)
    requires d.markFirst && d.registerFirst && !d.lockHeld
    ensures Reachable(d, s) && Steals(s)
  {
    s := HalfRespawned(d);
    s := DoMark(d, s, X);
    s := DoAllocate(d, s, X);
  }

  lemma RetryMarked(d: Discipline, s: State) returns (s': State)
    requires Reachable(d, s) && d.markFirst && !d.alone
    requires s.inFlight == {X} && s.retries == map[] && !s.Phase(X).Idle?
    ensures Reachable(d, s') && s' == s.(retries := map[0 := Retry(X, false)])
  {
    s' := DoRetry(d, s, RetryMark(0, X));
    assert s'.inFlight == {X};
  }

  lemma RetryTurnedAway(d: Discipline, s: State) returns (s': State)
    requires Reachable(d, s) && s.sweep.NoSweep? && X in s.held && s.retries == map[0 := Retry(X, false)]
    ensures Reachable(d, s') && s' == s.(retries := map[0 := Retry(X, true)])
  {
    s' := DoRetry(d, s, RetryRefused(0));
    assert s'.retries == map[0 := Retry(X, true)];
  }

  lemma RetryGone(d: Discipline, s: State) returns (s': State)
    requires Reachable(d, s) && s.inFlight == {X} && s.retries == map[0 := Retry(X, true)]
    ensures Reachable(d, s') && s' == s.(inFlight := {}, retries := map[])
  {
    s' := DoRetry(d, s, RetryClear(0));
    assert s'.retries == map[] && s'.inFlight == {};
  }

  /** A client's retry marks again, is refused the range, and clears the mark of the spawn that holds it. */
  lemma StealRetried(d: Discipline) returns (s: State)
    requires d.markFirst && !d.alone
    ensures Reachable(d, s) && Steals(s)
  {
    s := UpToAllocated(d);
    s := RetryMarked(d, s);
    s := RetryTurnedAway(d, s);
    s := RetryGone(d, s);
    s := Look(d, s);
  }

  /** The reaper's grace has run out while an adoption holds an unmarked reservation. */
  lemma StealAdopting(d: Discipline) returns (s: State)
    requires !d.gated
    ensures Reachable(d, s) && Steals(s)
  {
    s := Start(d);
    s := DoAdopt(d, s, AdoptReserve(X, 0));
    s := Look(d, s);
  }

  /**
   In every interleaving of spawns, rollbacks, adoptions, destroys and sweeps the sweep never
   decides to release the range of an agent that is mid-spawn or tracked, exactly when all seven
   habits are kept; destroys may overlap spawns of the same id as they please.
   */
  lemma SweepSafeExactly(d: Discipline)
    ensures d.OracleSound() <==> forall s :: Reachable(d, s) ==> !Steals(s)
  {
    if d.OracleSound() {
      forall s | Reachable(d, s) ensures !Steals(s) {
        var capacity: nat, run :| Legal(d, Init(capacity), run) && Exec(d, Init(capacity), run) == s;
        OracleRun(d, Init(capacity), run);
        if s.sweep.Verdict? { assert OracleIdInv(s, s.sweep.id); }
      }
    } else {
      var s := Thief(d);
    }
  }

  lemma Thief(d: Discipline) returns (s: State)
    requires !d.OracleSound()
    ensures Reachable(d, s) && Steals(s)
  {
    if !d.markFirst { s := StealUnmarked(d); }
    else if !d.registerFirst { s := StealClearedEarly(d); }
    else if !d.registerOk { s := StealUnregistered(d); }
    else if !d.inFlightFirst { s := StealBetweenReads(d); }
    else if !d.lockHeld { s := StealRespawned(d); }
    else if !d.alone { s := StealRetried(d); }
    else { s := StealAdopting(d); }
  }

  // ---- with destroys and spawns of one id kept apart, live agents never share a port ----

  predicate Holds(s: State, id: Id, slot: nat) {
    id in s.held && s.held[id] == slot
  }

  predicate TracksAs(s: State, id: Id, slot: nat) {
    id in s.tracked && s.tracked[id] == slot
  }

  ghost predicate FreedBy(s: State, t: nat, id: Id) {
    t in s.destroys && s.destroys[t] == DestroyRun(id, Freed)
  }

  ghost predicate OwnerIdInv(s: State, id: Id) {
    var p := s.Phase(id);
    && (p.Allocated? || p.Adopting? ==> Holds(s, id, p.slot) && id !in s.tracked)
    && (p.Registered? || p.Cleared? || p.AdoptRegistered? ==> Holds(s, id, p.slot) && TracksAs(s, id, p.slot))
    && (p.RollFree? || p.RollClear? || p.RollUnregister? || p.AdoptFree? ==> id !in s.tracked)
    && (!p.Idle? ==> !s.UnderDestroy(id))
    && (id in s.tracked ==> Holds(s, id, s.tracked[id]) || exists t :: FreedBy(s, t, id))
  }

  predicate DestroyInv(s: State, t: nat)
    requires t in s.destroys
  {
    s.destroys[t].stage == DestroyStage.Unregistered ==> s.destroys[t].id !in s.tracked
  }

  ghost predicate OwnerInv(s: State) {
    && OracleInv(s)
    && Injective(s.held)
    && (forall id :: OwnerIdInv(s, id))
    && (forall t :: t in s.destroys ==> DestroyInv(s, t))
  }

  /** All that the ownership of id depends on is as before, or the sweep released what id held. */
  predicate Untouched(s: State, s': State, id: Id) {
    && s'.Phase(id) == s.Phase(id) && s'.destroys == s.destroys
    && (id in s'.tracked <==> id in s.tracked)
    && (id in s.tracked ==> s'.tracked[id] == s.tracked[id])
    && (id in s'.held && id in s.held ==> s'.held[id] == s.held[id])
    && (id in s.held && id !in s'.held ==> s.sweep == Verdict(id, false))
  }

  lemma SweepFrame(d: Discipline, s: State, a: SweepStep, id: Id)
    requires SweepEnabled(d, s, a)
    ensures Untouched(s, SweepNext(d, s, a), id)
  {
    SweepLeaves(d, s, a);
  }

  lemma SpawnFrame(d: Discipline, s: State, a: SpawnStep, id: Id)
    requires SpawnEnabled(d, s, a) && a.id != id
    ensures Untouched(s, SpawnNext(d, s, a), id)
  {}

  lemma RollbackFrame(d: Discipline, s: State, a: RollbackStep, id: Id)
    requires RollbackEnabled(d, s, a) && a.id != id
    ensures Untouched(s, RollbackNext(d, s, a), id)
  {}

  lemma AdoptFrame(d: Discipline, s: State, a: AdoptStep, id: Id)
    requires AdoptEnabled(d, s, a) && a.id != id
    ensures Untouched(s, AdoptNext(d, s, a), id)
  {}

  lemma OwnerBystander(s: State, s': State, id: Id)
    requires OwnerInv(s) && Untouched(s, s', id)
    ensures OwnerIdInv(s', id)
  {
    assert OwnerIdInv(s, id) && OracleIdInv(s, id);
    assert s'.UnderDestroy(id) == s.UnderDestroy(id);
    if t :| FreedBy(s, t, id) { assert FreedBy(s', t, id); }
  }

  /** What carries the ownership over from s to s': the oracle's invariant, an injective pool, the same destroys. */
  ghost predicate Carries(s: State, s': State) {
    && OracleInv(s') && Injective(s'.held) && s'.destroys == s.destroys
    && (forall t :: t in s.destroys ==> DestroyInv(s', t))
  }

  lemma OwnerCarried(s: State, s': State)
    requires OwnerInv(s) && Carries(s, s') && forall id :: Untouched(s, s', id) || OwnerIdInv(s', id)
    ensures OwnerInv(s')
  {
    forall id ensures OwnerIdInv(s', id) {
      if Untouched(s, s', id) { OwnerBystander(s, s', id); }
    }
  }

  lemma OwnerSweep(d: Discipline, s: State, a: SweepStep)
    requires d.OracleSound() && OwnerInv(s) && SweepEnabled(d, s, a)
    ensures OwnerInv(SweepNext(d, s, a))
  {
    var s' := SweepNext(d, s, a);
    OracleSweep(d, s, a);
    SweepLeaves(d, s, a);
    forall t | t in s.destroys ensures DestroyInv(s', t) { assert DestroyInv(s, t); }
    forall id ensures Untouched(s, s', id) { SweepFrame(d, s, a, id); }
    OwnerCarried(s, s');
  }

  lemma SpawnOwner(d: Discipline, s: State, a: SpawnStep, s': State)
    requires d.OracleSound() && d.serialised && OwnerInv(s) && SpawnEnabled(d, s, a) && s' == SpawnNext(d, s, a)
    ensures OwnerIdInv(s', a.id)
  {
    assert OwnerIdInv(s, a.id) && OracleIdInv(s, a.id);
    assert s'.UnderDestroy(a.id) == s.UnderDestroy(a.id);
    if t :| FreedBy(s, t, a.id) { assert FreedBy(s', t, a.id); }
  }

  lemma OwnerSpawn(d: Discipline, s: State, a: SpawnStep)
    requires d.OracleSound() && d.serialised && OwnerInv(s) && SpawnEnabled(d, s, a)
    ensures OwnerInv(SpawnNext(d, s, a))
  {
    var s' := SpawnNext(d, s, a);
    OracleSpawn(d, s, a);
    SpawnOwner(d, s, a, s');
    forall t | t in s.destroys ensures DestroyInv(s', t) { assert DestroyInv(s, t) && OwnerIdInv(s, s.destroys[t].id); }
    forall id ensures Untouched(s, s', id) || OwnerIdInv(s', id) {
      if id != a.id { SpawnFrame(d, s, a, id); }
    }
    OwnerCarried(s, s');
  }

  lemma OwnerRollback(d: Discipline, s: State, a: RollbackStep)
    requires d.OracleSound() && d.serialised && OwnerInv(s) && RollbackEnabled(d, s, a)
    ensures OwnerInv(RollbackNext(d, s, a))
  {
    var s' := RollbackNext(d, s, a);
    OracleRollback(d, s, a);
    assert OwnerIdInv(s, a.id) && s'.UnderDestroy(a.id) == s.UnderDestroy(a.id);
    forall t | t in s.destroys ensures DestroyInv(s', t) { assert DestroyInv(s, t); }
    forall id ensures Untouched(s, s', id) || OwnerIdInv(s', id) {
      if id != a.id { RollbackFrame(d, s, a, id); }
    }
    OwnerCarried(s, s');
  }

  lemma AdoptOwner(d: Discipline, s: State, a: AdoptStep, s': State)
    requires d.OracleSound() && d.serialised && OwnerInv(s) && AdoptEnabled(d, s, a) && s' == AdoptNext(d, s, a)
    ensures OwnerIdInv(s', a.id)
  {
    assert OwnerIdInv(s, a.id) && OracleIdInv(s, a.id);
    assert s'.UnderDestroy(a.id) == s.UnderDestroy(a.id);
    if t :| FreedBy(s, t, a.id) { assert FreedBy(s', t, a.id); }
  }

  lemma OwnerAdopt(d: Discipline, s: State, a: AdoptStep)
    requires d.OracleSound() && d.serialised && OwnerInv(s) && AdoptEnabled(d, s, a)
    ensures OwnerInv(AdoptNext(d, s, a))
  {
    var s' := AdoptNext(d, s, a);
    OracleAdopt(d, s, a);
    AdoptOwner(d, s, a, s');
    forall t | t in s.destroys ensures DestroyInv(s', t) { assert DestroyInv(s, t) && OwnerIdInv(s, s.destroys[t].id); }
    forall id ensures Untouched(s, s', id) || OwnerIdInv(s', id) {
      if id != a.id { AdoptFrame(d, s, a, id); }
    }
    OwnerCarried(s, s');
  }

  lemma OwnerDestroy(d: Discipline, s: State, a: DestroyStep)
    requires d.OracleSound() && d.serialised && OwnerInv(s) && DestroyEnabled(d, s, a)
    ensures OwnerInv(DestroyNext(d, s, a))
  {
    var s' := DestroyNext(d, s, a);
    OracleDestroy(d, s, a);
    assert s'.phases == s.phases;
    var u := a.thread;
    if !a.DestroyBegin? { assert DestroyInv(s, u); }
    forall id ensures OwnerIdInv(s', id) {
      assert OwnerIdInv(s, id);
      assert s'.Phase(id) == s.Phase(id);
      if t :| t in s'.destroys && s'.destroys[t].id == id {
        assert (t in s.destroys && s.destroys[t].id == id) || a == DestroyBegin(t, id);
      }
      if id in s'.tracked && !Holds(s', id, s'.tracked[id]) {
        if t :| FreedBy(s, t, id) {
          assert FreedBy(s', t, id);
        } else {
          assert FreedBy(s', u, id);
        }
      }
    }
    forall t | t in s'.destroys ensures DestroyInv(s', t) {
      if t in s.destroys { assert DestroyInv(s, t); }
    }
  }

  lemma OwnerStep(d: Discipline, s: State, a: Action)
    requires d.OracleSound() && d.serialised && OwnerInv(s) && Enabled(d, s, a)
    ensures OwnerInv(Next(d, s, a))
  {
    match a
    case OfSpawn(b) => OwnerSpawn(d, s, b);
    case OfRollback(b) => OwnerRollback(d, s, b);
    case OfAdoption(b) => OwnerAdopt(d, s, b);
    case OfRetry(b) => NoRetries(d, s, b);
    case OfDestroy(b) => OwnerDestroy(d, s, b);
    case OfSweep(b) => OwnerSweep(d, s, b);
  }

  lemma {:induction false} OwnerRun(d: Discipline, s: State, run: seq<Action>)
    requires d.OracleSound() && d.serialised && OwnerInv(s) && Legal(d, s, run)
    ensures OwnerInv(Exec(d, s, run))
    decreases |run|
  {
    if run != [] {
      OwnerStep(d, s, run[0]);
      OwnerRun(d, Next(d, s, run[0]), run[1..]);
    }
  }

  lemma OwnersApart(s: State, a: Id, b: Id)
    requires OwnerInv(s)
    ensures !Collides(s, a, b)
  {
    if Collides(s, a, b) {
      UserHolds(s, a);
      UserHolds(s, b);
      assert false;
    }
  }

  lemma UserHolds(s: State, id: Id)
    requires OwnerInv(s) && Uses(s, id).Some? && !s.UnderDestroy(id)
    ensures Holds(s, id, Uses(s, id).value)
  {
    assert OwnerIdInv(s, id) && OracleIdInv(s, id);
    assert forall t :: FreedBy(s, t, id) ==> s.UnderDestroy(id);
  }

  const Y: Id := "y"

  /** A destroy frees the range under a running spawn, and the next spawn is given the same one. */
  lemma CollideOverlapping(d: Discipline) returns (s: State)
    requires d.OracleSound() && !d.serialised
    ensures Reachable(d, s) && Collides(s, X, Y)
  {
    s := UpToAllocated(d);
    s := HalfDestroyed(d, s);
    s := RestDestroyed(d, s);
    s := DoMark(d, s, Y);
    s := DoAllocate(d, s, Y);
    assert Uses(s, X) == Some(0) == Uses(s, Y);
  }

  /**
   With the oracle's habits kept, no two agents outside a teardown ever use the same slot,
   exactly when a destroy never overlaps a spawn or adoption of the id it tears down.
   */
  lemma PortsExclusiveExactly(d: Discipline)
    requires d.OracleSound()
    ensures d.serialised <==> forall s, a, b :: Reachable(d, s) ==> !Collides(s, a, b)
  {
    if d.serialised {
      forall s, a, b | Reachable(d, s) ensures !Collides(s, a, b) {
        var capacity: nat, run :| Legal(d, Init(capacity), run) && Exec(d, Init(capacity), run) == s;
        OwnerRun(d, Init(capacity), run);
        OwnersApart(s, a, b);
      }
    } else {
      var s := CollideOverlapping(d);
    }
  }

  predicate HasSlot(p: Phase) {
    p.AllocatedUnmarked? || p.Allocated? || p.ClearedUnregistered? || p.Registered? || p.Cleared? || p.Adopting? || p.AdoptRegistered?
  }

  /** Every slot on any of the books of id is one the pool has. */
  predicate BelowAt(s: State, id: Id) {
    && (id in s.held ==> s.held[id] < s.capacity)
    && (id in s.tracked ==> s.tracked[id] < s.capacity)
    && (HasSlot(s.Phase(id)) ==> s.Phase(id).slot < s.capacity)
  }

  lemma BelowSpawn(d: Discipline, s: State, a: SpawnStep, id: Id)
    requires SpawnEnabled(d, s, a) && BelowAt(s, id)
    ensures BelowAt(SpawnNext(d, s, a), id)
  {}

  lemma BelowRollback(d: Discipline, s: State, a: RollbackStep, id: Id)
    requires RollbackEnabled(d, s, a) && BelowAt(s, id)
    ensures BelowAt(RollbackNext(d, s, a), id)
  {}

  lemma BelowAdopt(d: Discipline, s: State, a: AdoptStep, id: Id)
    requires AdoptEnabled(d, s, a) && BelowAt(s, id)
    ensures BelowAt(AdoptNext(d, s, a), id)
  {}

  lemma BelowRetry(d: Discipline, s: State, a: RetryStep, id: Id)
    requires RetryEnabled(d, s, a) && BelowAt(s, id)
    ensures BelowAt(RetryNext(d, s, a), id)
  {}

  lemma BelowDestroy(d: Discipline, s: State, a: DestroyStep, id: Id)
    requires DestroyEnabled(d, s, a) && BelowAt(s, id)
    ensures BelowAt(DestroyNext(d, s, a), id)
  {}

  lemma BelowSweep(d: Discipline, s: State, a: SweepStep, id: Id)
    requires SweepEnabled(d, s, a) && BelowAt(s, id)
    ensures BelowAt(SweepNext(d, s, a), id)
  {}

  lemma BelowStep(d: Discipline, s: State, a: Action)
    requires Enabled(d, s, a) && forall id :: BelowAt(s, id)
    ensures forall id :: BelowAt(Next(d, s, a), id)
  {
    forall id ensures BelowAt(Next(d, s, a), id) {
      assert BelowAt(s, id);
      match a
      case OfSpawn(b) => BelowSpawn(d, s, b, id);
      case OfRollback(b) => BelowRollback(d, s, b, id);
      case OfAdoption(b) => BelowAdopt(d, s, b, id);
      case OfRetry(b) => BelowRetry(d, s, b, id);
      case OfDestroy(b) => BelowDestroy(d, s, b, id);
      case OfSweep(b) => BelowSweep(d, s, b, id);
    }
  }

  lemma {:induction false} BelowRun(d: Discipline, s: State, run: seq<Action>)
    requires Legal(d, s, run) && forall id :: BelowAt(s, id)
    ensures forall id :: BelowAt(Exec(d, s, run), id)
    decreases |run|
  {
    if run != [] {
      BelowStep(d, s, run[0]);
      BelowRun(d, Next(d, s, run[0]), run[1..]);
    }
  }

  lemma ReachableBelow(d: Discipline, s: State, id: Id)
    requires Reachable(d, s)
    ensures BelowAt(s, id)
  {
    var capacity: nat, run :| Legal(d, Init(capacity), run) && Exec(d, Init(capacity), run) == s;
    BelowRun(d, Init(capacity), run);
  }

  /** The same in ports, for a pool with at least the machine's slots: the two agents' inclusive ranges have no port in common. */
  lemma LiveRangesDisjoint(d: Discipline, s: State, g: Geometry, a: Id, b: Id)
    requires d.OracleSound() && d.serialised && Reachable(d, s)
    requires g.Valid() && s.capacity <= g.numRanges && a != b && !s.UnderDestroy(a) && !s.UnderDestroy(b)
    requires Uses(s, a).Some? && Uses(s, b).Some?
    ensures g.Slot(Uses(s, a).value) < U32_SPAN && g.Slot(Uses(s, b).value) < U32_SPAN
    ensures Disjoint(RangeAt(g, g.Slot(Uses(s, a).value)), RangeAt(g, g.Slot(Uses(s, b).value)))
  {
    PortsExclusiveExactly(d);
    ReachableBelow(d, s, a);
    ReachableBelow(d, s, b);
    var i, j := Uses(s, a).value, Uses(s, b).value;
    assert !Collides(s, a, b);
    if i < j { SlotsApart(g, i, j); } else { SlotsApart(g, j, i); }
    SlotRangesDisjoint(g, g.Slot(i), g.Slot(j));
  }
}
