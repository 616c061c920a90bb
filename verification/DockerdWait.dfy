/**
 The dockerd readiness wait (internal/agent/manager_spawn.go): budgets that grow
 with the number of waits in flight, deadlines that latch, and a fail-fast exit
 for a daemon that never appears. Times are in milliseconds.
 */
module DockerdWait {
  import opened PortPool

  const BUDGET_BASE := 30000
  const BUDGET_PER_START := 10000
  const BUDGET_MAX := 120000
  const GRACE_BASE := 5000
  const GRACE_PER_START := 2000
  const POLL := 200

  /** dockerdReadyBudget. */
  function Budget(inFlight: int): int {
    var n := if inFlight < 1 then 1 else inFlight;
    var scaled := n * BUDGET_PER_START;
    var budget := if scaled > BUDGET_BASE then scaled else BUDGET_BASE;
    if budget > BUDGET_MAX then BUDGET_MAX else budget
  }

  /** dockerdReadyProcessGrace. */
  function Grace(inFlight: int): int {
    var n := if inFlight < 1 then 1 else inFlight;
    var grace := GRACE_BASE + (n - 1) * GRACE_PER_START;
    if grace > Budget(n) then Budget(n) else grace
  }

  /** Both windows grow with contention, the grace stays inside the budget, the budget inside two minutes. */
  lemma Windows(a: int, b: int)
    requires a <= b
    ensures Budget(a) <= Budget(b) && Grace(a) <= Grace(b)
    ensures GRACE_BASE <= Grace(a) <= Budget(a) && BUDGET_BASE <= Budget(a) <= BUDGET_MAX
  {}

  /** Three starts share the base budget, twelve reach the cap; the grace meets its budget only at 59 starts. */
  lemma WindowTable(n: int)
    ensures n <= 3 ==> Budget(n) == 30000
    ensures 3 <= n <= 12 ==> Budget(n) == 10000 * n
    ensures n >= 12 ==> Budget(n) == 120000
    ensures n <= 1 ==> Grace(n) == 5000
    ensures 1 <= n <= 58 ==> Grace(n) == 3000 + 2000 * n < Budget(n)
    ensures n >= 59 ==> Grace(n) == 120000
  {}

  // ---- one wait ----

  /** The latched deadlines of a wait, with every count it has read and every process check it has made. */
  datatype Wait = Wait(started: int, concurrent: int, deadline: int, processDeadline: int, seen: bool,
                       observed: seq<int>, probed: seq<bool>)

  function Entered(started: int, count: int): Wait {
    Wait(started, count, started + Budget(count), started + Grace(count), false, [count], [])
  }

  /** The latch at the top of the loop. */
  function Observe(w: Wait, active: int): Wait {
    var w := w.(observed := w.observed + [active]);
    if active <= w.concurrent then w
    else
      var d, p := w.started + Budget(active), w.started + Grace(active);
      w.(concurrent := active,
         deadline := if d > w.deadline then d else w.deadline,
         processDeadline := if p > w.processDeadline then p else w.processDeadline)
  }

  function Probe(w: Wait, running: bool): Wait {
    w.(seen := w.seen || running, probed := w.probed + [running])
  }

  ghost predicate IsMax(m: int, s: seq<int>) {
    m in s && forall x :: x in s ==> x <= m
  }

  /** The deadlines are those of the largest concurrency observed; seen means a check found the process. */
  ghost predicate Latched(w: Wait) {
    && IsMax(w.concurrent, w.observed)
    && w.deadline == w.started + Budget(w.concurrent)
    && w.processDeadline == w.started + Grace(w.concurrent)
    && (w.seen <==> true in w.probed)
  }

  lemma EnteredLatched(started: int, count: int)
    ensures Latched(Entered(started, count))
  {}

  lemma ObserveLatched(w: Wait, active: int)
    requires Latched(w)
    ensures Latched(Observe(w, active))
    ensures Observe(w, active).deadline >= w.deadline && Observe(w, active).processDeadline >= w.processDeadline
  {}

  lemma ProbeLatched(w: Wait, running: bool)
    requires Latched(w)
    ensures Latched(Probe(w, running))
  {}

  /** Process deadline, readiness deadline and the hard cap, in that order. */
  lemma DeadlinesOrdered(w: Wait)
    requires Latched(w)
    ensures w.started + GRACE_BASE <= w.processDeadline <= w.deadline <= w.started + BUDGET_MAX
  {}

  datatype Socket = NoSocket | SocketUp | SymlinkFails

  datatype Outcome = Ready | Cancelled | SymlinkFailed | NoProcess | TimedOut

  /** The answers met by one wait: clock readings, peer counts, checks, and its context. */
  datatype WaitHost = WaitHost(started: int, entered: int, active: nat -> int, running: nat -> bool, socket: nat -> Socket,
                               graceClock: nat -> int, clock: nat -> int, cancelled: nat -> bool, cancelledAsleep: nat -> bool)
  {
    /** Time does not run backwards and every sleep lasts at least one poll interval. */
    ghost predicate Valid() {
      && started <= graceClock(0)
      && (forall i: nat :: graceClock(i) <= clock(i))
      && (forall i: nat :: NextPoll(i))
    }

    ghost predicate NextPoll(i: nat) {
      clock(i) + POLL <= graceClock(i + 1)
    }
  }

  /** No check up to turn k found the process. */
  ghost predicate Unseen(h: WaitHost, k: nat) {
    forall j: nat :: j <= k ==> !h.running(j)
  }

  /** Turn k had a reason to go on: in time, no socket yet, and the grace not spent unseen. */
  ghost predicate MayGoOn(h: WaitHost, k: nat, w: Wait) {
    && h.clock(k) < w.deadline
    && (h.running(k) ==> h.socket(k) == NoSocket)
    && (Unseen(h, k) ==> h.graceClock(k) < w.processDeadline)
  }

  ghost predicate WentOn(h: WaitHost, n: nat, w: Wait) {
    forall k: nat :: k < n ==> MayGoOn(h, k, w)
  }

  /** The checks recorded are the host's answers. */
  ghost predicate Recorded(h: WaitHost, w: Wait) {
    forall k: nat {:trigger w.probed[k]} :: k < |w.probed| ==> w.probed[k] == h.running(k)
  }

  lemma WentOnLonger(h: WaitHost, n: nat, w: Wait, w': Wait)
    requires WentOn(h, n, w) && w.deadline <= w'.deadline && w.processDeadline <= w'.processDeadline
    ensures WentOn(h, n, w')
  {
    forall k: nat | k < n ensures MayGoOn(h, k, w') {
      assert MayGoOn(h, k, w);
    }
  }

  lemma UnseenRecorded(h: WaitHost, w: Wait)
    requires Latched(w) && Recorded(h, w) && |w.probed| > 0
    ensures Unseen(h, |w.probed| - 1) <==> !w.seen
  {
    if w.seen {
      var k :| 0 <= k < |w.probed| && w.probed[k];
      assert h.running(k);
    } else {
      forall j: nat | j <= |w.probed| - 1 ensures !h.running(j) {
        assert w.probed[j] in w.probed;
      }
    }
  }

  /** Why the wait ended in its last turn. */
  ghost predicate Ends(h: WaitHost, o: Outcome, w: Wait) {
    var n := |w.probed|;
    match o
    case Ready => n > 0 && h.running(n - 1) && h.socket(n - 1) == SocketUp
    case SymlinkFailed => n > 0 && h.running(n - 1) && h.socket(n - 1) == SymlinkFails
    case NoProcess => n > 0 && Unseen(h, n - 1) && h.graceClock(n - 1) >= w.processDeadline
    case TimedOut => n > 0 && h.clock(n - 1) >= w.deadline
    case Cancelled => h.cancelled(n) || (n > 0 && h.cancelledAsleep(n - 1))
  }

  /** The rest of turn k, from the process check to the sleep. */
  method Turn(h: WaitHost, w: Wait) returns (o: Option<Outcome>, w': Wait)
    requires Latched(w) && Recorded(h, w) && WentOn(h, |w.probed|, w)
    ensures w' == Probe(w, h.running(|w.probed|))
    ensures Latched(w') && Recorded(h, w') && WentOn(h, |w.probed|, w')
    ensures o.Some? ==> Ends(h, o.value, w')
    ensures o.None? ==> WentOn(h, |w'.probed|, w')
  {
    var k := |w.probed|;
    var running := h.running(k);
    ProbeLatched(w, running);
    w' := Probe(w, running);
    UnseenRecorded(h, w');
    WentOnLonger(h, k, w, w');
    if running {
      if h.socket(k) == SocketUp {
        return Some(Ready), w';
      }
      if h.socket(k) == SymlinkFails {
        return Some(SymlinkFailed), w';
      }
    } else if !w'.seen && h.graceClock(k) >= w'.processDeadline {
      return Some(NoProcess), w';
    }
    if h.clock(k) >= w'.deadline {
      return Some(TimedOut), w';
    }
    o := if h.cancelledAsleep(k) then Some(Cancelled) else None;
  }

  /** The top of turn k: peers that joined since stretch both deadlines, and nothing shortens them. */
  method Latch(h: WaitHost, w: Wait) returns (w': Wait)
    requires Latched(w) && Recorded(h, w) && WentOn(h, |w.probed|, w)
    ensures w' == Observe(w, h.active(|w.probed|))
    ensures Latched(w') && Recorded(h, w') && WentOn(h, |w'.probed|, w')
  {
    var active := h.active(|w.probed|);
    w' := w.(observed := w.observed + [active]);
    if active > w.concurrent {
      w' := w'.(concurrent := active);
      if w.started + Budget(active) > w.deadline {
        w' := w'.(deadline := w.started + Budget(active));
      }
      if w.started + Grace(active) > w.processDeadline {
        w' := w'.(processDeadline := w.started + Grace(active));
      }
    }
    ObserveLatched(w, active);
    WentOnLonger(h, |w.probed|, w, w');
  }

  /** waitForDockerd: one process check per turn, at most 601 of them. */
  method WaitForDockerd(h: WaitHost) returns (o: Outcome, w: Wait)
    requires h.Valid()
    ensures Latched(w) && w.started == h.started && Recorded(h, w)
    ensures Ends(h, o, w)
    ensures |w.probed| > 0 ==> WentOn(h, |w.probed| - 1, w)
    ensures |w.probed| <= BUDGET_MAX / POLL + 1
  {
    w := Entered(h.started, h.entered);
    EnteredLatched(h.started, h.entered);
    while true
      invariant Latched(w) && w.started == h.started && Recorded(h, w) && WentOn(h, |w.probed|, w)
      invariant h.started + |w.probed| * POLL <= h.graceClock(|w.probed|)
      invariant (|w.probed| - 1) * POLL < BUDGET_MAX
      decreases h.started + BUDGET_MAX - h.graceClock(|w.probed|)
    {
      ghost var k := |w.probed|;
      if h.cancelled(|w.probed|) {
        return Cancelled, w;
      }
      w := Latch(h, w);
      DeadlinesOrdered(w);
      var end;
      end, w := Turn(h, w);
      if end.Some? {
        return end.value, w;
      }
      assert MayGoOn(h, k, w) && w.deadline <= h.started + BUDGET_MAX;
      assert h.graceClock(k) <= h.clock(k) && h.NextPoll(k);
    }
  }

  // ---- any number of waits sharing the in-flight counter ----

  datatype Phase = Top | Looked | Checked | Asleep | Returned(outcome: Outcome, at: int)

  datatype Thread = Thread(w: Wait, phase: Phase)

  /** starting: waits that have read the clock but not yet raised the counter. */
  datatype State = State(clock: int, count: int, starting: map<nat, int>, waits: map<nat, Thread>)

  datatype Action =
    | Tick(ms: nat)
    | Start(id: nat)
    | Enter(id: nat)
    | Look(id: nat)
    | Check(id: nat, running: bool, socket: Socket)
    | Judge(id: nat)
    | Wake(id: nat)
    | Cancel(id: nat)
    | Leave(id: nat)

  const IDLE := State(0, 0, map[], map[])

  predicate At(s: State, id: nat, phase: Phase) {
    id in s.waits && s.waits[id].phase == phase
  }

  /** One step of the clock or of a wait; a step that a wait is not ready for changes nothing. */
  function Step(s: State, a: Action): State {
    match a
    case Tick(ms) => s.(clock := s.clock + ms)
    case Start(id) =>
      if id in s.starting || id in s.waits then s else s.(starting := s.starting[id := s.clock])
    case Enter(id) =>
      if id !in s.starting || id in s.waits then s
      else s.(count := s.count + 1, starting := s.starting - {id},
              waits := s.waits[id := Thread(Entered(s.starting[id], s.count + 1), Top)])
    case Look(id) =>
      if !At(s, id, Top) then s else s.(waits := s.waits[id := Thread(Observe(s.waits[id].w, s.count), Looked)])
    case Check(id, running, socket) =>
      if !At(s, id, Looked) then s
      else
        var w := Probe(s.waits[id].w, running);
        var phase :=
          if running && socket == SocketUp then Returned(Ready, s.clock)
          else if running && socket == SymlinkFails then Returned(SymlinkFailed, s.clock)
          else if !running && !w.seen && s.clock >= w.processDeadline then Returned(NoProcess, s.clock)
          else Checked;
        s.(waits := s.waits[id := Thread(w, phase)])
    case Judge(id) =>
      if !At(s, id, Checked) then s
      else
        var w := s.waits[id].w;
        s.(waits := s.waits[id := Thread(w, if s.clock >= w.deadline then Returned(TimedOut, s.clock) else Asleep)])
    case Wake(id) =>
      if !At(s, id, Asleep) then s else s.(waits := s.waits[id := Thread(s.waits[id].w, Top)])
    case Cancel(id) =>
      if !At(s, id, Top) && !At(s, id, Asleep) then s
      else s.(waits := s.waits[id := Thread(s.waits[id].w, Returned(Cancelled, s.clock))])
    case Leave(id) =>
      if id !in s.waits || !s.waits[id].phase.Returned? then s
      else s.(count := s.count - 1, waits := s.waits - {id})
  }

  function Exec(run: seq<Action>): State {
    if run == [] then IDLE else Step(Exec(run[..|run| - 1]), run[|run| - 1])
  }

  /** What a wait knows and why it returned. */
  ghost predicate ThreadInv(t: Thread) {
    && Latched(t.w)
    && (t.phase.Returned? && t.phase.outcome == NoProcess ==> true !in t.w.probed && t.phase.at >= t.w.processDeadline)
    && (t.phase.Returned? && t.phase.outcome == TimedOut ==> t.phase.at >= t.w.deadline)
    && (t.phase.Returned? && t.phase.outcome == Ready ==> true in t.w.probed)
  }

  ghost predicate Inv(s: State) {
    s.count == |s.waits| && forall id :: id in s.waits ==> ThreadInv(s.waits[id])
  }

  lemma EnterInv(s: State, id: nat)
    requires Inv(s)
    ensures Inv(Step(s, Enter(id)))
  {}

  lemma LeaveInv(s: State, id: nat)
    requires Inv(s)
    ensures Inv(Step(s, Leave(id)))
  {}

  lemma LookInv(s: State, id: nat)
    requires Inv(s)
    ensures Inv(Step(s, Look(id)))
  {}

  lemma CheckInv(s: State, id: nat, running: bool, socket: Socket)
    requires Inv(s)
    ensures Inv(Step(s, Check(id, running, socket)))
  {}

  lemma RestInv(s: State, a: Action)
    requires Inv(s) && (a.Tick? || a.Start? || a.Judge? || a.Wake? || a.Cancel?)
    ensures Inv(Step(s, a))
  {}

  lemma StepInv(s: State, a: Action)
    requires Inv(s)
    ensures Inv(Step(s, a))
  {
    match a
    case Enter(id) => EnterInv(s, id);
    case Leave(id) => LeaveInv(s, id);
    case Look(id) => LookInv(s, id);
    case Check(id, running, socket) => CheckInv(s, id, running, socket);
    case _ => RestInv(s, a);
  }

  lemma {:induction false} RunInv(run: seq<Action>)
    ensures Inv(Exec(run))
  {
    if run != [] {
      RunInv(run[..|run| - 1]);
      StepInv(Exec(run[..|run| - 1]), run[|run| - 1]);
    }
  }

  /**
   In every run the counter is the number of waits entered and not left, and every wait has the
   deadlines of the largest concurrency it observed, ordered and capped.
   */
  lemma RunSound(run: seq<Action>)
    ensures Exec(run).count == |Exec(run).waits|
    ensures forall id :: id in Exec(run).waits ==>
      var t := Exec(run).waits[id];
      ThreadInv(t) && t.w.processDeadline <= t.w.deadline <= t.w.started + BUDGET_MAX
  {
    RunInv(run);
    forall id | id in Exec(run).waits
      ensures var w := Exec(run).waits[id].w; w.processDeadline <= w.deadline <= w.started + BUDGET_MAX
    {
      DeadlinesOrdered(Exec(run).waits[id].w);
    }
  }

  /** No step of any wait, entering, leaving or otherwise, shortens a deadline that is already running. */
  lemma NeverShrinks(run: seq<Action>, a: Action, id: nat)
    requires id in Exec(run).waits && id in Step(Exec(run), a).waits
    ensures var w, w' := Exec(run).waits[id].w, Step(Exec(run), a).waits[id].w;
            w'.started == w.started && w'.deadline >= w.deadline && w'.processDeadline >= w.processDeadline
            && w.observed <= w'.observed && w.probed <= w'.probed
  {}
}
