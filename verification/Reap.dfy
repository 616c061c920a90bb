/**
 The bounded SIGTERM, wait, SIGKILL escalation over one uid
 (reapUIDProcessesBounded of internal/agent/df_bunker_63.go). Times are in milliseconds.
 */
module Reap {

  /** A live process; session: it belongs to the agent's own login session. */
  datatype Proc = Proc(pid: int, session: bool)

  datatype Scan = ScanFailed | Seen(procs: seq<Proc>)

  datatype Signal = Signal(pid: int, kill: bool)

  const GRACE: int := 5000
  const POLL: int := 100
  const SLACK: int := 32768

  /**
   What the host shows during one escalation: the destroy's own pid and, for the
   wait after SIGTERM and the wait after SIGKILL, the clock readings and the scans.
   */
  datatype KillHost = KillHost(
    self: int,
    termClock: nat -> int, termScan: nat -> Scan,
    killClock: nat -> int, killScan: nat -> Scan)
  {
    ghost predicate Valid() {
      Paced(termClock) && Paced(killClock)
    }
  }

  /** Reading 0 sets the deadline; between later readings one poll interval is slept. */
  ghost predicate Paced(clock: nat -> int) {
    && clock(0) <= clock(1)
    && forall n: nat :: n >= 1 ==> Slept(clock, n)
  }

  ghost predicate Slept(clock: nat -> int, n: nat) {
    clock(n) + POLL <= clock(n + 1)
  }

  /** The destroy's own pid window, which no signal may enter. */
  predicate Excluded(self: int, pid: int) {
    -SLACK <= pid - self <= SLACK
  }

  function Targets(self: int, procs: seq<Proc>): seq<Proc> {
    if procs == [] then []
    else (if Excluded(self, procs[0].pid) then [] else [procs[0]]) + Targets(self, procs[1..])
  }

  /** One round: each process outside the window, in order. */
  method SignalAll(self: int, procs: seq<Proc>, kill: bool) returns (sent: seq<Signal>)
    ensures |sent| == |Targets(self, procs)|
    ensures forall i :: 0 <= i < |sent| ==> sent[i] == Signal(Targets(self, procs)[i].pid, kill)
  {
    sent := [];
    var i := 0;
    assert procs[0..] == procs;
    while i < |procs|
      invariant 0 <= i <= |procs|
      invariant |sent| + |Targets(self, procs[i..])| == |Targets(self, procs)|
      invariant forall k :: 0 <= k < |sent| ==> sent[k] == Signal(Targets(self, procs)[k].pid, kill)
      invariant Targets(self, procs)[|sent|..] == Targets(self, procs[i..])
    {
      assert procs[i..][1..] == procs[i + 1..];
      if !Excluded(self, procs[i].pid) {
        assert Targets(self, procs[i..])[0] == procs[i];
        sent := sent + [Signal(procs[i].pid, kill)];
      }
      i := i + 1;
    }
    assert procs[i..] == [];
  }

  lemma {:induction false} TargetsOutside(self: int, procs: seq<Proc>)
    ensures forall p :: p in Targets(self, procs) <==> p in procs && !Excluded(self, p.pid)
  {
    if procs != [] {
      TargetsOutside(self, procs[1..]);
    }
  }

  lemma {:induction false} PacedFrom(clock: nat -> int, n: nat)
    requires Paced(clock) && n >= 1
    ensures clock(n) >= clock(0) + (n - 1) * POLL
  {
    if n > 1 {
      PacedFrom(clock, n - 1);
      assert Slept(clock, n - 1);
    }
  }

  /** The wait after SIGTERM: who is still there, at most 51 scans later. */
  method AwaitTerm(h: KillHost, procs: seq<Proc>) returns (survivors: seq<Proc>, scans: nat)
    requires h.Valid()
    ensures 1 <= scans <= 51
    ensures survivors == match h.termScan(scans - 1)
                         case ScanFailed => procs
                         case Seen(now) => Targets(h.self, now)
  {
    var deadline := h.termClock(0) + GRACE;
    scans := 0;
    while true
      invariant 0 <= scans <= 50
      decreases 51 - scans
    {
      match h.termScan(scans) {
        case ScanFailed =>
          scans := scans + 1;
          return procs, scans;
        case Seen(now) =>
          survivors := Targets(h.self, now);
      }
      scans := scans + 1;
      PacedFrom(h.termClock, scans);
      if |survivors| == 0 || h.termClock(scans) >= deadline {
        return;
      }
    }
  }

  /** The wait after SIGKILL: at most 50 scans, then the verdict probe reports what it sees. */
  method AwaitKill(h: KillHost) returns (scans: nat)
    requires h.Valid()
    ensures scans <= 50
  {
    var waitDeadline := h.killClock(0) + GRACE;
    scans := 0;
    PacedFrom(h.killClock, 1);
    while h.killClock(scans + 1) < waitDeadline
      invariant scans <= 50
      decreases 51 - scans
    {
      PacedFrom(h.killClock, scans + 1);
      var seen := h.killScan(scans);
      scans := scans + 1;
      PacedFrom(h.killClock, scans + 1);
      if seen.ScanFailed? || |Targets(h.self, seen.procs)| == 0 {
        return;
      }
    }
  }

  /** Everything the escalation sends, and the scans it spends. */
  method ReapBounded(h: KillHost, procs: seq<Proc>)
    returns (sent: seq<Signal>, survivors: seq<Proc>, scans: nat)
    requires h.Valid()
    ensures forall s :: s in sent ==> !Excluded(h.self, s.pid)
    ensures forall p :: p in procs && !Excluded(h.self, p.pid) ==> Signal(p.pid, false) in sent
    ensures forall s :: s in sent && !s.kill ==> exists p :: p in procs && p.pid == s.pid
    ensures exists n: nat :: n <= 50 && survivors == match h.termScan(n) case ScanFailed => procs case Seen(now) => Targets(h.self, now)
    ensures forall s :: s in sent && s.kill ==> exists p :: p in survivors && p.pid == s.pid
    ensures forall p :: p in survivors && !Excluded(h.self, p.pid) ==> Signal(p.pid, true) in sent
    ensures forall i, j :: 0 <= i < j < |sent| && sent[i].kill ==> sent[j].kill
    ensures scans <= 102
  {
    var term := SignalAll(h.self, procs, false);
    TargetsOutside(h.self, procs);
    survivors, scans := AwaitTerm(h, procs);
    assert scans - 1 <= 50;
    sent := term;
    RoundSound(h.self, procs, term, false);
    if |survivors| > 0 {
      var kill := SignalAll(h.self, survivors, true);
      TargetsOutside(h.self, survivors);
      RoundSound(h.self, survivors, kill, true);
      sent := term + kill;
      var more := AwaitKill(h);
      scans := scans + more;
    }
    scans := scans + 1; // the verdict probe
  }

  lemma RoundSound(self: int, procs: seq<Proc>, sent: seq<Signal>, kill: bool)
    requires |sent| == |Targets(self, procs)|
    requires forall i :: 0 <= i < |sent| ==> sent[i] == Signal(Targets(self, procs)[i].pid, kill)
    ensures forall s :: s in sent ==> s.kill == kill && !Excluded(self, s.pid) && exists p :: p in procs && p.pid == s.pid
    ensures forall p :: p in procs && !Excluded(self, p.pid) ==> Signal(p.pid, kill) in sent
  {
    var t := Targets(self, procs);
    TargetsOutside(self, procs);
    forall s | s in sent
      ensures s.kill == kill && !Excluded(self, s.pid) && exists p :: p in procs && p.pid == s.pid
    {
      var i :| 0 <= i < |sent| && sent[i] == s;
      assert t[i] in t;
    }
    forall p | p in procs && !Excluded(self, p.pid) ensures Signal(p.pid, kill) in sent {
      assert p in t;
      var i :| 0 <= i < |t| && t[i] == p;
      assert sent[i] == Signal(p.pid, kill);
    }
  }
}
