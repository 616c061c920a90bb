/**
 Bringing an agent's user manager within reach (internal/agent/rootless.go): the
 readiness wait on its bus, the one-shot recovery of a recycled uid, and the
 bounded enable-linger step. Times are in milliseconds.
 */
module UserManager {

  const WAIT_BUDGET := 30000
  const POLL := 200

  /** What a context reports: nothing, cancelled, or past its deadline. */
  datatype Ctx = Live | Cancelled | Expired

  /** A context that is done keeps its reason. */
  predicate Sticky(before: Ctx, after: Ctx) {
    before != Live ==> after == before
  }

  // ---- the readiness wait ----

  /** Answers by attempt: the context before and after the probe, the probe, and the clock after it. */
  datatype BusHost = BusHost(start: int, before: nat -> Ctx, answers: nat -> bool, after: nat -> Ctx, clock: nat -> int) {

    /** Contexts stay done, and the i-th wait ends no earlier than the i-th tick. */
    ghost predicate Valid() {
      forall i: nat :: ValidAt(i)
    }

    ghost predicate ValidAt(i: nat) {
      Sticky(before(i), after(i)) && Sticky(after(i), before(i + 1)) && clock(i) >= start + (i - 1) * POLL
    }
  }

  datatype WaitResult = Answered | GaveUp | Exhausted

  /** Probe k failed with the budget not spent. */
  ghost predicate Failed(h: BusHost, k: nat) {
    !h.answers(k) && h.clock(k) < h.start + WAIT_BUDGET
  }

  /** Probe k failed with the caller still interested and the budget not spent. */
  ghost predicate NotReady(h: BusHost, k: nat) {
    h.before(k) != Cancelled && h.after(k) != Cancelled && Failed(h, k)
  }

  /** A cancel is seen around probe k, with no answer yet and the budget not spent. */
  ghost predicate CutAt(h: BusHost, k: nat) {
    && (forall j: nat :: j < k ==> NotReady(h, j))
    && (h.before(k) == Cancelled || (!h.answers(k) && h.after(k) == Cancelled))
  }

  /** Why a wait of n probes ended; all probes but the last are known to have failed. */
  ghost predicate WaitEnds(h: BusHost, r: WaitResult, n: nat) {
    && (forall k: nat :: k < n - 1 ==> NotReady(h, k))
    && match r
       case Answered => n > 0 && h.before(n - 1) != Cancelled && h.answers(n - 1)
       case GaveUp => (h.before(n) == Cancelled && (n > 0 ==> NotReady(h, n - 1)))
                      || (n > 0 && h.before(n - 1) != Cancelled && !h.answers(n - 1) && h.after(n - 1) == Cancelled)
       case Exhausted => n > 0 && h.before(n - 1) != Cancelled && !h.answers(n - 1) && h.after(n - 1) != Cancelled
                         && h.clock(n - 1) >= h.start + WAIT_BUDGET
  }

  /** waitForUserManagerBus. detached[k]: probe k ran on the wait's own budget, not the caller's. */
  method WaitForBus(h: BusHost) returns (r: WaitResult, detached: seq<bool>)
    requires h.Valid()
    ensures WaitEnds(h, r, |detached|)
    ensures r == Answered <==> |detached| > 0 && h.answers(|detached| - 1)
    ensures r == GaveUp <==> exists k: nat :: CutAt(h, k)
    ensures forall k :: 0 <= k < |detached| ==> detached[k] == (h.before(k) == Expired)
    ensures |detached| <= WAIT_BUDGET / POLL + 2
  {
    detached := [];
    while true
      invariant forall k :: 0 <= k < |detached| ==> NotReady(h, k)
      invariant forall k :: 0 <= k < |detached| ==> detached[k] == (h.before(k) == Expired)
      invariant |detached| <= WAIT_BUDGET / POLL + 1
      decreases WAIT_BUDGET / POLL + 1 - |detached|
    {
      var i := |detached|;
      assert h.ValidAt(i);
      if h.before(i) == Cancelled {
        GivesUpExactly(h, GaveUp, i);
        return GaveUp, detached;
      }
      detached := detached + [h.before(i) == Expired];
      if h.answers(i) {
        GivesUpExactly(h, Answered, i + 1);
        return Answered, detached;
      }
      if h.after(i) == Cancelled {
        GivesUpExactly(h, GaveUp, i + 1);
        return GaveUp, detached;
      }
      if h.clock(i) >= h.start + WAIT_BUDGET {
        GivesUpExactly(h, Exhausted, i + 1);
        return Exhausted, detached;
      }
    }
  }

  /** A wait gives up exactly when a cancel is seen before any answer and before the budget is spent. */
  lemma GivesUpExactly(h: BusHost, r: WaitResult, n: nat)
    requires WaitEnds(h, r, n)
    ensures r == GaveUp <==> exists k: nat :: CutAt(h, k)
  {
    if r == GaveUp {
      assert CutAt(h, n) || CutAt(h, n - 1);
    } else {
      assert !NotReady(h, n - 1) && !CutAt(h, n - 1);
      forall k: nat ensures !CutAt(h, k) {
        assert k < n - 1 ==> NotReady(h, k);
      }
    }
  }

  /**
   What the i-th reading of a caller's context says, two readings a probe, when the caller
   cancels before reading cancel and its deadline passes before reading deadline: the first
   of the two is the reason for good.
   */
  function Reading(cancel: nat, deadline: nat, i: nat): Ctx {
    if i < cancel && i < deadline then Live else if cancel <= deadline then Cancelled else Expired
  }

  ghost predicate Reads(h: BusHost, cancel: nat, deadline: nat, k: nat) {
    h.before(k) == Reading(cancel, deadline, 2 * k) && h.after(k) == Reading(cancel, deadline, 2 * k + 1)
  }

  lemma CutWhere(h: BusHost, cancel: nat, deadline: nat, k: nat)
    requires (forall j: nat :: Reads(h, cancel, deadline, j)) && CutAt(h, k)
    ensures cancel <= deadline && k == cancel / 2
  {
    assert Reads(h, cancel, deadline, k);
    if k > 0 {
      assert NotReady(h, k - 1) && Reads(h, cancel, deadline, k - 1);
    }
  }

  /**
   A cancel ends the wait exactly when it comes no later than the caller's deadline and no probe
   before it has answered or spent the budget; behind the deadline it is never seen.
   */
  lemma CancelHeardExactly(h: BusHost, cancel: nat, deadline: nat, r: WaitResult, n: nat)
    requires (forall k: nat :: Reads(h, cancel, deadline, k)) && WaitEnds(h, r, n)
    ensures r == GaveUp <==>
            && cancel <= deadline && (forall k: nat :: k < cancel / 2 ==> Failed(h, k))
            && (cancel % 2 == 1 ==> !h.answers(cancel / 2))
  {
    GivesUpExactly(h, r, n);
    var c := cancel / 2;
    assert Reads(h, cancel, deadline, c);
    if k: nat :| CutAt(h, k) {
      CutWhere(h, cancel, deadline, k);
      forall j: nat | j < c ensures Failed(h, j) { assert NotReady(h, j); }
    }
    if cancel <= deadline && (forall k: nat :: k < c ==> Failed(h, k)) && (cancel % 2 == 1 ==> !h.answers(c)) {
      forall j: nat | j < c ensures NotReady(h, j) { assert Reads(h, cancel, deadline, j) && Failed(h, j); }
      assert CutAt(h, c);
    }
  }

  /** The deadline passes before the first probe, the caller cancels before the third, and probe good answers. */
  ghost function LateCancel(good: nat): BusHost {
    BusHost(0, (k: nat) => Reading(4, 0, 2 * k), (k: nat) => k == good,
            (k: nat) => Reading(4, 0, 2 * k + 1), (k: nat) => k * POLL)
  }

  /** The cancel of LateCancel goes unseen: the wait runs on to an answer within the budget, or to its end. */
  lemma LateCancelUnseen(good: nat, r: WaitResult, n: nat)
    requires WaitEnds(LateCancel(good), r, n)
    ensures LateCancel(good).Valid()
    ensures if good <= WAIT_BUDGET / POLL then r == Answered && n == good + 1
            else r == Exhausted && n == WAIT_BUDGET / POLL + 1
  {
    var h := LateCancel(good);
    assert forall i: nat :: h.ValidAt(i);
    assert forall k: nat :: Reads(h, 4, 0, k);
    CancelHeardExactly(h, 4, 0, r, n);
    var last := WAIT_BUDGET / POLL;
    assert good < n - 1 ==> NotReady(h, good);
    assert last < n - 1 ==> NotReady(h, last);
  }

  lemma {:induction false} StaysExpired(h: BusHost, k: nat, n: nat)
    requires h.Valid() && h.before(k) == Expired && k <= n
    ensures h.before(n) == Expired && h.after(n) == Expired
  {
    assert h.ValidAt(n);
    if k < n {
      StaysExpired(h, k, n - 1);
      assert h.ValidAt(n - 1);
    }
  }

  /** Once a probe has run past the caller's deadline, no later cancel can cut the wait short. */
  lemma ExpiredNeverGivesUp(h: BusHost, k: nat, n: nat)
    requires h.Valid() && h.before(k) == Expired && k < n
    ensures !WaitEnds(h, GaveUp, n)
  {
    StaysExpired(h, k, n);
    StaysExpired(h, k, n - 1);
  }

  // ---- the recycled-uid recovery ----

  /** logind's record for the uid; name is "" when none could be read. */
  datatype LogindRecord = LogindRecord(name: string, lingers: bool)

  /** classifyForeignLogindRecord; accountExists is what the user database says about the recorded name. */
  predicate ForeignRecord(rec: LogindRecord, username: string, accountExists: bool) {
    rec.name != "" && rec.lingers && (rec.name != username || !accountExists)
  }

  /** The context after a wait is asked for by the number of probes the wait has made. */
  datatype RecoveryHost = RecoveryHost(
    first: BusHost,
    ctxAfterFirst: nat -> Ctx,
    unitActive: bool,
    record: LogindRecord,
    accountExists: bool,
    bringUpOk: bool,
    second: BusHost,
    ctxAfterSecond: nat -> Ctx)
  {
    ghost predicate Valid() {
      first.Valid() && second.Valid() && forall n: nat :: CtxKept(n)
    }

    ghost predicate CtxKept(n: nat) {
      Sticky(first.before(n), ctxAfterFirst(n)) && (n > 0 ==> Sticky(first.after(n - 1), ctxAfterFirst(n)))
    }
  }

  datatype Event = Waited(result: WaitResult, probes: nat) | UnitQueried(active: bool) | LingerCleared(name: string)
                 | TornDown | RecordRechecked | BroughtUp(ok: bool)

  datatype Verdict = Reachable | CallerDone(ctx: Ctx) | Unreachable | BringUpFailed | StillUnreachable

  function RecoveryEvents(h: RecoveryHost, username: string): seq<Event> {
    if ForeignRecord(h.record, username, h.accountExists)
    then [LingerCleared(h.record.name), TornDown, RecordRechecked, BroughtUp(h.bringUpOk)]
    else [TornDown, BroughtUp(h.bringUpOk)]
  }

  /** The run has the shape the recovery promises, and its verdict is explained. */
  ghost predicate Sound(v: Verdict, trace: seq<Event>, h: RecoveryHost, username: string) {
    ProvenBy(v, trace, h) && OneShot(trace) && DueTeardown(trace, h, username) && Explained(v, trace, h, username)
  }

  lemma BringUpFailedSound(h: RecoveryHost, username: string, w1: Event, trace: seq<Event>)
    requires w1.Waited? && w1.result == Exhausted && WaitEnds(h.first, Exhausted, w1.probes)
    requires h.ctxAfterFirst(w1.probes) == Live && !h.bringUpOk
    requires trace == [w1, UnitQueried(true)] + RecoveryEvents(h, username)
    ensures Sound(BringUpFailed, trace, h, username)
  {}

  lemma RecoveredSound(h: RecoveryHost, username: string, w1: Event, w2: Event, v: Verdict, trace: seq<Event>)
    requires w1.Waited? && w1.result == Exhausted && WaitEnds(h.first, Exhausted, w1.probes)
    requires w2.Waited? && WaitEnds(h.second, w2.result, w2.probes)
    requires h.ctxAfterFirst(w1.probes) == Live && h.bringUpOk
    requires v == (if w2.result.Answered? then Reachable
                   else if h.ctxAfterSecond(w2.probes) != Live then CallerDone(h.ctxAfterSecond(w2.probes))
                   else StillUnreachable)
    requires trace == [w1, UnitQueried(true)] + RecoveryEvents(h, username) + [w2]
    ensures Sound(v, trace, h, username)
  {}

  /** Clear a foreign record, tear the manager down, re-check the record, bring the manager back. */
  method Recover(h: RecoveryHost, username: string) returns (t: seq<Event>)
    ensures t == RecoveryEvents(h, username)
  {
    var foreign := ForeignRecord(h.record, username, h.accountExists);
    t := if foreign then [LingerCleared(h.record.name)] else [];
    t := t + [TornDown];
    if foreign {
      t := t + [RecordRechecked];
    }
    t := t + [BroughtUp(h.bringUpOk)];
  }

  /** proveUserManagerReachableWithRecovery. */
  method ProveReachable(h: RecoveryHost, username: string) returns (v: Verdict, trace: seq<Event>)
    requires h.Valid()
    ensures Sound(v, trace, h, username)
  {
    var r1, d1 := WaitForBus(h.first);
    trace := [Waited(r1, |d1|)];
    assert h.CtxKept(|d1|);
    if r1.Answered? {
      return Reachable, trace;
    }
    if h.ctxAfterFirst(|d1|) != Live {
      return CallerDone(h.ctxAfterFirst(|d1|)), trace;
    }
    trace := trace + [UnitQueried(h.unitActive)];
    if !h.unitActive {
      return Unreachable, trace;
    }
    var recovery := Recover(h, username);
    trace := trace + recovery;
    if !h.bringUpOk {
      BringUpFailedSound(h, username, Waited(r1, |d1|), trace);
      return BringUpFailed, trace;
    }
    var r2, d2 := WaitForBus(h.second);
    trace := trace + [Waited(r2, |d2|)];
    if r2.Answered? {
      v := Reachable;
    } else {
      v := if h.ctxAfterSecond(|d2|) != Live then CallerDone(h.ctxAfterSecond(|d2|)) else StillUnreachable;
    }
    RecoveredSound(h, username, Waited(r1, |d1|), Waited(r2, |d2|), v, trace);
  }

  /** A wait whose last probe answered. */
  ghost predicate AnsweredLast(e: Event, h: BusHost) {
    e.Waited? && e.probes > 0 && h.answers(e.probes - 1)
  }

  /** Reachable is reported exactly when the last thing done was a wait whose last probe answered. */
  ghost predicate ProvenBy(v: Verdict, trace: seq<Event>, h: RecoveryHost) {
    && |trace| > 0
    && (v == Reachable <==> AnsweredLast(trace[|trace| - 1], if |trace| == 1 then h.first else h.second))
    && (forall i :: 0 <= i < |trace| && trace[i].Waited? ==>
          WaitEnds(if i == 0 then h.first else h.second, trace[i].result, trace[i].probes))
  }

  /** One wait at the start, at most one more and only at the end; at most one teardown. */
  ghost predicate OneShot(trace: seq<Event>) {
    && |trace| > 0 && trace[0].Waited?
    && (forall i :: 0 < i < |trace| && trace[i].Waited? ==> i == |trace| - 1 && trace[i - 1] == BroughtUp(true))
    && (forall i, j :: 0 <= i < j < |trace| ==> !(trace[i].TornDown? && trace[j].TornDown?))
  }

  /** A teardown comes only after a whole failed wait, a live caller and an active unit; linger is cleared only for a foreign record. */
  ghost predicate DueTeardown(trace: seq<Event>, h: RecoveryHost, username: string) {
    && (forall i :: 0 <= i < |trace| && (trace[i].TornDown? || trace[i].LingerCleared?) ==>
          && trace[0].Waited? && trace[0].result == Exhausted
          && h.ctxAfterFirst(trace[0].probes) == Live && i > 1 && trace[1] == UnitQueried(true))
    && (forall i :: 0 <= i < |trace| && trace[i].LingerCleared? ==>
          && trace[i].name == h.record.name && ForeignRecord(h.record, username, h.accountExists)
          && i + 1 < |trace| && trace[i + 1] == TornDown)
  }

  /** What each verdict says about the run; a recovery that is due does happen. */
  ghost predicate Explained(v: Verdict, trace: seq<Event>, h: RecoveryHost, username: string) {
    |trace| > 0 && trace[0].Waited? &&
    match v
    case Reachable => |trace| > 1 ==> TornDown in trace && BroughtUp(true) in trace
    case CallerDone(ctx) => ctx != Live && (|trace| > 1 ==> BroughtUp(true) in trace)
    case Unreachable => trace == [trace[0], UnitQueried(false)] && !h.unitActive
    case BringUpFailed => TornDown in trace && trace[|trace| - 1] == BroughtUp(false)
    case StillUnreachable =>
      && TornDown in trace && trace[|trace| - 1].Waited?
      && (LingerCleared(h.record.name) in trace <==> ForeignRecord(h.record, username, h.accountExists))
  }

  // ---- enable-linger ----

  const LINGER_ATTEMPTS := 3
  const LINGER_WINDOW := 10000
  const LINGER_INTERVAL := 2000

  /** Answers by poll: is the marker there, is the caller gone, and the clock. */
  datatype PollHost = PollHost(start: int, marker: nat -> bool, gone: nat -> bool, clock: nat -> int) {
    /** Only a caller who left ends a wait before its tick. */
    ghost predicate Valid() {
      forall i: nat :: gone(i) || clock(i) >= start + i * LINGER_INTERVAL
    }
  }

  datatype PollResult = Found | WindowOver | CallerGone

  /** Why a poll of n readings ended; the marker is read before anything else. */
  ghost predicate PollEnds(h: PollHost, r: PollResult, n: nat) {
    && n > 0 && (r == Found <==> h.marker(n - 1))
    && (r == CallerGone ==> h.gone(n - 1))
    && (r == WindowOver ==> h.clock(n - 1) >= h.start + LINGER_WINDOW && !h.gone(n - 1))
    && forall k: nat :: k < n - 1 ==> !h.marker(k) && !h.gone(k) && h.clock(k) < h.start + LINGER_WINDOW
  }

  /** pollLingerMarker. */
  method PollLingerMarker(h: PollHost) returns (r: PollResult, polls: nat)
    requires h.Valid()
    ensures PollEnds(h, r, polls) && polls <= LINGER_WINDOW / LINGER_INTERVAL + 1
  {
    polls := 0;
    while true
      invariant polls <= LINGER_WINDOW / LINGER_INTERVAL
      invariant forall k: nat :: k < polls ==> !h.marker(k) && !h.gone(k) && h.clock(k) < h.start + LINGER_WINDOW
      decreases LINGER_WINDOW / LINGER_INTERVAL - polls
    {
      polls := polls + 1;
      if h.marker(polls - 1) {
        return Found, polls;
      }
      if h.gone(polls - 1) {
        return CallerGone, polls;
      }
      if h.clock(polls - 1) >= h.start + LINGER_WINDOW {
        return WindowOver, polls;
      }
    }
  }

  /** loginctl enable-linger: done, a lost reply, or a refusal. */
  datatype Reply = Done | LostReply | Refusal

  /** Answers by attempt; marker and markerAfter are read after a failed reply and after an abandoned poll. */
  datatype LingerHost = LingerHost(gone: nat -> bool, reply: nat -> Reply, marker: nat -> bool, poll: nat -> PollHost,
                                   markerAfter: nat -> bool) {
    ghost predicate Valid() {
      forall i: nat :: poll(i).Valid()
    }
  }

  datatype LingerResult = Lingering | Abandoned | Refused | NeverLanded

  /** Attempt k lost its reply and polled for the marker, with this result. */
  ghost predicate Polled(h: LingerHost, k: nat, r: PollResult) {
    h.reply(k) == LostReply && !h.marker(k) && exists n: nat :: PollEnds(h.poll(k), r, n)
  }

  /** A poll has one outcome. */
  lemma PolledOnce(h: LingerHost, k: nat, r: PollResult, other: PollResult)
    requires Polled(h, k, r) && Polled(h, k, other)
    ensures r == other
  {
    var n: nat :| PollEnds(h.poll(k), r, n);
    var m: nat :| PollEnds(h.poll(k), other, m);
  }

  lemma PolledUnmarked(h: LingerHost, k: nat, r: PollResult)
    requires Polled(h, k, r) && r != Found && (r == CallerGone ==> !h.markerAfter(k))
    ensures !MarkerSeen(h, k)
  {
    if Polled(h, k, Found) {
      PolledOnce(h, k, r, Found);
    }
    if Polled(h, k, CallerGone) {
      PolledOnce(h, k, r, CallerGone);
    }
  }

  /** Attempt k ended with the marker still absent and is worth another. */
  ghost predicate Retried(h: LingerHost, k: nat) {
    !h.gone(k) && Polled(h, k, WindowOver)
  }

  /** The marker was read as present during attempt k. */
  ghost predicate MarkerSeen(h: LingerHost, k: nat) {
    h.marker(k) || Polled(h, k, Found) || (Polled(h, k, CallerGone) && h.markerAfter(k))
  }

  /** enableLinger, at most three attempts: retried only after a lost reply. */
  method EnableLinger(h: LingerHost) returns (r: LingerResult, attempts: nat)
    requires h.Valid()
    ensures attempts <= LINGER_ATTEMPTS && forall k: nat :: k < attempts - 1 ==> Retried(h, k)
    ensures r == Lingering <==> attempts > 0 && (h.reply(attempts - 1) == Done || MarkerSeen(h, attempts - 1))
    ensures r == Refused ==> attempts > 0 && h.reply(attempts - 1) == Refusal && !h.marker(attempts - 1)
    ensures r == NeverLanded ==> attempts == LINGER_ATTEMPTS && Retried(h, attempts - 1)
    ensures r == Abandoned ==>
      || (h.gone(attempts) && (attempts > 0 ==> Retried(h, attempts - 1)))
      || (attempts > 0 && Polled(h, attempts - 1, CallerGone) && !h.markerAfter(attempts - 1))
  {
    attempts := 0;
    while attempts < LINGER_ATTEMPTS
      invariant attempts <= LINGER_ATTEMPTS && forall k: nat :: k < attempts ==> Retried(h, k)
      invariant attempts > 0 ==> !MarkerSeen(h, attempts - 1)
    {
      if h.gone(attempts) {
        assert attempts > 0 ==> Retried(h, attempts - 1);
        return Abandoned, attempts;
      }
      attempts := attempts + 1;
      var k := attempts - 1;
      if h.reply(k) == Done {
        return Lingering, attempts;
      }
      if h.marker(k) {
        return Lingering, attempts;
      }
      if h.reply(k) == Refusal {
        return Refused, attempts;
      }
      var polled, n := PollLingerMarker(h.poll(k));
      assert PollEnds(h.poll(k), polled, n);
      if polled == Found {
        return Lingering, attempts;
      }
      if polled == CallerGone {
        if h.markerAfter(k) {
          return Lingering, attempts;
        }
        PolledUnmarked(h, k, CallerGone);
        return Abandoned, attempts;
      }
      PolledUnmarked(h, k, WindowOver);
    }
    assert Retried(h, attempts - 1);
    r := NeverLanded;
  }

  /** No reading of the marker, in any attempt or poll, finds it. */
  ghost predicate NeverMarked(h: LingerHost) {
    && (forall k: nat :: !h.marker(k) && !h.markerAfter(k))
    && (forall k: nat, n: nat :: !h.poll(k).marker(n))
  }

  /** Where the marker never shows, the step succeeds exactly when a reply says done, and that is believed as it is. */
  method EnableUnmarked(h: LingerHost) returns (r: LingerResult, attempts: nat)
    requires h.Valid() && NeverMarked(h)
    ensures r == Lingering <==> attempts > 0 && h.reply(attempts - 1) == Done
  {
    r, attempts := EnableLinger(h);
  }

  /** A host that answers done at once and never shows the marker. */
  method LingersUnseen() returns (h: LingerHost, r: LingerResult)
    ensures NeverMarked(h) && r == Lingering
  {
    var polls := PollHost(0, n => false, n => false, n => n * LINGER_INTERVAL);
    h := LingerHost(k => false, k => Done, k => false, k => polls, k => false);
    var attempts;
    r, attempts := EnableLinger(h);
    assert attempts > 1 ==> Retried(h, 0);
  }
}
