/**
 The TTL reaper's exponential backoff (internal/agent/df_bunker_63.go,
 internal/agent/manager.go): when a refused destroy is tried again, and how many
 tries fit into a span of time. Times are in milliseconds.
 */
module Reaper {
  import opened PortPool
  import opened Records
  import opened Lifecycle
  import opened Reconciliation

  const SECOND := 1000
  const MINUTE := 60 * SECOND
  const HOUR := 60 * MINUTE

  // ---- the delay ----

  function Pow2(k: nat): (r: nat)
    ensures r >= 1
  {
    if k == 0 then 1 else 2 * Pow2(k - 1)
  }

  /** min(60, 2^(n-1)) minutes, and one minute for n < 1. */
  function Delay(n: int): int {
    if n < 1 then MINUTE else if Pow2(n - 1) >= 60 then HOUR else Pow2(n - 1) * MINUTE
  }

  lemma {:induction false} Pow2Monotone(a: nat, b: nat)
    requires a <= b
    ensures Pow2(a) <= Pow2(b)
  {
    if a < b {
      Pow2Monotone(a, b - 1);
    }
  }

  /** backoffForAttempts: the doubling loop with its early return computes the closed form. */
  method BackoffForAttempts(attempts: int) returns (wait: int)
    ensures wait == Delay(attempts)
  {
    if attempts < 1 {
      return MINUTE;
    }
    wait := MINUTE;
    var i := 1;
    while i < attempts
      invariant 1 <= i <= attempts
      invariant wait == Pow2(i - 1) * MINUTE && wait < HOUR
    {
      wait := wait * 2;
      if wait >= HOUR {
        Pow2Monotone(i, attempts - 1);
        return HOUR;
      }
      i := i + 1;
    }
    if wait > HOUR {
      return HOUR;
    }
  }

  lemma DelayBounds(n: int)
    ensures MINUTE <= Delay(n) <= HOUR
    ensures n >= 7 ==> Delay(n) == HOUR
  {
    if n >= 7 {
      assert Pow2(6) == 64;
      Pow2Monotone(6, n - 1);
    }
  }

  // ---- eligibility ----

  /** reaperBackoffRemaining at time now; None also stands for a missing registry. */
  function Remaining(refusal: Option<Refusal>, now: int): int {
    match refusal
    case None => 0
    case Some(Refusal(_, _, NoStamp)) => 0
    case Some(Refusal(_, attempts, Garbled)) => Delay(attempts)
    case Some(Refusal(_, attempts, At(second))) =>
      var elapsed, wait := now - second * SECOND, Delay(attempts);
      if elapsed >= wait then 0 else wait - elapsed
  }

  predicate Eligible(refusal: Option<Refusal>, now: int) {
    Remaining(refusal, now) <= 0
  }

  /**
   A refused agent becomes eligible again at some time exactly when its time stamp can be read;
   an unparseable stamp restarts the window at every tick, so the reaper never comes back.
   */
  lemma ComesBackExactly(refusal: Option<Refusal>)
    ensures (exists now: int :: Eligible(refusal, now)) <==> !(refusal.Some? && refusal.value.last.Garbled?)
  {
    match refusal
    case None => assert Eligible(refusal, 0);
    case Some(Refusal(_, attempts, stamp)) =>
      DelayBounds(attempts);
      match stamp
      case NoStamp => assert Eligible(refusal, 0);
      case Garbled =>
      case At(second) => assert Eligible(refusal, second * SECOND + Delay(attempts));
  }

  // ---- one agent, refused again and again ----

  /** One try of the reaper: the eligibility check and the refusal that was recorded. */
  datatype Try = Try(check: int, refusedAt: int, status: Status)

  /** The refusal on record after the first n tries. */
  function OnRecord(start: Option<Refusal>, run: seq<Try>, n: nat): Option<Refusal>
    requires n <= |run|
  {
    if n == 0 then start
    else Some(NextRefusal(OnRecord(start, run, n - 1), run[n - 1].status, run[n - 1].refusedAt))
  }

  /** Try k came when the agent was eligible, after the one before it, and was refused after its check. */
  predicate InTurn(start: Option<Refusal>, run: seq<Try>, k: nat)
    requires k < |run|
  {
    && run[k].check <= run[k].refusedAt
    && (k > 0 ==> run[k - 1].refusedAt <= run[k].check)
    && Eligible(OnRecord(start, run, k), run[k].check)
  }

  ghost predicate ReaperRun(start: Option<Refusal>, run: seq<Try>) {
    forall k: nat :: k < |run| ==> InTurn(start, run, k)
  }

  function AttemptsOf(refusal: Option<Refusal>): nat {
    if refusal.Some? then refusal.value.attempts else 0
  }

  lemma {:induction false} AttemptsAddUp(start: Option<Refusal>, run: seq<Try>, n: nat)
    requires n <= |run|
    ensures AttemptsOf(OnRecord(start, run, n)) == AttemptsOf(start) + n
    ensures n > 0 ==> OnRecord(start, run, n).value.last == At(run[n - 1].refusedAt / SECOND)
  {
    if n > 0 {
      AttemptsAddUp(start, run, n - 1);
    }
  }

  /** After the k-th refusal the next try comes later than its backoff minus one second. */
  lemma GapAfterRefusal(start: Option<Refusal>, run: seq<Try>, k: nat)
    requires ReaperRun(start, run) && 0 < k < |run|
    ensures run[k].check - run[k - 1].refusedAt > Delay(AttemptsOf(start) + k) - SECOND
  {
    AttemptsAddUp(start, run, k);
    DelayBounds(AttemptsOf(start) + k);
    assert InTurn(start, run, k);
    Truncated(run[k - 1].refusedAt);
  }

  lemma Truncated(t: int)
    ensures t - SECOND < (t / SECOND) * SECOND <= t
  {}

  /** The least span that n tries can take, counting from the first, with a refusals on record before it. */
  function Span(a: nat, n: nat): int {
    if n <= 1 then 0 else Span(a, n - 1) + Delay(a + n - 1) - (SECOND - 1)
  }

  /** From try i to try j of a run, both included, at least that much time passes. */
  lemma {:induction false} TriesNeedSpan(start: Option<Refusal>, run: seq<Try>, i: nat, j: nat)
    requires ReaperRun(start, run) && i <= j < |run|
    ensures run[j].refusedAt - run[i].refusedAt >= Span(AttemptsOf(start) + i, j - i + 1)
  {
    if i < j {
      TriesNeedSpan(start, run, i, j - 1);
      GapAfterRefusal(start, run, j);
      assert InTurn(start, run, j);
    }
  }

  /** Never more than one try in 59 seconds, and from the seventh refusal on not even one an hour. */
  lemma {:induction false} SpanGrows(a: nat, n: nat)
    requires n >= 1
    ensures Span(a, n) >= (n - 1) * (MINUTE - SECOND)
    ensures a >= 6 ==> Span(a, n) >= (n - 1) * (HOUR - SECOND)
  {
    if n > 1 {
      SpanGrows(a, n - 1);
      DelayBounds(a + n - 1);
      assert (n - 1) * (MINUTE - SECOND) == (n - 2) * (MINUTE - SECOND) + (MINUTE - SECOND);
      assert (n - 1) * (HOUR - SECOND) == (n - 2) * (HOUR - SECOND) + (HOUR - SECOND);
    }
  }

  /** In any window of any run the number of tries is bounded by the window's length alone. */
  lemma TriesInSpan(start: Option<Refusal>, run: seq<Try>, i: nat, j: nat, span: nat)
    requires ReaperRun(start, run) && i <= j < |run| && run[j].refusedAt - run[i].refusedAt <= span
    ensures (j - i) * (MINUTE - SECOND) <= span
    ensures AttemptsOf(start) + i >= 6 ==> (j - i) * (HOUR - SECOND) <= span
  {
    TriesNeedSpan(start, run, i, j);
    SpanGrows(AttemptsOf(start) + i, j - i + 1);
  }

  /** The one-second slack is real: a refusal late in its second is tried again 999 ms early. */
  lemma GapTight(a: nat)
    ensures var start := if a == 0 then None else Some(Refusal(LiveProcesses, a, NoStamp));
            var run := [Try(SECOND - 1, SECOND - 1, LiveProcesses), Try(Delay(a + 1), Delay(a + 1), LiveProcesses)];
            AttemptsOf(start) == a && ReaperRun(start, run)
            && run[1].check - run[0].refusedAt == Delay(a + 1) - (SECOND - 1)
  {
    var start := if a == 0 then None else Some(Refusal(LiveProcesses, a, NoStamp));
    var run := [Try(SECOND - 1, SECOND - 1, LiveProcesses), Try(Delay(a + 1), Delay(a + 1), LiveProcesses)];
    DelayBounds(a + 1);
    assert OnRecord(start, run, 0) == start && OnRecord(start, run, 1).value.last == At(0);
    assert InTurn(start, run, 0) && InTurn(start, run, 1);
  }

  // ---- one tick over every agent ----

  /** The agents one tick tries to destroy, in the tracker's order. */
  function Due(order: seq<Id>, expired: set<Id>, live: map<Id, Record>, nowAt: Id -> int): seq<Id> {
    if order == [] then []
    else
      var id := order[|order| - 1];
      Due(order[..|order| - 1], expired, live, nowAt)
      + (if id in expired && Eligible(RefusalOf(live, id), nowAt(id)) then [id] else [])
  }

  /** Two registries say the same about the refusals of these agents. */
  ghost predicate SameRefusals(live: map<Id, Record>, was: map<Id, Record>, ids: seq<Id>) {
    forall id :: id in ids ==> RefusalOf(live, id) == RefusalOf(was, id)
  }

  lemma SameElsewhere(live: map<Id, Record>, was: map<Id, Record>, was0: map<Id, Record>, id: Id, rest: seq<Id>)
    requires live - {id} == was - {id} && SameRefusals(was, was0, rest) && id !in rest
    ensures SameRefusals(live, was0, rest)
  {
    forall x | x in rest ensures RefusalOf(live, x) == RefusalOf(was0, x) {
      assert x in live <==> x in live - {id};
      assert x in was <==> x in was - {id};
      assert x in live ==> live[x] == (live - {id})[x] == (was - {id})[x];
    }
  }

  /** One expired agent: destroyed when its refusal, if it has one, is past its backoff. */
  method ReapOne(m: AgentManager, id: Id, now: int, env: Host) returns (tried: bool)
    requires m.Valid() && env.Valid()
    modifies m, m.tracker, m.pool, m.store, m.dir, m.host
    ensures m.Valid() && m.calls == old(m.calls) + (if tried then 1 else 0)
    ensures tried <==> Eligible(RefusalOf(old(m.LiveRecords()), id), now)
    ensures m.LiveRecords() - {id} == old(m.LiveRecords()) - {id}
    ensures m.host.users - {id} == old(m.host.users) - {id} && m.host.homes - {id} == old(m.host.homes) - {id}
    ensures !tried ==> m.LiveRecords() == old(m.LiveRecords()) && m.host.users == old(m.host.users) && m.host.homes == old(m.host.homes)
  {
    var refusal := if m.store == null then None else RefusalOf(m.store.live, id);
    tried := Eligible(refusal, now);
    if tried {
      var _, _, _ := m.Destroy(id, false, false, env.Destroy(id));
    }
  }

  /** reapExpiredAgents: each agent at most once, exactly those expired and past their backoff. */
  method ReapExpired(m: AgentManager, order: seq<Id>, expired: set<Id>, nowAt: Id -> int, env: Host) returns (tried: seq<Id>)
    requires m.Valid() && env.Valid() && NoDupIds(order)
    modifies m, m.tracker, m.pool, m.store, m.dir, m.host
    ensures m.Valid()
    ensures tried == Due(order, expired, old(m.LiveRecords()), nowAt) && m.calls == old(m.calls) + |tried|
    ensures HostKept(m.host.users, m.host.homes, old(m.host.users), old(m.host.homes), tried)
  {
    tried := [];
    var i := 0;
    while i < |order|
      invariant 0 <= i <= |order| && m.Valid()
      invariant tried == Due(order[..i], expired, old(m.LiveRecords()), nowAt) && m.calls == old(m.calls) + |tried|
      invariant SameRefusals(m.LiveRecords(), old(m.LiveRecords()), order[i..])
      invariant HostKept(m.host.users, m.host.homes, old(m.host.users), old(m.host.homes), tried)
    {
      var id := order[i];
      assert order[..i + 1][..i] == order[..i] && order[i..] == [id] + order[i + 1..];
      assert id !in order[i + 1..];
      assert RefusalOf(m.LiveRecords(), id) == RefusalOf(old(m.LiveRecords()), id);
      label L:
      if id in expired {
        var hit := ReapOne(m, id, nowAt(id), env);
        SameElsewhere(m.LiveRecords(), old@L(m.LiveRecords()), old(m.LiveRecords()), id, order[i + 1..]);
        if hit {
          DestroyKeepsHost(m.host.users, m.host.homes, old@L(m.host.users), old@L(m.host.homes),
                           old(m.host.users), old(m.host.homes), tried, id);
          tried := tried + [id];
        }
      }
      i := i + 1;
    }
    assert order[..i] == order;
  }

  lemma DestroyKeepsHost(users: set<Id>, homes: set<Id>, wasUsers: set<Id>, wasHomes: set<Id>,
                         users0: set<Id>, homes0: set<Id>, log: seq<Id>, id: Id)
    requires HostKept(wasUsers, wasHomes, users0, homes0, log)
    requires users - {id} == wasUsers - {id} && homes - {id} == wasHomes - {id}
    ensures HostKept(users, homes, users0, homes0, log + [id])
  {
    HostKeptStep(Books(map[], map[], map[], users, homes, map[]), Books(map[], map[], map[], wasUsers, wasHomes, map[]),
                 users0, homes0, log, id, log + [id]);
  }
}
