/**
 The linger plane's user cache (internal/agent/inventory.go): two short locked
 sections around a lookup that runs outside the lock, and how old a served
 verdict can be under any interleaving of probes.
 */
module LingerCache {

  type Name = string

  /** residueLingerCacheTTL, in milliseconds. */
  const TTL := 3000

  datatype Answer = Miss | Hit(found: bool)

  datatype Verdict = Verdict(found: bool, expiresAt: int)

  /** The first locked section: an entry that has not expired at the reading now. */
  function Find(entries: map<Name, Verdict>, name: Name, now: int): Answer {
    if name in entries && now < entries[name].expiresAt then Hit(entries[name].found) else Miss
  }

  /** The second locked section: the verdict expires one TTL after the probe's own clock reading. */
  function Put(entries: map<Name, Verdict>, name: Name, now: int, found: bool): map<Name, Verdict> {
    entries[name := Verdict(found, now + TTL)]
  }

  class LingerUserCache {
    var entries: map<Name, Verdict>

    constructor ()
      ensures entries == map[]
    {
      entries := map[];
    }

    method Peek(name: Name, now: int) returns (a: Answer)
      ensures a == Find(entries, name, now)
    {
      a := Miss;
      if name in entries {
        var v := entries[name];
        if now < v.expiresAt {
          a := Hit(v.found);
        }
      }
    }

    method Store(name: Name, now: int, found: bool)
      modifies this
      ensures entries == Put(old(entries), name, now, found)
    {
      entries := entries[name := Verdict(found, now + TTL)];
    }

    /** userExists with nothing else running: live is what a lookup would say now. */
    method UserExists(name: Name, now: int, live: bool) returns (found: bool, looked: bool)
      modifies this
      ensures looked <==> Find(old(entries), name, now).Miss?
      ensures looked ==> found == live
      ensures !looked ==> Find(old(entries), name, now) == Hit(found) && entries == old(entries)
      ensures Find(entries, name, now) == Hit(found)
      ensures forall n :: n != name ==> Find(entries, n, now) == Find(old(entries), n, now)
    {
      var a := Peek(name, now);
      if a.Hit? {
        return a.found, false;
      }
      Store(name, now, live);
      found, looked := live, true;
    }
  }

  // ---- any number of probes, interleaved ----

  /** Where a probe stands between its clock reading and its answer. */
  datatype Phase =
    | Read(name: Name, now: nat)
    | Missed(name: Name, now: nat)
    | Looked(name: Name, now: nat, found: bool)

  datatype Lookup = Lookup(name: Name, found: bool, at: nat)

  datatype Served = Served(name: Name, now: nat, found: bool, at: nat)

  datatype State = State(
    clock: nat,
    entries: map<Name, Verdict>,
    probes: map<nat, Phase>,
    lookups: seq<Lookup>,
    served: seq<Served>)

  datatype Action = Tick(ms: nat) | Begin(p: nat, name: Name) | Peek(p: nat) | Ask(p: nat, found: bool) | Save(p: nat)

  const START := State(0, map[], map[], [], [])

  /** One step of any probe or of the clock; a step a probe is not ready for changes nothing. */
  function Step(s: State, a: Action): State {
    match a
    case Tick(ms) => s.(clock := s.clock + ms)
    case Begin(p, name) => if p in s.probes then s else s.(probes := s.probes[p := Read(name, s.clock)])
    case Peek(p) =>
      if p !in s.probes || !s.probes[p].Read? then s
      else
        var q := s.probes[p];
        (match Find(s.entries, q.name, q.now)
         case Miss => s.(probes := s.probes[p := Missed(q.name, q.now)])
         case Hit(found) => s.(probes := s.probes - {p}, served := s.served + [Served(q.name, q.now, found, s.clock)]))
    case Ask(p, found) =>
      if p !in s.probes || !s.probes[p].Missed? then s
      else
        var q := s.probes[p];
        s.(probes := s.probes[p := Looked(q.name, q.now, found)], lookups := s.lookups + [Lookup(q.name, found, s.clock)])
    case Save(p) =>
      if p !in s.probes || !s.probes[p].Looked? then s
      else
        var q := s.probes[p];
        s.(probes := s.probes - {p}, entries := Put(s.entries, q.name, q.now, q.found),
           served := s.served + [Served(q.name, q.now, q.found, s.clock)])
  }

  function Exec(run: seq<Action>): State {
    if run == [] then START else Step(Exec(run[..|run| - 1]), run[|run| - 1])
  }

  /** Some real lookup of the name gave this answer, at or after from and no later than to. */
  ghost predicate Backed(lookups: seq<Lookup>, name: Name, found: bool, from: int, to: int) {
    exists k :: 0 <= k < |lookups| && lookups[k].name == name && lookups[k].found == found && from <= lookups[k].at <= to
  }

  lemma BackedMore(lookups: seq<Lookup>, more: seq<Lookup>, name: Name, found: bool, from: int, to: int)
    requires Backed(lookups, name, found, from, to) && lookups <= more
    ensures Backed(more, name, found, from, to)
  {}

  ghost predicate ProbeInv(s: State, p: nat)
    requires p in s.probes
  {
    var q := s.probes[p];
    q.now <= s.clock && (q.Looked? ==> Backed(s.lookups, q.name, q.found, q.now, s.clock))
  }

  /** A served verdict is backed by a lookup less than one TTL before the probe read its clock. */
  ghost predicate Justified(lookups: seq<Lookup>, v: Served) {
    v.now <= v.at && Backed(lookups, v.name, v.found, v.now - TTL + 1, v.at)
  }

  /** Every entry is backed by a lookup at most one TTL before it expires. */
  ghost predicate Inv(s: State) {
    && (forall n :: n in s.entries ==> Backed(s.lookups, n, s.entries[n].found, s.entries[n].expiresAt - TTL, s.clock))
    && (forall p :: p in s.probes ==> ProbeInv(s, p))
    && (forall i :: 0 <= i < |s.served| ==> Justified(s.lookups, s.served[i]))
  }

  lemma BackedWider(lookups: seq<Lookup>, name: Name, found: bool, from: int, to: int, from': int, to': int)
    requires Backed(lookups, name, found, from, to) && from' <= from && to <= to'
    ensures Backed(lookups, name, found, from', to')
  {}

  lemma StepTick(s: State, ms: nat)
    requires Inv(s)
    ensures Inv(Step(s, Tick(ms)))
  {}

  lemma StepPeek(s: State, p: nat)
    requires Inv(s)
    ensures Inv(Step(s, Peek(p)))
  {}

  lemma StepAsk(s: State, p: nat, found: bool)
    requires Inv(s)
    ensures Inv(Step(s, Ask(p, found)))
  {
    var t := Step(s, Ask(p, found));
    forall n | n in t.entries ensures Backed(t.lookups, n, t.entries[n].found, t.entries[n].expiresAt - TTL, t.clock) {
      BackedMore(s.lookups, t.lookups, n, s.entries[n].found, s.entries[n].expiresAt - TTL, s.clock);
    }
    forall r | r in t.probes ensures ProbeInv(t, r) {
      assert ProbeInv(s, r);
      if t.probes[r] == s.probes[r] && s.probes[r].Looked? {
        BackedMore(s.lookups, t.lookups, s.probes[r].name, s.probes[r].found, s.probes[r].now, s.clock);
      } else if t.probes[r].Looked? {
        assert t.lookups[|s.lookups|] == Lookup(t.probes[r].name, found, s.clock);
      }
    }
    forall i | 0 <= i < |t.served| ensures Justified(t.lookups, t.served[i]) {
      var v := s.served[i];
      BackedMore(s.lookups, t.lookups, v.name, v.found, v.now - TTL + 1, v.at);
    }
  }

  lemma StepSave(s: State, p: nat)
    requires Inv(s)
    ensures Inv(Step(s, Save(p)))
  {}

  lemma StepInv(s: State, a: Action)
    requires Inv(s)
    ensures Inv(Step(s, a))
  {
    match a
    case Tick(ms) => StepTick(s, ms);
    case Begin(p, name) =>
      var t := Step(s, a);
      forall r | r in t.probes ensures ProbeInv(t, r) {
        assert r in s.probes ==> ProbeInv(s, r);
      }
    case Peek(p) => StepPeek(s, p);
    case Ask(p, found) => StepAsk(s, p, found);
    case Save(p) => StepSave(s, p);
  }

  lemma {:induction false} RunInv(run: seq<Action>)
    ensures Inv(Exec(run))
  {
    if run != [] {
      RunInv(run[..|run| - 1]);
      StepInv(Exec(run[..|run| - 1]), run[|run| - 1]);
    }
  }

  /**
   In every run, every verdict served equals the answer of a real lookup of that name made less
   than one TTL before the probe read its clock, also when a slow probe overwrites a newer entry.
   */
  lemma ServedIsBacked(run: seq<Action>, i: nat)
    requires i < |Exec(run).served|
    ensures Justified(Exec(run).lookups, Exec(run).served[i])
  {
    RunInv(run);
  }

  // ---- the age of a verdict at the moment it is served ----

  /** Every verdict served within delay of its probe's clock reading is less than bound old when served. */
  ghost predicate AgeBelow(delay: nat, bound: int) {
    forall run: seq<Action>, i: nat :: i < |Exec(run).served| && Exec(run).served[i].at - Exec(run).served[i].now <= delay ==>
      Backed(Exec(run).lookups, Exec(run).served[i].name, Exec(run).served[i].found, Exec(run).served[i].at - bound + 1, Exec(run).served[i].at)
  }

  /** Prime the cache at time 0, read the clock just before expiry, then take delay to reach the lock. */
  function LateRun(delay: nat): seq<Action> {
    [Begin(0, "u"), Peek(0), Ask(0, true), Save(0), Tick(TTL - 1), Begin(1, "u"), Tick(delay), Peek(1)]
  }

  lemma ExecLast(run: seq<Action>, a: Action)
    ensures Exec(run + [a]) == Step(Exec(run), a)
  {}

  lemma PrimedRun()
    ensures Exec([Begin(0, "u"), Peek(0), Ask(0, true), Save(0)]) ==
            State(0, map["u" := Verdict(true, TTL)], map[], [Lookup("u", true, 0)], [Served("u", 0, true, 0)])
  {
    ExecLast([], Begin(0, "u"));
    ExecLast([Begin(0, "u")], Peek(0));
    ExecLast([Begin(0, "u"), Peek(0)], Ask(0, true));
    ExecLast([Begin(0, "u"), Peek(0), Ask(0, true)], Save(0));
    var s := Exec([Begin(0, "u"), Peek(0), Ask(0, true)]);
    assert s == State(0, map[], map[0 := Looked("u", 0, true)], [Lookup("u", true, 0)], []);
    assert s.probes - {0} == map[] && Put(s.entries, "u", 0, true) == map["u" := Verdict(true, TTL)];
    assert [Begin(0, "u"), Peek(0), Ask(0, true), Save(0)] == [Begin(0, "u"), Peek(0), Ask(0, true)] + [Save(0)];
  }

  lemma LateVerdict(delay: nat)
    ensures var s := Exec(LateRun(delay));
            s.lookups == [Lookup("u", true, 0)] && |s.served| == 2
            && s.served[1] == Served("u", TTL - 1, true, TTL - 1 + delay)
  {
    PrimedRun();
    var r := [Begin(0, "u"), Peek(0), Ask(0, true), Save(0)];
    ExecLast(r, Tick(TTL - 1));
    ExecLast(r + [Tick(TTL - 1)], Begin(1, "u"));
    ExecLast(r + [Tick(TTL - 1), Begin(1, "u")], Tick(delay));
    ExecLast(r + [Tick(TTL - 1), Begin(1, "u"), Tick(delay)], Peek(1));
    assert LateRun(delay) == r + [Tick(TTL - 1), Begin(1, "u"), Tick(delay), Peek(1)];
    assert r + [Tick(TTL - 1), Begin(1, "u")] == (r + [Tick(TTL - 1)]) + [Begin(1, "u")];
    assert r + [Tick(TTL - 1), Begin(1, "u"), Tick(delay)] == (r + [Tick(TTL - 1), Begin(1, "u")]) + [Tick(delay)];
    assert LateRun(delay) == (r + [Tick(TTL - 1), Begin(1, "u"), Tick(delay)]) + [Peek(1)];
  }

  /**
   The documented staleness bound is on the clock reading, not on the moment of serving: among
   probes that need at most delay from their reading to their answer, the age when served stays
   below a bound exactly when the bound is at least TTL + delay.
   */
  lemma AgeBoundedExactly(delay: nat, bound: int)
    ensures AgeBelow(delay, bound) <==> bound >= TTL + delay
  {
    if AgeBelow(delay, bound) {
      var run := LateRun(delay);
      LateVerdict(delay);
      var v := Exec(run).served[1];
      assert Backed(Exec(run).lookups, v.name, v.found, v.at - bound + 1, v.at);
    }
    if bound >= TTL + delay {
      forall run: seq<Action>, i: nat | i < |Exec(run).served| && Exec(run).served[i].at - Exec(run).served[i].now <= delay
        ensures Backed(Exec(run).lookups, Exec(run).served[i].name, Exec(run).served[i].found,
                       Exec(run).served[i].at - bound + 1, Exec(run).served[i].at)
      {
        var v := Exec(run).served[i];
        ServedIsBacked(run, i);
        BackedWider(Exec(run).lookups, v.name, v.found, v.now - TTL + 1, v.at, v.at - bound + 1, v.at);
      }
    }
  }
}
