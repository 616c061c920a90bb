/**
 What the plan of a reconciliation pass comes to (internal/agent/reconcile.go):
 when a replay costs nobody anything, and which orphans adopt mode destroys.
 */
module PassOutcome {
  import opened PortPool
  import opened Records
  import opened Reconciliation
  import opened OrphanSweep

  // ---- a replay without a loss ----

  /** The record names a whole sub-range of the pool. */
  ghost predicate OwnRange(pool: Option<Geometry>, rec: Record) {
    pool.Some? ==>
      && rec.start != 0 && rec.end != 0 && pool.value.rangeSize > 0 && pool.value.IsSlot(rec.start)
      && RangeAt(pool.value, rec.start) == Range(rec.start, rec.end)
  }

  /** The record at i is replayed, has its user on the host and lies in this pool. */
  predicate Claims(pool: Option<Geometry>, order: seq<Id>, live: map<Id, Record>, present: set<Id>, i: nat)
    requires i < |order|
  {
    order[i] in live && order[i] in present && !ForeignPool(pool, live[order[i]])
  }

  /** The claim at i is for a whole sub-range that no earlier one names, and there is room in the tracker. */
  ghost predicate Honoured(su: Setup, order: seq<Id>, live: map<Id, Record>, present: set<Id>, i: nat)
    requires i < |order| && Claims(su.pool, order, live, present, i)
  {
    && OwnRange(su.pool, live[order[i]]) && OnHost(order[..i], present) < su.maxAgents
    && (su.pool.Some? ==> forall j :: 0 <= j < i && Claims(su.pool, order, live, present, j) ==>
          live[order[j]].start != live[order[i]].start)
  }

  ghost predicate AllHonoured(su: Setup, order: seq<Id>, live: map<Id, Record>, present: set<Id>) {
    forall i :: 0 <= i < |order| && Claims(su.pool, order, live, present, i) ==> Honoured(su, order, live, present, i)
  }

  /** The books of a replay without a loss: who holds what, and how full the tracker is. */
  ghost predicate Lossless(su: Setup, order: seq<Id>, live: map<Id, Record>, present: set<Id>, l: Ledger) {
    && (forall id :: id in l.held || id in l.agents ==> id in order)
    && (forall s :: s in l.held.Values <==> StartClaimed(su.pool, order, live, present, s))
    && |l.agents| == if OnHost(order, present) < su.maxAgents then OnHost(order, present) else su.maxAgents
  }

  /** Some record in the pool claims the sub-range that starts at s. */
  ghost predicate StartClaimed(pool: Option<Geometry>, order: seq<Id>, live: map<Id, Record>, present: set<Id>, s: nat) {
    pool.Some? && exists i :: 0 <= i < |order| && Claims(pool, order, live, present, i) && live[order[i]].start == s
  }

  /** No record in the pool can be another pool's too. */
  lemma OwnIsNotForeign(pool: Option<Geometry>, rec: Record)
    requires (pool.Some? ==> pool.value.Valid()) && OwnRange(pool, rec)
    ensures !ForeignPool(pool, rec)
  {
    if pool.Some? {
      SlotInPool(pool.value, rec.start);
    }
  }

  lemma PrefixClaims(pool: Option<Geometry>, order: seq<Id>, live: map<Id, Record>, present: set<Id>, n: nat, i: nat)
    requires i < n <= |order|
    ensures Claims(pool, order[..n], live, present, i) == Claims(pool, order, live, present, i)
  {}

  lemma PrefixHonoured(su: Setup, order: seq<Id>, live: map<Id, Record>, present: set<Id>, n: nat, i: nat)
    requires i < n <= |order| && Claims(su.pool, order, live, present, i)
    ensures Claims(su.pool, order[..n], live, present, i)
    ensures Honoured(su, order[..n], live, present, i) == Honoured(su, order, live, present, i)
  {
    assert order[..n][..i] == order[..i];
    forall j | 0 <= j < i
      ensures Claims(su.pool, order[..n], live, present, j) == Claims(su.pool, order, live, present, j)
    {
      PrefixClaims(su.pool, order, live, present, n, j);
    }
  }

  /** Honouring every claim is honouring those before the last record, and its own. */
  lemma HonouredSplit(su: Setup, order: seq<Id>, live: map<Id, Record>, present: set<Id>, n: nat)
    requires n + 1 == |order|
    ensures AllHonoured(su, order, live, present) <==>
            && AllHonoured(su, order[..n], live, present)
            && (Claims(su.pool, order, live, present, n) ==> Honoured(su, order, live, present, n))
  {
    forall i | 0 <= i < n && Claims(su.pool, order, live, present, i)
      ensures Claims(su.pool, order[..n], live, present, i)
      ensures Honoured(su, order[..n], live, present, i) == Honoured(su, order, live, present, i)
    {
      PrefixHonoured(su, order, live, present, n, i);
    }
    forall i | 0 <= i < n ensures Claims(su.pool, order[..n], live, present, i) == Claims(su.pool, order, live, present, i) {
      PrefixClaims(su.pool, order, live, present, n, i);
    }
  }

  /** The starts claimed so far, with the last record's own. */
  lemma ClaimedSplit(pool: Option<Geometry>, order: seq<Id>, live: map<Id, Record>, present: set<Id>, n: nat, s: nat)
    requires n + 1 == |order|
    ensures StartClaimed(pool, order, live, present, s) <==>
            || StartClaimed(pool, order[..n], live, present, s)
            || (pool.Some? && Claims(pool, order, live, present, n) && live[order[n]].start == s)
  {
    if i :| 0 <= i < n && Claims(pool, order[..n], live, present, i) && live[order[..n][i]].start == s {
      assert Claims(pool, order, live, present, i);
    }
    if i :| 0 <= i < n && Claims(pool, order, live, present, i) && live[order[i]].start == s {
      assert Claims(pool, order[..n], live, present, i);
    }
  }

  /** On the books of a replay without a loss a claim can be restored exactly when it is honoured. */
  lemma RestoresExactly(su: Setup, order: seq<Id>, live: map<Id, Record>, present: set<Id>, n: nat, l: Ledger)
    requires n + 1 == |order| && order[n] !in order[..n] && Claims(su.pool, order, live, present, n)
    requires (su.pool.Some? ==> su.pool.value.rangeSize > 0) && Lossless(su, order[..n], live, present, l)
    ensures Restores(su, l, order[n], live[order[n]]) <==> Honoured(su, order, live, present, n)
  {
    var s := live[order[n]].start;
    assert s in l.held.Values <==> StartClaimed(su.pool, order[..n], live, present, s);
    forall j | 0 <= j < n ensures Claims(su.pool, order[..n], live, present, j) == Claims(su.pool, order, live, present, j) {
      PrefixClaims(su.pool, order, live, present, n, j);
    }
    if j :| 0 <= j < n && Claims(su.pool, order, live, present, j) && live[order[j]].start == s {
      assert Claims(su.pool, order[..n], live, present, j) && live[order[..n][j]].start == s;
    }
  }

  lemma ValuesAdd(held: map<Id, nat>, id: Id, v: nat, s: nat)
    requires id !in held
    ensures s in held[id := v].Values <==> s in held.Values || s == v
  {
    if s in held.Values {
      var a :| a in held && held[a] == s;
      assert held[id := v][a] == s;
    }
    assert held[id := v][id] == v;
  }

  /** One more record, restored or let pass, keeps the books lossless. */
  lemma LosslessStep(su: Setup, order: seq<Id>, live: map<Id, Record>, present: set<Id>, n: nat, l: Ledger)
    requires n + 1 == |order| && order[n] !in order[..n] && order[n] in live
    requires (su.pool.Some? ==> su.pool.value.Valid()) && Lossless(su, order[..n], live, present, l)
    requires !FailsClosed(su, l, order[n], live[order[n]], order[n] in present)
    ensures Lossless(su, order, live, present, NextLedger(su, l, order[n], live[order[n]], order[n] in present))
  {
    var id, rec := order[n], live[order[n]];
    var l' := NextLedger(su, l, id, rec, id in present);
    if id in present && Restores(su, l, id, rec) {
      OwnIsNotForeign(su.pool, rec);
    }
    forall s ensures s in l'.held.Values <==> StartClaimed(su.pool, order, live, present, s) {
      ClaimedSplit(su.pool, order, live, present, n, s);
      ValuesAdd(l.held, id, rec.start, s);
      assert s in l.held.Values <==> StartClaimed(su.pool, order[..n], live, present, s);
    }
  }

  /**
   From empty books a replay destroys nobody exactly when every record whose user is on the host
   lies outside the pool or names a whole sub-range of it, no two of them the same, with room in
   the tracker.
   */
  lemma {:induction false} NoLossExactly(su: Setup, order: seq<Id>, live: map<Id, Record>, present: set<Id>)
    requires (su.pool.Some? ==> su.pool.value.Valid()) && NoDupIds(order) && forall id :: id in order ==> id in live
    ensures Replaying(su, order, live, present).log == [] <==> AllHonoured(su, order, live, present)
    ensures AllHonoured(su, order, live, present) ==> Lossless(su, order, live, present, Replaying(su, order, live, present).ledger)
  {
    if order != [] {
      var n := |order| - 1;
      var p := Replaying(su, order[..n], live, present);
      NoLossExactly(su, order[..n], live, present);
      HonouredSplit(su, order, live, present, n);
      if p.log == [] {
        if Claims(su.pool, order, live, present, n) {
          RestoresExactly(su, order, live, present, n, p.ledger);
        }
        if !FailsClosed(su, p.ledger, order[n], live[order[n]], order[n] in present) {
          LosslessStep(su, order, live, present, n, p.ledger);
        }
      }
    }
  }

  // ---- adopt mode ----

  lemma {:induction false} CalledAmong(su: Setup, list: seq<SystemAgent>, n: nat, mode: Mode, instance: string, start: Ledger, id: Id)
    requires n <= |list| && id in Walking(su, list, n, mode, instance, start).log
    ensures exists k :: 0 <= k < n && list[k].id == id
  {
    if id in Walking(su, list, n - 1, mode, instance, start).log {
      CalledAmong(su, list, n - 1, mode, instance, start, id);
    } else {
      assert list[n - 1].id == id;
    }
  }

  /** An orphan is destroyed exactly when that is due with the books at its turn. */
  lemma {:induction false} CalledExactly(su: Setup, list: seq<SystemAgent>, n: nat, mode: Mode, instance: string, start: Ledger, k: nat)
    requires DistinctAgents(list) && k < n <= |list|
    ensures list[k].id in Walking(su, list, n, mode, instance, start).log <==>
            DestroyDue(su, Walking(su, list, k, mode, instance, start).ledger, list[k], mode, instance)
  {
    if k < n - 1 {
      CalledExactly(su, list, n - 1, mode, instance, start, k);
    } else if list[k].id in Walking(su, list, k, mode, instance, start).log {
      CalledAmong(su, list, k, mode, instance, start, list[k].id);
      assert false;
    }
  }

  /**
   In adopt mode the destroy calls of a pass are exactly the orphans of ours that cannot be adopted
   at their turn; the guard withholds none of them, whatever their number and the limit.
   */
  lemma AdoptModeDestroysExactly(su: Setup, live: map<Id, Record>, list: seq<SystemAgent>, order: seq<Id>, c: Config,
                                 unproven: bool, instance: string, k: nat)
    requires DistinctAgents(list) && c.RunMode() == AdoptMode && k < |OrphansOf(list, live.Keys)|
    ensures var orphans, start := OrphansOf(list, live.Keys), ReplayPlan(su, live, list, order).ledger;
            && !GuardRefuses(c, unproven, |orphans|)
            && (orphans[k].id in PassPlan(su, live, list, order, c, unproven, instance).log <==>
                && Classify(orphans[k], instance, su.pool) == Ours
                && !Adopts(su, Walking(su, orphans, k, AdoptMode, instance, start).ledger, orphans[k]))
  {
    OrphansDistinct(list, live.Keys);
    var orphans := OrphansOf(list, live.Keys);
    CalledExactly(su, orphans, |orphans|, AdoptMode, instance, ReplayPlan(su, live, list, order).ledger, k);
  }

  /** n agents without a marker whose port files cannot be parsed: ours, and not to be adopted. */
  function Garbled(n: nat): (list: seq<SystemAgent>)
    ensures |list| == n && forall i :: 0 <= i < n ==> list[i] == SystemAgent(seq(i + 1, _ => 'a'), Missing, Malformed)
  {
    if n == 0 then [] else Garbled(n - 1) + [SystemAgent(seq(n, _ => 'a'), Missing, Malformed)]
  }

  lemma GarbledDistinct(n: nat)
    ensures DistinctAgents(Garbled(n))
  {
    forall i, j | 0 <= i < j < n ensures Garbled(n)[i].id != Garbled(n)[j].id {
      assert |Garbled(n)[i].id| == i + 1 && |Garbled(n)[j].id| == j + 1;
    }
  }

  /** Every orphan of ours is destroyed when none can be adopted. */
  lemma {:induction false} AllCalled(su: Setup, list: seq<SystemAgent>, n: nat, mode: Mode, instance: string, start: Ledger)
    requires n <= |list| && forall k :: 0 <= k < n ==> Classify(list[k], instance, su.pool) == Ours && !list[k].ports.Readable?
    ensures |Walking(su, list, n, mode, instance, start).log| == n
  {
    if n > 0 {
      AllCalled(su, list, n - 1, mode, instance, start);
    }
  }

  /** One orphan more than the limit, with no standing in the registry: adopt mode destroys them all, destroy mode none. */
  lemma AdoptOverLimit(limit: nat, su: Setup, instance: string, start: Ledger)
    ensures var list := Garbled(limit + 1);
            && DistinctAgents(list) && Config("adopt", false, limit).RunMode() == AdoptMode
            && !GuardRefuses(Config("adopt", false, limit), true, |list|)
            && |Walking(su, list, |list|, AdoptMode, instance, start).log| == |list|
            && GuardRefuses(Config("destroy", false, limit), true, |list|)
  {
    var list := Garbled(limit + 1);
    GarbledDistinct(limit + 1);
    AllCalled(su, list, |list|, AdoptMode, instance, start);
  }
}
