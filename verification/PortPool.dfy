/**
 The port-range allocator of internal/resource/portalloc.go, for the shared
 network namespace: a pool cut into equal sub-ranges, a map of who holds which
 sub-range and a stack of free ones.
 */
module PortPool {

  const U32_SPAN: nat := 0x1_0000_0000

  type u32 = n: nat | n < 0x1_0000_0000

  type Id = string

  datatype Option<+T> = None | Some(value: T)

  /** An inclusive port range. */
  datatype Range = Range(start: u32, end: u32)

  ghost predicate Disjoint(a: Range, b: Range) {
    forall port: nat :: !(InRange(port, a) && InRange(port, b))
  }

  predicate InRange(port: nat, r: Range) {
    r.start <= port <= r.end
  }

  /** The pool's shape, fixed when the allocator is built. */
  datatype Geometry = Geometry(start: u32, end: u32, rangeSize: u32, numRanges: nat) {

    ghost predicate Valid() {
      && start < end
      && rangeSize > 0
      && numRanges > 0
      && numRanges * rangeSize <= end - start + 1 < (numRanges + 1) * rangeSize
    }

    function Slot(i: nat): nat {
      start + i * rangeSize
    }

    ghost predicate IsSlot(s: nat) {
      exists i: nat :: i < numRanges && s == Slot(i)
    }

    /** rangeEnd: the last port of the sub-range that starts at s, in 32-bit arithmetic. */
    function RangeEnd(s: u32): u32
      requires rangeSize > 0
    {
      var last := (s + rangeSize - 1) % U32_SPAN;
      if last > end then end else last
    }

    /** validateRangeLocked, with its four refusals in the order of the code. */
    predicate Accepts(r: Range)
      requires rangeSize > 0
    {
      && !(r.start < start || r.end > end)
      && !(r.end < r.start)
      && (r.start - start) % rangeSize == 0
      && r.end == RangeEnd(r.start)
    }

    /** The leftover ports after the last whole sub-range, clipped at the pool's end. */
    ghost predicate IsTail(r: Range) {
      && r.start == Slot(numRanges)
      && r.start <= r.end == end
      && r.start + rangeSize - 1 < U32_SPAN
    }
  }

  lemma Distribute(a: nat, b: nat, d: nat)
    ensures (a + b) * d == a * d + b * d
  {}

  lemma {:induction false} AtLeastOnce(k: nat, d: nat)
    requires k >= 1
    ensures k * d >= d
  {}

  lemma SlotsApart(g: Geometry, i: nat, j: nat)
    requires i < j
    ensures g.Slot(i) + g.rangeSize <= g.Slot(j)
  {
    Distribute(i, j - i, g.rangeSize);
    AtLeastOnce(j - i, g.rangeSize);
  }

  lemma SlotAboveStart(g: Geometry, i: nat)
    ensures g.start <= g.Slot(i)
  {}

  lemma RangeEndUnclipped(g: Geometry, s: nat)
    requires g.rangeSize > 0 && s + g.rangeSize <= g.end + 1
    ensures s < U32_SPAN && g.RangeEnd(s) == s + g.rangeSize - 1
  {}

  /** A slot's sub-range lies inside the pool and has exactly rangeSize ports. */
  lemma SlotInPool(g: Geometry, s: nat)
    requires g.Valid() && g.IsSlot(s)
    ensures g.start <= s < U32_SPAN
    ensures s + g.rangeSize - 1 <= g.end
    ensures g.RangeEnd(s) == s + g.rangeSize - 1
  {
    var i: nat :| i < g.numRanges && s == g.Slot(i);
    SlotsApart(g, i, g.numRanges);
    SlotAboveStart(g, i);
    RangeEndUnclipped(g, s);
  }

  /** Sub-ranges of two different slots share no port. */
  lemma SlotRangesDisjoint(g: Geometry, s: nat, t: nat)
    requires g.Valid() && g.IsSlot(s) && g.IsSlot(t) && s != t
    ensures s < U32_SPAN && t < U32_SPAN
    ensures Disjoint(Range(s, g.RangeEnd(s)), Range(t, g.RangeEnd(t)))
  {
    SlotInPool(g, s);
    SlotInPool(g, t);
    var i: nat :| i < g.numRanges && s == g.Slot(i);
    var j: nat :| j < g.numRanges && t == g.Slot(j);
    if i < j { SlotsApart(g, i, j); } else { SlotsApart(g, j, i); }
  }

  lemma MultipleOf(a: nat, d: nat) returns (q: nat)
    requires d > 0 && a % d == 0
    ensures a == q * d
  {
    q := a / d;
  }

  lemma MultipleMod(q: nat, d: nat)
    requires d > 0
    ensures (q * d) % d == 0
  {
    var a := q * d;
    var p, r := a / d, a % d;
    assert a == p * d + r;
    if q > p {
      Distribute(p, q - p, d);
      AtLeastOnce(q - p, d);
    } else if p > q {
      Distribute(q, p - q, d);
      AtLeastOnce(p - q, d);
    }
  }

  /**
   ValidateRange accepts the whole sub-ranges of the pool and, beyond what its
   comment promises to hand out, the clipped tail: nothing else.
   */
  lemma AcceptsExactly(g: Geometry, r: Range)
    requires g.Valid()
    ensures g.Accepts(r) <==>
            (g.IsSlot(r.start) && r.end == r.start + g.rangeSize - 1) || g.IsTail(r)
  {
    if g.Accepts(r) {
      var q := MultipleOf(r.start - g.start, g.rangeSize);
      assert r.start == g.Slot(q);
      assert r.start + g.rangeSize - 1 < U32_SPAN;
      if q > g.numRanges {
        SlotsApart(g, g.numRanges, q);
        Distribute(g.numRanges, 1, g.rangeSize);
        assert false;
      } else if q < g.numRanges {
        SlotInPool(g, r.start);
      } else {
        Distribute(g.numRanges, 1, g.rangeSize);
      }
    }
    if g.IsSlot(r.start) && r.end == r.start + g.rangeSize - 1 {
      SlotInPool(g, r.start);
      var i: nat :| i < g.numRanges && r.start == g.Slot(i);
      MultipleMod(i, g.rangeSize);
    }
    if g.IsTail(r) {
      MultipleMod(g.numRanges, g.rangeSize);
      Distribute(g.numRanges, 1, g.rangeSize);
    }
  }

  lemma TailIsNoSlot(g: Geometry, r: Range)
    requires g.Valid() && g.IsTail(r)
    ensures !g.IsSlot(r.start)
  {}

  // ---- the pool's books: every slot is free or held, never both, never twice ----

  ghost predicate NoDup(s: seq<nat>) {
    forall i, j :: 0 <= i < j < |s| ==> s[i] != s[j]
  }

  ghost predicate Injective(m: map<Id, nat>) {
    forall a, b :: a in m && b in m && a != b ==> m[a] != m[b]
  }

  ghost predicate Balanced(g: Geometry, held: map<Id, nat>, free: seq<nat>) {
    && g.Valid()
    && NoDup(free)
    && Injective(held)
    && (forall id {:trigger g.IsSlot(held[id])} :: id in held ==> g.IsSlot(held[id]))
    && (forall s {:trigger g.IsSlot(s)} :: s in free ==> g.IsSlot(s))
    && (forall s :: s in free ==> s !in held.Values)
    && (forall i: nat :: i < g.numRanges ==> g.Slot(i) in free || g.Slot(i) in held.Values)
  }

  /** The range the agent holds, as AllocatedRange reports it. */
  function RangeAt(g: Geometry, s: u32): Range
    requires g.rangeSize > 0
  {
    Range(s, g.RangeEnd(s))
  }

  /** No two agents of a balanced pool hold a common port, and all held ports are in the pool. */
  lemma HeldRangesDisjoint(g: Geometry, held: map<Id, nat>, free: seq<nat>, a: Id, b: Id)
    requires Balanced(g, held, free) && a in held && b in held && a != b
    ensures held[a] < U32_SPAN && held[b] < U32_SPAN
    ensures Disjoint(RangeAt(g, held[a]), RangeAt(g, held[b]))
    ensures g.start <= held[a] && RangeAt(g, held[a]).end <= g.end
  {
    SlotRangesDisjoint(g, held[a], held[b]);
    SlotInPool(g, held[a]);
  }

  ghost function SlotSet(g: Geometry, n: nat): (s: set<nat>)
    requires g.rangeSize > 0
    ensures forall x :: x in s <==> exists i: nat :: i < n && x == g.Slot(i)
    ensures |s| == n
  {
    if n == 0 then {} else
      assert g.Slot(n - 1) !in SlotSet(g, n - 1) by {
        forall i: nat | i < n - 1 ensures g.Slot(i) != g.Slot(n - 1) { SlotsApart(g, i, n - 1); }
      }
      SlotSet(g, n - 1) + {g.Slot(n - 1)}
  }

  ghost function Elements(s: seq<nat>): (r: set<nat>)
    ensures forall x :: x in r <==> x in s
  {
    if s == [] then {} else Elements(s[..|s| - 1]) + {s[|s| - 1]}
  }

  lemma {:induction false} SeqSetSize(s: seq<nat>)
    requires NoDup(s)
    ensures |Elements(s)| == |s|
  {
    if s != [] {
      SeqSetSize(s[..|s| - 1]);
    }
  }

  lemma {:induction false} ValuesSize(m: map<Id, nat>)
    requires Injective(m)
    ensures |m.Values| == |m|
  {
    if m != map[] {
      var k :| k in m;
      var rest := m - {k};
      ValuesSize(rest);
      assert m == rest[k := m[k]];
      assert m.Values == rest.Values + {m[k]} by {
        forall v | v in m.Values ensures v in rest.Values + {m[k]} {
          var a :| a in m && m[a] == v;
          if a != k { assert rest[a] == v; }
        }
      }
      assert m[k] !in rest.Values;
    } else {
      assert m.Values == {};
    }
  }

  lemma UnionSize(a: set<nat>, b: set<nat>)
    requires a !! b
    ensures |a + b| == |a| + |b|
  {}

  lemma UnionIsSlots(g: Geometry, held: map<Id, nat>, free: seq<nat>)
    requires Balanced(g, held, free)
    ensures Elements(free) !! held.Values
    ensures Elements(free) + held.Values == SlotSet(g, g.numRanges)
  {
    var all, slots := Elements(free) + held.Values, SlotSet(g, g.numRanges);
    forall x | x in all ensures x in slots {
      if x !in free {
        var id :| id in held && held[id] == x;
      }
      assert g.IsSlot(x);
    }
    forall x | x in slots ensures x in all {
      var i: nat :| i < g.numRanges && x == g.Slot(i);
    }
  }

  /** Conservation: free and held sub-ranges always add up to the pool's capacity. */
  lemma CapacityConserved(g: Geometry, held: map<Id, nat>, free: seq<nat>)
    requires Balanced(g, held, free)
    ensures |free| + |held| == g.numRanges
  {
    SeqSetSize(free);
    ValuesSize(held);
    UnionIsSlots(g, held, free);
    UnionSize(Elements(free), held.Values);
  }

  class PortAllocator {
    const geo: Geometry
    var held: map<Id, nat>
    var free: seq<nat>

    ghost predicate Valid()
      reads this
    {
      Balanced(geo, held, free)
    }

    constructor (g: Geometry, freeList: seq<nat>)
      requires Balanced(g, map[], freeList)
      ensures Valid() && geo == g && held == map[] && free == freeList
    {
      geo, held, free := g, map[], freeList;
    }

    /** newNamespacePool: the free list in reverse, so that the first allocation starts at the pool start. */
    static method NewFreeList(g: Geometry) returns (freeList: seq<nat>)
      ensures |freeList| == g.numRanges
      ensures forall k :: 0 <= k < |freeList| ==> freeList[k] == g.Slot(g.numRanges - 1 - k)
    {
      freeList := [];
      var i := g.numRanges;
      while i > 0
        invariant 0 <= i <= g.numRanges
        invariant |freeList| == g.numRanges - i
        invariant forall k :: 0 <= k < |freeList| ==> freeList[k] == g.Slot(g.numRanges - 1 - k)
      {
        freeList := freeList + [g.Slot(i - 1)];
        i := i - 1;
      }
    }

    /** NewPortAllocator: null stands for the error return. */
    static method New(start: u32, end: u32, rangeSize: u32) returns (pa: PortAllocator?)
      ensures pa == null <==>
              start >= end || rangeSize == 0 || (end - start + 1) % U32_SPAN < rangeSize
      ensures pa != null ==>
              && fresh(pa) && pa.Valid() && pa.held == map[]
              && pa.geo.start == start && pa.geo.end == end && pa.geo.rangeSize == rangeSize
    {
      if start >= end || rangeSize == 0 {
        return null;
      }
      var totalPorts := (end - start + 1) % U32_SPAN;
      var numRanges := totalPorts / rangeSize;
      QuotientZero(totalPorts, rangeSize);
      if numRanges == 0 {
        return null;
      }
      var g := Geometry(start, end, rangeSize, numRanges);
      var freeList := NewFreeList(g);
      FreshListBalanced(g, freeList);
      pa := new PortAllocator(g, freeList);
    }

    method Allocate(id: Id) returns (r: Option<Range>)
      requires Valid()
      modifies this
      ensures Valid()
      ensures r.None? <==> id in old(held) || forall i: nat :: i < geo.numRanges ==> geo.Slot(i) in old(held).Values
      ensures r.None? ==> held == old(held) && free == old(free)
      ensures r.Some? ==>
              && id !in old(held)
              && r.value.start !in old(held).Values
              && geo.IsSlot(r.value.start)
              && r.value == RangeAt(geo, r.value.start)
              && held == old(held)[id := r.value.start]
    {
      if id in held {
        return None;
      }
      if |free| == 0 {
        return None;
      }
      var s := free[|free| - 1];
      SlotInPool(geo, s);
      assert exists i: nat :: i < geo.numRanges && geo.Slot(i) == s && s !in held.Values;
      TakeBalanced(geo, held, free, id, |free| - 1);
      assert free[..|free| - 1] + free[|free|..] == free[..|free| - 1];
      free := free[..|free| - 1];
      held := held[id := s];
      r := Some(Range(s, geo.RangeEnd(s)));
    }

    /** Free is unconditional and idempotent: a no-op for an id that holds nothing. */
    method Free(id: Id)
      requires Valid()
      modifies this
      ensures Valid()
      ensures held == old(held) - {id}
    {
      if id !in held {
        assert held - {id} == held;
        return;
      }
      GiveBalanced(geo, held, free, id);
      free := free + [held[id]];
      held := held - {id};
    }

    /** Reserve, and Restore which is the same operation under another name. */
    method Reserve(id: Id, r: Range) returns (ok: bool)
      requires Valid()
      modifies this
      ensures Valid()
      ensures ok <==> if id in old(held) then old(held)[id] == r.start
                      else geo.IsSlot(r.start) && r == RangeAt(geo, r.start) && r.start !in old(held).Values
      ensures held == if ok then old(held)[id := r.start] else old(held)
    {
      if id in held {
        return held[id] == r.start;
      }
      AcceptsExactly(geo, r);
      if !geo.Accepts(r) {
        if geo.IsSlot(r.start) { SlotInPool(geo, r.start); }
        return false;
      }
      var idx := 0;
      while idx < |free| && free[idx] != r.start
        invariant 0 <= idx <= |free|
        invariant r.start !in free[..idx]
      {
        idx := idx + 1;
      }
      if idx == |free| {
        assert free[..idx] == free;
        assert geo.IsSlot(r.start) ==> r.start in held.Values;
        return false;
      }
      SlotInPool(geo, r.start);
      TakeBalanced(geo, held, free, id, idx);
      free := free[..idx] + free[idx + 1..];
      held := held[id := r.start];
      ok := true;
    }

    /**
     ReconcileFrom under a frozen oracle: drops exactly the reservations the oracle
     disowns. The order of the returned ids is not modelled.
     */
    method ReconcileFrom(exists_: Id -> bool) returns (released: set<Id>)
      requires Valid()
      modifies this
      ensures Valid()
      ensures forall id :: id in released <==> id in old(held) && !exists_(id)
      ensures held == old(held) - released
    {
      released := {};
      var todo := held.Keys;
      while todo != {}
        invariant Valid()
        invariant todo <= old(held).Keys
        invariant forall id :: id in released <==> id in old(held) && id !in todo && !exists_(id)
        invariant held == old(held) - released
        decreases |todo|
      {
        var id :| id in todo;
        todo := todo - {id};
        if !exists_(id) {
          MinusMinus(old(held), released, id);
          Free(id);
          released := released + {id};
        }
      }
    }
  }

  lemma MinusMinus(m: map<Id, nat>, gone: set<Id>, id: Id)
    ensures (m - gone) - {id} == m - (gone + {id})
  {}

  lemma FreshListBalanced(g: Geometry, freeList: seq<nat>)
    requires g.start < g.end && g.rangeSize > 0 && g.numRanges > 0
    requires g.numRanges == ((g.end - g.start + 1) % U32_SPAN) / g.rangeSize
    requires |freeList| == g.numRanges
    requires forall k :: 0 <= k < |freeList| ==> freeList[k] == g.Slot(g.numRanges - 1 - k)
    ensures Balanced(g, map[], freeList)
  {
    var total := g.end - g.start + 1;
    assert total < U32_SPAN;
    DivisionBounds(total, g.rangeSize);
    forall i, j | 0 <= i < j < |freeList| ensures freeList[i] != freeList[j] {
      SlotsApart(g, g.numRanges - 1 - j, g.numRanges - 1 - i);
    }
    forall i: nat | i < g.numRanges ensures g.Slot(i) in freeList {
      assert freeList[g.numRanges - 1 - i] == g.Slot(i);
    }
  }

  lemma QuotientZero(n: nat, d: nat)
    requires d > 0
    ensures n / d == 0 <==> n < d
  {}

  lemma DivisionBounds(n: nat, d: nat)
    requires d > 0
    ensures (n / d) * d <= n < (n / d + 1) * d
  {}

  /** Moving one free slot to an agent keeps the books balanced. */
  lemma TakeBalanced(g: Geometry, held: map<Id, nat>, free: seq<nat>, id: Id, k: nat)
    requires Balanced(g, held, free) && id !in held && k < |free|
    ensures Balanced(g, held[id := free[k]], free[..k] + free[k + 1..])
  {
    var free' := free[..k] + free[k + 1..];
    var held' := held[id := free[k]];
    assert forall s :: s in free && s != free[k] ==> s in free';
    forall a | a in held' ensures g.IsSlot(held'[a]) {
      assert a != id ==> g.IsSlot(held[a]);
      assert g.IsSlot(free[k]);
    }
    assert id in held'.Keys && free[k] in held'.Values;
    forall s | s in held.Values ensures s in held'.Values {
      var a :| a in held && held[a] == s;
      assert held'[a] == s;
    }
  }

  /** Returning an agent's slot to the free list keeps the books balanced. */
  lemma GiveBalanced(g: Geometry, held: map<Id, nat>, free: seq<nat>, id: Id)
    requires Balanced(g, held, free) && id in held
    ensures Balanced(g, held - {id}, free + [held[id]])
  {
    var held' := held - {id};
    assert held[id] in held.Values;
    forall s | s in held.Values && s != held[id] ensures s in held'.Values {
      var a :| a in held && held[a] == s;
      assert held'[a] == s;
    }
    assert forall s :: s in free + [held[id]] <==> s in free || s == held[id];
  }

  /** Ten ports in threes leave one over: it passes validation and is the tail. */
  lemma TailExists()
    ensures var g, r := Geometry(1, 10, 3, 3), Range(10, 10);
            g.Valid() && g.IsTail(r) && g.Accepts(r) && !g.IsSlot(r.start)
  {
    TailIsNoSlot(Geometry(1, 10, 3, 3), Range(10, 10));
  }

  /**
   The clipped tail passes ValidateRange and is refused by Reserve in every pool. Any other
   accepted range can be reserved by a newcomer in a pool with nothing held.
   */
  method ReserveTail(pa: PortAllocator, id: Id, r: Range) returns (ok: bool)
    requires pa.Valid() && pa.geo.Accepts(r)
    modifies pa
    ensures pa.geo.IsTail(r) ==> !ok && pa.held == old(pa.held)
    ensures old(pa.held) == map[] ==> (ok <==> !pa.geo.IsTail(r))
  {
    AcceptsExactly(pa.geo, r);
    if pa.geo.IsTail(r) {
      TailIsNoSlot(pa.geo, r);
    } else {
      SlotInPool(pa.geo, r.start);
    }
    ok := pa.Reserve(id, r);
  }
}
