/**
 The daemon's two books of agents: the live tracker (internal/resource/tracker.go)
 and the durable registry's folded view (internal/registry/registry.go). A write
 to the registry's log may fail; the caller supplies that answer.
 */
module Records {
  import opened PortPool

  /** The response status of one destroy. */
  datatype Status = Error | LiveProcesses | HomeRetained | UserdelFailed | NotFound | Destroyed

  predicate IsRefusal(s: Status) {
    s.LiveProcesses? || s.HomeRetained? || s.UserdelFailed?
  }

  /** A refusal's RFC 3339 time stamp as it reads back: absent, unparseable or a whole second. */
  datatype Stamp = NoStamp | Garbled | At(second: int)

  datatype Refusal = Refusal(status: Status, attempts: nat, last: Stamp)

  /** A durable record; a range end of zero means that none was persisted. */
  datatype Record = Record(start: u32, end: u32, refusal: Option<Refusal>)

  datatype AgentStatus = Running | Refused(status: Status)

  datatype AgentRecord = AgentRecord(status: AgentStatus, start: u32, end: u32)

  class Tracker {
    const maxAgents: nat
    var agents: map<Id, AgentRecord>

    constructor (maxAgents: nat)
      ensures agents == map[] && this.maxAgents == maxAgents
    {
      this.maxAgents, agents := maxAgents, map[];
    }

    method Register(id: Id, rec: AgentRecord) returns (ok: bool)
      modifies this
      ensures ok <==> |old(agents)| < maxAgents && id !in old(agents)
      ensures agents == if ok then old(agents)[id := rec] else old(agents)
    {
      if |agents| >= maxAgents || id in agents {
        return false;
      }
      agents := agents[id := rec];
      ok := true;
    }

    method Unregister(id: Id)
      modifies this
      ensures agents == old(agents) - {id}
    {
      agents := agents - {id};
    }

    method UpdateStatus(id: Id, status: AgentStatus)
      modifies this
      ensures agents == WithStatus(old(agents), id, status)
    {
      if id in agents {
        agents := agents[id := agents[id].(status := status)];
      }
    }
  }

  function WithStatus(agents: map<Id, AgentRecord>, id: Id, status: AgentStatus): map<Id, AgentRecord> {
    if id in agents then agents[id := agents[id].(status := status)] else agents
  }

  class Store {
    const createdThisBoot: bool
    var live: map<Id, Record>
    var known: set<Id>

    constructor (createdThisBoot: bool, live: map<Id, Record>, known: set<Id>)
      ensures this.createdThisBoot == createdThisBoot && this.live == live && this.known == known
    {
      this.createdThisBoot, this.live, this.known := createdThisBoot, live, known;
    }

    /** A fresh spawn supersedes any stale refusal and any memory of an earlier destroy. */
    method AppendSpawn(id: Id, start: u32, end: u32, writeOk: bool) returns (ok: bool)
      modifies this
      ensures ok <==> id != "" && writeOk
      ensures live == if ok then old(live)[id := Record(start, end, None)] else old(live)
      ensures known == if ok then old(known) - {id} else old(known)
    {
      ok := id != "" && writeOk;
      if ok {
        live := live[id := Record(start, end, None)];
        known := known - {id};
      }
    }

    /** Idempotent: a repeated destroy of a known id writes nothing and cannot fail. */
    method AppendDestroy(id: Id, writeOk: bool) returns (ok: bool)
      modifies this
      ensures ok <==> id != "" && (writeOk || (id !in old(live) && id in old(known)))
      ensures live == if ok then old(live) - {id} else old(live)
      ensures known == if ok then old(known) + {id} else old(known)
    {
      if id == "" {
        return false;
      }
      if id !in live && id in known {
        assert live - {id} == live;
        return true;
      }
      ok := writeOk;
      if ok {
        live := live - {id};
        known := known + {id};
      }
    }

    /** A refusal folds into a live record only. */
    method AppendRefusal(id: Id, refusal: Refusal, writeOk: bool) returns (ok: bool)
      modifies this
      ensures ok <==> id != "" && id in old(live) && writeOk
      ensures live == if ok then old(live)[id := old(live)[id].(refusal := Some(refusal))] else old(live)
      ensures known == old(known)
    {
      ok := id != "" && id in live && writeOk;
      if ok {
        live := live[id := live[id].(refusal := Some(refusal))];
      }
    }
  }

  /** RefusalOf: the folded refusal of a live agent. */
  function RefusalOf(live: map<Id, Record>, id: Id): Option<Refusal> {
    if id in live then live[id].refusal else None
  }

  /** Liveness and ranges are as before; at most id's refusal differs. */
  ghost predicate OnlyRefusalChanged(live: map<Id, Record>, was: map<Id, Record>, id: Id) {
    && live.Keys == was.Keys
    && (forall x :: x in was && x != id ==> live[x] == was[x])
    && (id in was ==> live[id].(refusal := None) == was[id].(refusal := None))
  }
}
