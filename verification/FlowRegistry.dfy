/** The map of pending sign-in flows and the regions of code that run under its lock. */
module FlowRegistry {
  import opened Common

  /** What a listener has come to. It acks an approval (deletes it at the relay) before it hands it to
      its channel, so an Acked one has the approval and nothing to show for it yet. A listener that
      was looked at after it died, or that gave its approval up, is Spent: it reads as pending
      forever. */
  datatype Mail = Quiet | Acked | Approval | RelayFault | OtherFault | Spent

  datatype Listener = Listener(serial: nat, mail: Mail)

  /** `listener` is None while a poll or an await holds it. */
  datatype Entry = Entry(listener: Option<Listener>, resumable: bool, started: nat)

  type Flows = map<nat, Entry>

  /** The age up to which the sweep leaves an idle entry alone. */
  function CollectableFor(ttl: nat): nat {
    2 * ttl
  }

  predicate Expired(started: nat, now: nat, ttl: nat) {
    now - started > ttl
  }

  predicate Evictable(entry: Entry, now: nat, ttl: nat) {
    entry.listener.Some? && now - entry.started > CollectableFor(ttl)
  }

  function Swept(flows: Flows, now: nat, ttl: nat): Flows {
    map id | id in flows && !Evictable(flows[id], now, ttl) :: flows[id]
  }

  function Live(flows: Flows, now: nat, ttl: nat): set<nat> {
    set id | id in flows && !Expired(flows[id].started, now, ttl)
  }

  function Idle(flows: Flows): set<nat> {
    set id | id in flows && flows[id].listener.Some?
  }

  function Lent(flows: Flows, id: nat): Flows {
    if id in flows then flows[id := flows[id].(listener := None)] else flows
  }

  function Returned(flows: Flows, id: nat, l: Listener): Flows {
    if id in flows then flows[id := flows[id].(listener := Some(l))] else flows
  }

  datatype Taken = Flow(listener: Listener, resumable: bool, started: nat) | Busy | Unknown

  function TakenFrom(flows: Flows, id: nat): Taken {
    if id !in flows then Unknown
    else if flows[id].listener.None? then Busy
    else Flow(flows[id].listener.value, flows[id].resumable, flows[id].started)
  }

  class Registry {
    var flows: Flows

    constructor ()
      ensures flows == map[]
    {
      flows := map[];
    }

    /** Drop what is past collection and idle: afterwards every idle entry is young enough, and
        nothing else was touched. */
    method EvictExpired(now: nat, ttl: nat)
      modifies this
      ensures flows == Swept(old(flows), now, ttl)
      ensures forall id :: id in flows <==>
                id in old(flows) && (old(flows)[id].listener.Some? ==> now - old(flows)[id].started <= 2 * ttl)
      ensures forall id :: id in flows ==> flows[id] == old(flows)[id]
    {
      var keep: Flows := map[];
      var left := flows.Keys;
      while left != {}
        invariant left <= flows.Keys && flows == old(flows)
        invariant keep == map id | id in flows && id !in left && !Evictable(flows[id], now, ttl) :: flows[id]
        decreases |left|
      {
        var id :| id in left;
        if flows[id].listener.None? || now - flows[id].started <= CollectableFor(ttl) {
          keep := keep[id := flows[id]];
        }
        left := left - {id};
      }
      flows := keep;
    }

    method LiveCount(now: nat, ttl: nat) returns (count: nat)
      ensures count == |set id | id in flows && now - flows[id].started <= ttl|
    {
      ghost var live: set<nat> := {};
      var left := flows.Keys;
      count := 0;
      while left != {}
        invariant left <= flows.Keys
        invariant live == (set id | id in flows && now - flows[id].started <= ttl) - left && count == |live|
        decreases |left|
      {
        var id :| id in left;
        if now - flows[id].started <= ttl {
          live := live + {id};
          count := count + 1;
        }
        left := left - {id};
      }
      assert live == set id | id in flows && now - flows[id].started <= ttl;
    }

    /** The second check of a start, and its insert: refused at the cap, so the cap is no advice. */
    method Insert(id: nat, entry: Entry, now: nat, ttl: nat, maxFlows: nat) returns (ok: bool)
      modifies this
      ensures ok <==> |set id | id in old(flows) && now - old(flows)[id].started <= ttl| < maxFlows
      ensures flows == if ok then old(flows)[id := entry] else old(flows)
    {
      var live := LiveCount(now, ttl);
      ok := live < maxFlows;
      if ok { flows := flows[id := entry]; }
    }

    /** Take an id's listener out, then sweep the others: the id asked for is never swept first. */
    method Take(id: nat, now: nat, ttl: nat) returns (taken: Taken)
      modifies this
      ensures taken == TakenFrom(old(flows), id)
      ensures flows == Swept(Lent(old(flows), id), now, ttl)
      ensures taken.Unknown? <==> id !in old(flows)
      ensures taken.Busy? <==> id in old(flows) && old(flows)[id].listener.None?
      ensures taken.Flow? ==>
                old(flows)[id] == Entry(Some(taken.listener), taken.resumable, taken.started)
      ensures id in old(flows) ==> id in flows && flows[id] == old(flows)[id].(listener := None)
    {
      taken := Unknown;
      if id in flows {
        var entry := flows[id];
        match entry.listener {
          case Some(l) =>
            taken := Flow(l, entry.resumable, entry.started);
            flows := flows[id := entry.(listener := None)];
          case None =>
            taken := Busy;
        }
      }
      assert flows == Lent(old(flows), id);
      EvictExpired(now, ttl);
    }

    method GiveBack(id: nat, l: Listener) returns (ok: bool)
      modifies this
      ensures ok <==> id in old(flows)
      ensures flows == Returned(old(flows), id, l)
      ensures ok ==> id in flows && flows[id] == old(flows)[id].(listener := Some(l))
    {
      ok := id in flows;
      if ok { flows := flows[id := flows[id].(listener := Some(l))]; }
    }

    /** Removing an id, as a finished call does. */
    method Remove(id: nat) returns (was: bool)
      modifies this
      ensures was <==> id in old(flows)
      ensures flows == old(flows) - {id}
    {
      was := id in flows;
      flows := flows - {id};
    }

    /** A cancel: it finds a flow that some call has in hand at any age, and an idle one unless the
        sweep before it is past collecting it. */
    method Cancel(id: nat, now: nat, ttl: nat) returns (was: bool)
      modifies this
      ensures was <==>
                && id in old(flows)
                && (id in Idle(old(flows)) ==> now - old(flows)[id].started <= 2 * ttl)
      ensures TakenFrom(flows, id).Unknown?
      ensures forall other :: other != id && other in Swept(old(flows), now, ttl) ==>
                other in flows && flows[other] == old(flows)[other]
      ensures flows.Keys == Swept(old(flows), now, ttl).Keys - {id}
    {
      EvictExpired(now, ttl);
      was := Remove(id);
    }
  }
}
