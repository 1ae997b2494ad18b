/** Fan-out to live subscribers through bounded buffers (sidecar/internal/ipc/broker.go). */
module Broker {
  import opened EventStore

  const DEFAULT_BUFFER: nat := 1024

  /** A buffer after one undisturbed Publish: when it is full, the oldest event makes room. */
  function Offered(buf: seq<Event>, e: Event, capacity: nat): seq<Event>
    requires capacity > 0
  {
    if |buf| < capacity then buf + [e] else buf[1..] + [e]
  }

  function OfferedAll(events: seq<Event>, n: nat, capacity: nat): seq<Event>
    requires n <= |events| && capacity > 0
  {
    if n == 0 then [] else Offered(OfferedAll(events, n - 1, capacity), events[n - 1], capacity)
  }

  /** The last capacity of the first n events. */
  function Latest(events: seq<Event>, n: nat, capacity: nat): seq<Event>
    requires n <= |events|
  {
    if n <= capacity then events[..n] else events[n - capacity..n]
  }

  lemma LatestSnoc(events: seq<Event>, n: nat, capacity: nat)
    requires 0 < n <= |events| && capacity > 0
    ensures Latest(events, n, capacity) == Offered(Latest(events, n - 1, capacity), events[n - 1], capacity)
  {
    if n <= capacity {
      assert events[..n] == events[..n - 1] + [events[n - 1]];
    } else if n - 1 <= capacity {
      assert events[1..n] == events[..n - 1][1..] + [events[n - 1]];
    } else {
      var from := n - 1 - capacity;
      assert events[from + 1..n] == events[from..n - 1][1..] + [events[n - 1]];
    }
  }

  /** A subscriber that never reads holds exactly the latest events. */
  lemma {:induction false} BufferHoldsLatest(events: seq<Event>, n: nat, capacity: nat)
    requires n <= |events| && capacity > 0
    ensures OfferedAll(events, n, capacity) == Latest(events, n, capacity)
  {
    hide Latest, Offered;
    if n == 0 {
      assert Latest(events, 0, capacity) == [] by { LatestOfNothing(events, capacity); }
    } else {
      BufferHoldsLatest(events, n - 1, capacity);
      LatestSnoc(events, n, capacity);
    }
  }

  lemma LatestOfNothing(events: seq<Event>, capacity: nat)
    ensures Latest(events, 0, capacity) == []
  {
  }

  class EventBroker {
    const bufSize: nat
    var nextId: nat
    var subs: map<nat, seq<Event>>

    ghost predicate Valid()
      reads this
    {
      && bufSize > 0
      && forall id :: id in subs ==> |subs[id]| <= bufSize && id <= nextId
    }

    constructor (size: int)
      ensures Valid() && subs == map[] && bufSize == if size <= 0 then 1024 else size
    {
      bufSize := if size <= 0 then DEFAULT_BUFFER else size;
      nextId, subs := 0, map[];
    }

    /** Delivers e to every current subscriber without blocking. */
    method Publish(e: Event)
      requires Valid()
      modifies this`subs
      ensures Valid()
      ensures subs == map id | id in old(subs) :: Offered(old(subs)[id], e, bufSize)
    {
      var rest := subs.Keys;
      while rest != {}
        invariant rest <= subs.Keys == old(subs).Keys && Valid()
        invariant forall id :: id in subs ==>
          subs[id] == if id in rest then old(subs)[id] else Offered(old(subs)[id], e, bufSize)
        decreases rest
      {
        var id :| id in rest;
        var ch := subs[id];
        if |ch| < bufSize {
          ch := ch + [e];
        } else {
          if |ch| > 0 {
            ch := ch[1..];
          }
          if |ch| < bufSize {
            ch := ch + [e];
          }
        }
        subs := subs[id := ch];
        rest := rest - {id};
      }
    }

    /** Registers a subscriber under an id of its own, with an empty buffer. */
    method Subscribe() returns (id: nat)
      requires Valid()
      modifies this
      ensures Valid() && id !in old(subs) && subs == old(subs)[id := []]
    {
      nextId := nextId + 1;
      id := nextId;
      subs := subs[id := []];
    }

    method Unsubscribe(id: nat)
      requires Valid()
      modifies this`subs
      ensures Valid() && subs == old(subs) - {id}
    {
      if id in subs {
        subs := subs - {id};
      }
    }
  }
}
