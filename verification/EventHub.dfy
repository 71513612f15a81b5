/** The event hub: replay ring, deduplication and bounded subscriber queues. */
module EventHub {
  import opened Common

  datatype Event = Event(id: string, kind: string, severity: string)

  const VALID_EVENT_TYPES := {
    "RULE_DECISION_EVALUATED", "CART_ABANDONMENT_TRIGGERED", "MARKETING_WEBHOOK_OUTCOME",
    "INVENTORY_REORDER_STATE_CHANGED", "DELIVERY_COMPLETED", "PAYMENT_GATEWAY_ALERT_TRIGGERED",
    "PAYMENT_GATEWAY_ALERT_RECOVERED", "PIPELINE_STATUS_CHANGED", "HEARTBEAT", "REST_SNAPSHOT_REQUIRED",
    "SYSTEM_NOTIFICATION", "SIMULATION_STATUS_CHANGED", "DATASET_READINESS_CHANGED"}

  const VALID_SEVERITIES := {"INFO", "WARNING", "CRITICAL"}

  predicate WellFormed(ev: Event) {
    ev.id != [] && ev.kind in VALID_EVENT_TYPES && ev.severity in VALID_SEVERITIES
  }

  predicate IsSuffix<T(==)>(a: seq<T>, b: seq<T>) {
    |a| <= |b| && a == b[|b| - |a|..]
  }

  predicate HasId(events: seq<Event>, id: string) {
    exists i :: 0 <= i < |events| && events[i].id == id
  }

  /** Events at most `distance` apart have different ids. */
  predicate LocallyDistinct(events: seq<Event>, distance: nat) {
    forall i, j :: 0 <= i < j < |events| && j - i <= distance ==> events[i].id != events[j].id
  }

  /** A full queue gives up its oldest event for the new one. Sizes of zero or less mean no bound. */
  function Offered(items: seq<Event>, maxsize: int, ev: Event): seq<Event> {
    (if 0 < maxsize <= |items| then items[1..] else items) + [ev]
  }

  /** What a client that took nothing since `since` events finds in its queue. */
  function Backlog(log: seq<Event>, since: nat, maxsize: int): seq<Event>
    requires since <= |log|
  {
    if maxsize <= 0 then log[since..] else Last(log[since..], maxsize)
  }

  lemma {:induction false} BacklogGrows(log: seq<Event>, since: nat, maxsize: int, ev: Event)
    requires since <= |log|
    ensures Backlog(log + [ev], since, maxsize) == Offered(Backlog(log, since, maxsize), maxsize, ev)
  {
  }

  lemma {:induction false} RingGrows(log: seq<Event>, size: nat, ev: Event)
    requires LocallyDistinct(log, size) && !HasId(Last(log, size), ev.id)
    ensures Last(log + [ev], size) == Last(Last(log, size) + [ev], size)
    ensures LocallyDistinct(log + [ev], size)
  {
  }

  lemma {:induction false} SuffixGrows(items: seq<Event>, log: seq<Event>, maxsize: int, ev: Event)
    requires IsSuffix(items, log)
    ensures IsSuffix(Offered(items, maxsize, ev), log + [ev])
  {
  }

  class ClientQueue {
    const maxsize: int
    var items: seq<Event>

    /** History: events the hub had accepted at subscription, events taken, and how many were dropped. */
    ghost const since: nat
    ghost var taken: seq<Event>
    ghost var dropped: nat

    constructor (maxsize: int, ghost since: nat)
      ensures this.maxsize == maxsize && this.since == since && items == taken == [] && dropped == 0
    {
      this.maxsize, this.since := maxsize, since;
      items, taken, dropped := [], [], 0;
    }

    /**
     * The queue against the events its hub accepted: a suffix of them, within its bound; nothing is
     * missing exactly when nothing was dropped; a client that took nothing finds the newest events.
     */
    ghost predicate Follows(log: seq<Event>)
      reads this
    {
      && since <= |log| && IsSuffix(items, log)
      && (maxsize > 0 ==> |items| <= maxsize)
      && |taken| + dropped + |items| == |log| - since
      && (dropped == 0 ==> taken + items == log[since..])
      && (taken == [] ==> items == Backlog(log, since, maxsize))
    }

    predicate Full()
      reads this
    {
      0 < maxsize <= |items|
    }

    method GetNowait(ghost log: seq<Event>) returns (ev: Option<Event>)
      requires Follows(log)
      modifies this`items, this`taken
      ensures Follows(log)
      ensures old(items) == [] ==> ev.None? && items == [] && taken == old(taken)
      ensures old(items) != [] ==>
                ev == Some(old(items)[0]) && items == old(items)[1..] && taken == old(taken) + [ev.value]
    {
      if items == [] {
        return None;
      }
      ev := Some(items[0]);
      assert taken + items == taken + [items[0]] + items[1..];
      items, taken := items[1..], taken + [items[0]];
    }

    /** Runs only where `ev` is what the hub accepts after `log`. */
    method Offer(ev: Event, ghost log: seq<Event>)
      requires Follows(log)
      modifies this`items, this`dropped
      ensures Follows(log + [ev])
      ensures items == Offered(old(items), maxsize, ev)
      ensures dropped == if 0 < maxsize <= old(|items|) then old(dropped) + 1 else old(dropped)
    {
      SuffixGrows(items, log, maxsize, ev);
      BacklogGrows(log, since, maxsize, ev);
      assert (log + [ev])[since..] == log[since..] + [ev];
      assert taken + (items + [ev]) == taken + items + [ev];
      if Full() {
        items, dropped := items[1..], dropped + 1;
      }
      items := items + [ev];
    }
  }

  class EventHub {
    const bufferSize: nat
    var ring: seq<Event>
    var subscribers: set<ClientQueue>

    /** Every event accepted so far. */
    ghost var log: seq<Event>

    ghost predicate RingValid()
      reads this
    {
      && ring == Last(log, bufferSize)
      && LocallyDistinct(log, bufferSize)
      && forall i :: 0 <= i < |log| ==> WellFormed(log[i])
    }

    ghost predicate Valid()
      reads this, subscribers
    {
      RingValid() && forall q :: q in subscribers ==> q.Follows(log)
    }

    constructor (bufferSize: nat)
      ensures Valid() && this.bufferSize == bufferSize && log == [] && subscribers == {}
    {
      hide WellFormed;
      this.bufferSize := bufferSize;
      ring, subscribers, log := [], {}, [];
    }

    method Subscribe(maxsize: int) returns (q: ClientQueue)
      requires Valid()
      modifies this`subscribers
      ensures Valid() && fresh(q) && subscribers == old(subscribers) + {q}
      ensures q.maxsize == maxsize && q.since == |log| && q.items == q.taken == [] && q.dropped == 0
    {
      q := new ClientQueue(maxsize, |log|);
      subscribers := subscribers + {q};
    }

    method Unsubscribe(q: ClientQueue)
      requires Valid()
      modifies this`subscribers
      ensures Valid() && subscribers == old(subscribers) - {q}
    {
      subscribers := subscribers - {q};
    }

    method InRing(id: string) returns (found: Option<nat>)
      ensures found.Some? <==> HasId(ring, id)
      ensures found.Some? ==> found.value < |ring| && ring[found.value].id == id
      ensures found.Some? ==> forall i :: 0 <= i < found.value ==> ring[i].id != id
    {
      for i := 0 to |ring|
        invariant forall j :: 0 <= j < i ==> ring[j].id != id
      {
        if ring[i].id == id {
          return Some(i);
        }
      }
      return None;
    }

    /** Exactly the events accepted after the one with this id, while that one is in the ring. */
    method GetReplayEvents(lastEventId: string) returns (found: bool, events: seq<Event>, ghost point: nat)
      requires Valid()
      ensures found <==> HasId(Last(log, bufferSize), lastEventId)
      ensures !found ==> events == []
      ensures found ==>
                && point < |log| && log[point].id == lastEventId && events == log[point + 1..]
                && forall i :: point < i < |log| ==> log[i].id != lastEventId
    {
      point := 0;
      var at := InRing(lastEventId);
      if at.None? {
        return false, [], 0;
      }
      point := |log| - |ring| + at.value;
      return true, ring[at.value + 1..], point;
    }

    method Distribute(queues: set<ClientQueue>, ev: Event, ghost before: seq<Event>)
      requires forall q :: q in queues ==> q.Follows(before)
      modifies set q | q in queues :: q`items
      modifies set q | q in queues :: q`dropped
      ensures forall q :: q in queues ==> q.Follows(before + [ev]) && q.items == Offered(old(q.items), q.maxsize, ev)
    {
      var left := queues;
      while left != {}
        invariant left <= queues
        invariant forall q :: q in left ==> q.Follows(before) && q.items == old(q.items)
        invariant forall q :: q in queues - left ==>
                    q.Follows(before + [ev]) && q.items == Offered(old(q.items), q.maxsize, ev)
        decreases left
      {
        var q :| q in left;
        q.Offer(ev, before);
        left := left - {q};
      }
    }

    /** Publishing, taken as one step. */
    method Publish(ev: Event) returns (outcome: PublishOutcome)
      requires Valid()
      modifies this`ring, this`log
      modifies set q | q in subscribers :: q`items
      modifies set q | q in subscribers :: q`dropped
      ensures Valid()
      ensures outcome.Refused? <==> !WellFormed(ev)
      ensures outcome.Refused? <==>
                ev.id == [] || ev.kind !in VALID_EVENT_TYPES || ev.severity !in {"INFO", "WARNING", "CRITICAL"}
      ensures outcome.Duplicate? <==> WellFormed(ev) && HasId(old(ring), ev.id)
      ensures outcome.Accepted? ==>
                && log == old(log) + [ev]
                && forall q :: q in subscribers ==> q.items == Offered(old(q.items), q.maxsize, ev)
      ensures !outcome.Accepted? ==>
                log == old(log) && ring == old(ring) && forall q :: q in subscribers ==> q.items == old(q.items)
    {
      if !WellFormed(ev) {
        return Refused;
      }
      var known := InRing(ev.id);
      if known.Some? {
        return Duplicate;
      }
      RingGrows(log, bufferSize, ev);
      ring := Last(ring + [ev], bufferSize);
      Distribute(subscribers, ev, log);
      log := log + [ev];
      return Accepted;
    }
  }

  datatype PublishOutcome = Accepted | Duplicate | Refused
}
