/** EventBus: a bounded queue for every subscriber, oldest events dropped first. */
module EventBus {
  import opened Common

  /** An event is known by who published it and how many that one had published
      before. */
  datatype Event = Event(publisher: nat, number: nat)

  /** queue.Queue: a maxsize of 0 means no limit. */
  predicate IsFull(maxsize: nat, items: seq<Event>) {
    0 < maxsize <= |items|
  }

  /** What a subscriber's queue holds after an undisturbed publish. */
  function Offer(maxsize: nat, items: seq<Event>, e: Event): seq<Event> {
    (if IsFull(maxsize, items) then items[1..] else items) + [e]
  }

  predicate WithinBound(maxsize: nat, items: seq<Event>) {
    0 < maxsize ==> |items| <= maxsize
  }

  class Queue {
    const maxsize: nat
    var items: seq<Event>

    constructor (maxsize: nat)
      ensures this.maxsize == maxsize && items == []
    {
      this.maxsize, items := maxsize, [];
    }

    /** False stands for queue.Full. */
    method PutNowait(e: Event) returns (ok: bool)
      modifies this
      ensures ok == !old(IsFull(maxsize, items))
      ensures items == if ok then old(items) + [e] else old(items)
    {
      ok := !IsFull(maxsize, items);
      if ok {
        items := items + [e];
      }
    }

    /** None stands for queue.Empty. */
    method GetNowait() returns (e: Option<Event>)
      modifies this
      ensures old(items) == [] ==> e == None && items == []
      ensures old(items) != [] ==> e == Some(old(items)[0]) && items == old(items)[1..]
    {
      if items == [] {
        return None;
      }
      e, items := Some(items[0]), items[1..];
    }
  }

  class EventBus {
    const maxsize: nat
    var subscribers: set<Queue>

    ghost predicate Valid()
      reads this, subscribers
    {
      forall q :: q in subscribers ==> q.maxsize == maxsize && WithinBound(maxsize, q.items)
    }

    constructor (maxsize: nat)
      ensures Valid() && this.maxsize == maxsize && subscribers == {}
    {
      this.maxsize, subscribers := maxsize, {};
    }

    method Subscribe() returns (q: Queue)
      requires Valid()
      modifies this
      ensures Valid()
      ensures fresh(q) && q.maxsize == maxsize && q.items == []
      ensures subscribers == old(subscribers) + {q}
    {
      q := new Queue(maxsize);
      subscribers := subscribers + {q};
    }

    method Unsubscribe(q: Queue)
      requires Valid()
      modifies this
      ensures Valid()
      ensures subscribers == old(subscribers) - {q}
    {
      subscribers := subscribers - {q};
    }

    /** One publish that nothing else interrupts: every subscriber gets the event,
        a full queue loses its oldest, and queue.Full never escapes. */
    method Publish(e: Event) returns (raised: bool)
      requires Valid()
      modifies subscribers
      ensures Valid() && !raised
      ensures forall q :: q in subscribers ==> q.items == Offer(maxsize, old(q.items), e)
    {
      var targets := subscribers;
      while targets != {}
        invariant targets <= subscribers
        invariant forall q :: q in targets ==> q.items == old(q.items)
        invariant forall q :: q in subscribers - targets ==> q.items == Offer(maxsize, old(q.items), e)
        decreases targets
      {
        var q :| q in targets;
        targets := targets - {q};
        var ok := q.PutNowait(e);
        if !ok {
          var oldest := q.GetNowait();
          if oldest.Some? {
            ok := q.PutNowait(e);
            if !ok {
              return true;
            }
          }
        }
      }
      raised := false;
    }
  }
}
