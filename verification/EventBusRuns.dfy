/** EventBus with publisher threads, consumers and subscriptions interleaved: one
    step is one put_nowait, one get_nowait, or one section under the lock. */
module EventBusRuns {
  import opened EventBus

  /** Where a publisher is inside the try/except of one queue: about to put, about
      to drop the oldest, or about to put again. */
  datatype Stage = First | Drop | Again

  /** Raised: queue.Full has left publish, and the thread with it. */
  datatype Publisher = Resting | Working(event: Event, targets: seq<nat>, stage: Stage) | Raised

  /** A subscriber's queue and its past: what the consumer got, all that left at
      the front, the numbers it was offered, and how often an event was given up
      because the queue had emptied meanwhile. The last three are bookkeeping. */
  datatype Sub = Sub(items: seq<Event>, read: seq<Event>, taken: seq<Event>, since: nat, upto: nat, missed: nat)

  datatype Bus = Bus(maxsize: nat, subs: map<nat, Sub>, members: set<nat>, pubs: seq<Publisher>, next: seq<nat>)

  datatype Step =
    | Subscribe(q: nat)
    | Unsubscribe(q: nat)
    | Begin(p: nat, order: seq<nat>)
    | Advance(p: nat)
    | Consume(q: nat)

  /** The snapshot of the subscriber set, in some order. */
  predicate Lists(order: seq<nat>, members: set<nat>) {
    && (forall q :: q in order ==> q in members)
    && (forall q :: q in members ==> q in order)
    && (forall i, j :: 0 <= i < j < |order| ==> order[i] != order[j])
  }

  predicate Enabled(b: Bus, s: Step) {
    match s
    case Subscribe(q) => q !in b.subs
    case Unsubscribe(_) => true
    case Begin(p, order) => p < |b.pubs| && p < |b.next| && b.pubs[p] == Resting && Lists(order, b.members)
    case Advance(p) => p < |b.pubs| && b.pubs[p].Working?
    case Consume(q) => q in b.subs && b.subs[q].items != []
  }

  function Newest(b: Bus): nat {
    if |b.next| == 1 then b.next[0] else 0
  }

  /** What one atomic step of a publisher does to the queue it works on. */
  function Touch(maxsize: nat, sub: Sub, w: Publisher): Sub
    requires w.Working?
  {
    match w.stage
    case First => if IsFull(maxsize, sub.items) then sub
                  else sub.(items := sub.items + [w.event], upto := w.event.number + 1)
    case Drop => if sub.items == [] then sub.(upto := w.event.number + 1, missed := sub.missed + 1)
                 else sub.(items := sub.items[1..], taken := sub.taken + [sub.items[0]])
    case Again => if IsFull(maxsize, sub.items) then sub
                  else sub.(items := sub.items + [w.event], upto := w.event.number + 1)
  }

  /** And to the publisher. */
  function Proceed(maxsize: nat, sub: Sub, w: Publisher): Publisher
    requires w.Working? && w.targets != []
  {
    var done := w.(targets := w.targets[1..], stage := First);
    match w.stage
    case First => if IsFull(maxsize, sub.items) then w.(stage := Drop) else done
    case Drop => if sub.items == [] then done else w.(stage := Again)
    case Again => if IsFull(maxsize, sub.items) then Raised else done
  }

  function Next(b: Bus, s: Step): Bus
    requires Enabled(b, s)
  {
    match s
    case Subscribe(q) =>
      b.(subs := b.subs[q := Sub([], [], [], Newest(b), Newest(b), 0)], members := b.members + {q})
    case Unsubscribe(q) => b.(members := b.members - {q})
    case Begin(p, order) =>
      b.(pubs := b.pubs[p := Working(Event(p, b.next[p]), order, First)], next := b.next[p := b.next[p] + 1])
    case Advance(p) =>
      var w := b.pubs[p];
      if w.targets == [] || w.targets[0] !in b.subs then b.(pubs := b.pubs[p := Resting])
      else
        var q := w.targets[0];
        b.(subs := b.subs[q := Touch(b.maxsize, b.subs[q], w)], pubs := b.pubs[p := Proceed(b.maxsize, b.subs[q], w)])
    case Consume(q) =>
      var sub := b.subs[q];
      b.(subs := b.subs[q := sub.(items := sub.items[1..], read := sub.read + [sub.items[0]],
                                  taken := sub.taken + [sub.items[0]])])
  }

  function Init(maxsize: nat, publishers: nat): Bus {
    Bus(maxsize, map[], {}, seq(publishers, i => Resting), seq(publishers, i => 0))
  }

  /** The state after any sequence of steps; one that is not possible when its turn
      comes is skipped. */
  function Exec(b: Bus, steps: seq<Step>): Bus {
    if steps == [] then b
    else
      var before, s := Exec(b, steps[..|steps| - 1]), steps[|steps| - 1];
      if Enabled(before, s) then Next(before, s) else before
  }

  // ---- any number of publishers ----

  /** Each publisher's events appear once and in publish order. */
  predicate InPublishOrder(h: seq<Event>) {
    forall i, j :: 0 <= i < j < |h| && h[i].publisher == h[j].publisher ==> h[i].number < h[j].number
  }

  /** Publisher p can still put this number, and later ones, into queue q. */
  function Coming(b: Bus, p: nat, q: nat): nat
    requires p < |b.pubs| == |b.next|
  {
    var w := b.pubs[p];
    if w.Working? && q in w.targets then w.event.number else b.next[p]
  }

  predicate Below(b: Bus, q: nat, h: seq<Event>)
    requires |b.pubs| == |b.next|
  {
    forall i :: 0 <= i < |h| ==> h[i].publisher < |b.pubs| && h[i].number < Coming(b, h[i].publisher, q)
  }

  predicate SubOk(b: Bus, q: nat)
    requires |b.pubs| == |b.next| && q in b.subs
  {
    var sub := b.subs[q];
    && WithinBound(b.maxsize, sub.items)
    && InPublishOrder(sub.read + sub.items) && Below(b, q, sub.read + sub.items)
  }

  predicate PubOk(b: Bus, p: nat)
    requires p < |b.pubs| == |b.next|
  {
    var w := b.pubs[p];
    w.Working? ==>
      && w.event.publisher == p && w.event.number + 1 == b.next[p]
      && (forall i, j :: 0 <= i < j < |w.targets| ==> w.targets[i] != w.targets[j])
      && (forall q :: q in w.targets ==> q in b.subs)
  }

  predicate Ok(b: Bus) {
    && |b.pubs| == |b.next|
    && (forall q :: q in b.subs ==> SubOk(b, q))
    && (forall p :: 0 <= p < |b.pubs| ==> PubOk(b, p))
    && (forall q :: q in b.members ==> q in b.subs)
  }

  lemma OrderAfterAppend(h: seq<Event>, e: Event)
    requires InPublishOrder(h)
    requires forall i :: 0 <= i < |h| && h[i].publisher == e.publisher ==> h[i].number < e.number
    ensures InPublishOrder(h + [e])
  {
  }

  /** Taking an event out of the middle keeps the order. */
  lemma OrderAfterDrop(read: seq<Event>, items: seq<Event>)
    requires items != [] && InPublishOrder(read + items)
    ensures InPublishOrder(read + items[1..])
    ensures forall i :: 0 <= i < |read + items[1..]| ==> (read + items[1..])[i] in read + items
  {
    var h, h' := read + items, read + items[1..];
    forall i | 0 <= i < |h'| ensures h'[i] == h[if i < |read| then i else i + 1] {
    }
  }

  /** A publisher's own step never lowers what is still to come. */
  lemma ComingGrows(b: Bus, p: nat, r: nat, q: nat)
    requires Ok(b) && p < |b.pubs| && b.pubs[p].Working? && r < |b.pubs|
    ensures Coming(b, r, q) <= Coming(Next(b, Advance(p)), r, q)
  {
    assert PubOk(b, p);
  }

  lemma OthersStay(b: Bus, p: nat, q: nat)
    requires Ok(b) && p < |b.pubs| && b.pubs[p].Working? && q in b.subs
    requires Next(b, Advance(p)).subs[q] == b.subs[q]
    ensures SubOk(Next(b, Advance(p)), q)
  {
    var b' := Next(b, Advance(p));
    assert SubOk(b, q);
    var h := b.subs[q].read + b.subs[q].items;
    forall i | 0 <= i < |h| ensures h[i].number < Coming(b', h[i].publisher, q) {
      ComingGrows(b, p, h[i].publisher, q);
    }
  }

  lemma DropKeepsSub(b: Bus, p: nat, q: nat)
    requires Ok(b) && p < |b.pubs| && b.pubs[p].Working? && q in b.subs && b.subs[q].items != []
    requires Next(b, Advance(p)).subs[q].read == b.subs[q].read
    requires Next(b, Advance(p)).subs[q].items == b.subs[q].items[1..]
    ensures SubOk(Next(b, Advance(p)), q)
  {
    var b', sub := Next(b, Advance(p)), b.subs[q];
    assert SubOk(b, q);
    OrderAfterDrop(sub.read, sub.items);
    var h := sub.read + sub.items[1..];
    forall i | 0 <= i < |h| ensures h[i].publisher < |b.pubs| && h[i].number < Coming(b', h[i].publisher, q) {
      assert h[i] in sub.read + sub.items;
      ComingGrows(b, p, h[i].publisher, q);
    }
  }

  lemma PutKeepsSub(b: Bus, p: nat, q: nat)
    requires Ok(b) && p < |b.pubs| && b.pubs[p].Working? && b.pubs[p].targets != [] && q == b.pubs[p].targets[0]
    requires b.pubs[p].stage != Drop && q in b.subs && !IsFull(b.maxsize, b.subs[q].items)
    ensures SubOk(Next(b, Advance(p)), q)
  {
    var b', sub, w := Next(b, Advance(p)), b.subs[q], b.pubs[p];
    assert SubOk(b, q) && PubOk(b, p);
    var h := sub.read + sub.items;
    OrderAfterAppend(h, w.event);
    assert sub.read + (sub.items + [w.event]) == h + [w.event];
    forall i | 0 <= i < |h| ensures h[i].number < Coming(b', h[i].publisher, q) {
      ComingGrows(b, p, h[i].publisher, q);
    }
    assert q !in w.targets[1..];
  }

  lemma AdvanceKeepsSubs(b: Bus, p: nat, q: nat)
    requires Ok(b) && Enabled(b, Advance(p)) && q in b.subs
    ensures SubOk(Next(b, Advance(p)), q)
  {
    var w := b.pubs[p];
    var b' := Next(b, Advance(p));
    if b'.subs[q] == b.subs[q] {
      OthersStay(b, p, q);
    } else if w.stage == Drop {
      if b.subs[q].items == [] {
        MissKeepsSub(b, p, q);
      } else {
        DropKeepsSub(b, p, q);
      }
    } else {
      PutKeepsSub(b, p, q);
    }
  }

  lemma MissKeepsSub(b: Bus, p: nat, q: nat)
    requires Ok(b) && p < |b.pubs| && b.pubs[p].Working? && q in b.subs && b.subs[q].items == []
    requires Next(b, Advance(p)).subs[q].read == b.subs[q].read && Next(b, Advance(p)).subs[q].items == []
    ensures SubOk(Next(b, Advance(p)), q)
  {
    var b', h := Next(b, Advance(p)), b.subs[q].read;
    assert SubOk(b, q) && h + [] == h;
    forall i | 0 <= i < |h| ensures h[i].number < Coming(b', h[i].publisher, q) {
      assert (h + b.subs[q].items)[i] == h[i];
      ComingGrows(b, p, h[i].publisher, q);
    }
  }

  lemma AdvanceKeepsOk(b: Bus, p: nat)
    requires Ok(b) && Enabled(b, Advance(p))
    ensures Ok(Next(b, Advance(p)))
  {
    var b' := Next(b, Advance(p));
    forall q | q in b'.subs ensures SubOk(b', q) {
      assert q in b.subs by { assert PubOk(b, p); }
      AdvanceKeepsSubs(b, p, q);
    }
    forall r | 0 <= r < |b'.pubs| ensures PubOk(b', r) {
      assert PubOk(b, r) && PubOk(b, p);
    }
  }

  lemma BeginKeepsOk(b: Bus, p: nat, order: seq<nat>)
    requires Ok(b) && Enabled(b, Begin(p, order))
    ensures Ok(Next(b, Begin(p, order)))
  {
    var b' := Next(b, Begin(p, order));
    forall q | q in b'.subs ensures SubOk(b', q) {
      assert SubOk(b, q);
      var h := b.subs[q].read + b.subs[q].items;
      assert forall i :: 0 <= i < |h| ==> Coming(b, h[i].publisher, q) <= Coming(b', h[i].publisher, q);
    }
    forall r | 0 <= r < |b'.pubs| ensures PubOk(b', r) {
      assert PubOk(b, r);
    }
  }

  lemma ConsumeKeepsOk(b: Bus, q: nat)
    requires Ok(b) && Enabled(b, Consume(q))
    ensures Ok(Next(b, Consume(q)))
  {
    var b' := Next(b, Consume(q));
    forall r | r in b'.subs ensures SubOk(b', r) {
      assert SubOk(b, r);
      var sub := b.subs[q];
      assert sub.read + [sub.items[0]] + sub.items[1..] == sub.read + sub.items;
      var h := b.subs[r].read + b.subs[r].items;
      assert forall i :: 0 <= i < |h| ==> Coming(b, h[i].publisher, r) == Coming(b', h[i].publisher, r);
    }
    forall r | 0 <= r < |b'.pubs| ensures PubOk(b', r) {
      assert PubOk(b, r);
    }
  }

  lemma MembershipKeepsOk(b: Bus, s: Step)
    requires Ok(b) && Enabled(b, s) && (s.Subscribe? || s.Unsubscribe?)
    ensures Ok(Next(b, s))
  {
    var b' := Next(b, s);
    forall r | r in b'.subs ensures SubOk(b', r) {
      if r in b.subs {
        assert SubOk(b, r);
        var h := b.subs[r].read + b.subs[r].items;
        assert forall i :: 0 <= i < |h| ==> Coming(b, h[i].publisher, r) == Coming(b', h[i].publisher, r);
      }
    }
    forall r | 0 <= r < |b'.pubs| ensures PubOk(b', r) {
      assert PubOk(b, r);
    }
  }

  lemma {:induction false} RunIsOk(maxsize: nat, publishers: nat, steps: seq<Step>)
    ensures Ok(Exec(Init(maxsize, publishers), steps))
  {
    if steps != [] {
      var before, s := steps[..|steps| - 1], steps[|steps| - 1];
      RunIsOk(maxsize, publishers, before);
      var b := Exec(Init(maxsize, publishers), before);
      if Enabled(b, s) {
        StepKeepsOk(b, s);
      }
    }
  }

  /** In every interleaving of any number of publishers, consumers, subscriptions
      and unsubscriptions: no queue exceeds its bound, and what a subscriber has
      read, followed by what is queued for it, holds each publisher's events
      without repeats and in the order they were published. */
  lemma EveryInterleaving(maxsize: nat, publishers: nat, steps: seq<Step>, q: nat)
    requires q in Exec(Init(maxsize, publishers), steps).subs
    ensures var sub := Exec(Init(maxsize, publishers), steps).subs[q];
            WithinBound(maxsize, sub.items) && InPublishOrder(sub.read + sub.items)
  {
    RunIsOk(maxsize, publishers, steps);
    var b := Exec(Init(maxsize, publishers), steps);
    assert SubOk(b, q);
    MaxsizeStays(Init(maxsize, publishers), steps);
  }

  lemma {:induction false} MaxsizeStays(b: Bus, steps: seq<Step>)
    ensures var b' := Exec(b, steps);
            b'.maxsize == b.maxsize && |b'.pubs| == |b.pubs| && |b'.next| == |b.next|
  {
    if steps != [] {
      MaxsizeStays(b, steps[..|steps| - 1]);
    }
  }

  lemma ExecSnoc(b: Bus, steps: seq<Step>, s: Step)
    requires Enabled(Exec(b, steps), s)
    ensures Exec(b, steps + [s]) == Next(Exec(b, steps), s)
  {
    assert (steps + [s])[..|steps|] == steps;
  }

  // ---- one publish with nothing in between ----

  lemma {:induction false} ExecConcat(b: Bus, first: seq<Step>, more: seq<Step>)
    ensures Exec(b, first + more) == Exec(Exec(b, first), more)
  {
    if more == [] {
      assert first + more == first;
    } else {
      assert (first + more)[..|first + more| - 1] == first + more[..|more| - 1];
      ExecConcat(b, first, more[..|more| - 1]);
    }
  }

  function Advances(p: nat, k: nat): (r: seq<Step>)
    ensures |r| == k
  {
    seq(k, i => Advance(p))
  }

  lemma AdvanceOnce(b: Bus, p: nat)
    requires Enabled(b, Advance(p))
    ensures Exec(b, Advances(p, 1)) == Next(b, Advance(p))
  {
    assert Advances(p, 1) == [] + [Advance(p)];
    ExecSnoc(b, [], Advance(p));
  }

  lemma AdvancesAdd(b: Bus, p: nat, j: nat, k: nat)
    ensures Exec(b, Advances(p, j + k)) == Exec(Exec(b, Advances(p, j)), Advances(p, k))
  {
    assert Advances(p, j + k) == Advances(p, j) + Advances(p, k);
    ExecConcat(b, Advances(p, j), Advances(p, k));
  }

  /** The publisher stands in front of a queue of its own list. */
  predicate InFront(b: Bus, p: nat) {
    && p < |b.pubs| && b.pubs[p].Working? && b.pubs[p].stage == First && b.pubs[p].targets != []
    && b.pubs[p].targets[0] in b.subs && WithinBound(b.maxsize, b.subs[b.pubs[p].targets[0]].items)
  }

  /** The queue has been offered the event, and the publisher has moved on. */
  predicate Offered(b: Bus, b': Bus, p: nat)
    requires InFront(b, p)
  {
    var w := b.pubs[p];
    var q := w.targets[0];
    && b' == b.(subs := b'.subs, pubs := b.pubs[p := w.(targets := w.targets[1..])])
    && q in b'.subs && b'.subs == b.subs[q := b'.subs[q]]
    && b'.subs[q].items == Offer(b.maxsize, b.subs[q].items, w.event)
    && b'.subs[q].read == b.subs[q].read
  }

  lemma OfferToOne(b: Bus, p: nat) returns (k: nat)
    requires InFront(b, p)
    ensures Offered(b, Exec(b, Advances(p, k)), p)
  {
    var b1 := Next(b, Advance(p));
    AdvanceOnce(b, p);
    k := 1;
    if IsFull(b.maxsize, b.subs[b.pubs[p].targets[0]].items) {
      MakeRoomAndPut(b, p);
      var b2 := Next(b1, Advance(p));
      AdvanceOnce(b1, p);
      AdvanceOnce(b2, p);
      AdvancesAdd(b, p, 1, 1);
      AdvancesAdd(b, p, 2, 1);
      k := 3;
    }
  }

  lemma MakeRoomAndPut(b: Bus, p: nat)
    requires InFront(b, p) && IsFull(b.maxsize, b.subs[b.pubs[p].targets[0]].items)
    ensures var b1 := Next(b, Advance(p));
            Enabled(b1, Advance(p)) &&
            var b2 := Next(b1, Advance(p));
            Enabled(b2, Advance(p)) && Offered(b, Next(b2, Advance(p)), p)
  {
    var w := b.pubs[p];
    var b1 := Next(b, Advance(p));
    assert b1.pubs[p] == w.(stage := Drop) && b1.subs == b.subs;
    var b2 := Next(b1, Advance(p));
    assert b2.pubs[p] == w.(stage := Again);
    assert Next(b2, Advance(p)).pubs == b.pubs[p := w.(targets := w.targets[1..])];
  }

  /** The publisher is at the start of its list, and the list is sound. */
  predicate Starting(b: Bus, p: nat) {
    && p < |b.pubs| && b.pubs[p].Working? && b.pubs[p].stage == First
    && (forall i, j :: 0 <= i < j < |b.pubs[p].targets| ==> b.pubs[p].targets[i] != b.pubs[p].targets[j])
    && forall q :: q in b.pubs[p].targets ==> q in b.subs && WithinBound(b.maxsize, b.subs[q].items)
  }

  /** Every listed queue has been offered the event, and no other has changed. */
  predicate OfferedToAll(b: Bus, b': Bus, p: nat)
    requires Starting(b, p)
  {
    && b' == b.(subs := b'.subs, pubs := b.pubs[p := Resting]) && b'.subs.Keys == b.subs.Keys
    && forall q :: q in b.subs ==>
         if q in b.pubs[p].targets
         then
           && b'.subs[q].items == Offer(b.maxsize, b.subs[q].items, b.pubs[p].event)
           && b'.subs[q].read == b.subs[q].read
         else b'.subs[q] == b.subs[q]
  }

  lemma {:induction false} OfferToList(b: Bus, p: nat) returns (k: nat)
    requires Starting(b, p)
    ensures OfferedToAll(b, Exec(b, Advances(p, k)), p)
    decreases |b.pubs[p].targets|
  {
    if b.pubs[p].targets == [] {
      OfferToNone(b, p);
      k := 1;
    } else {
      StartsInFront(b, p);
      var j := OfferToOne(b, p);
      var b1 := Exec(b, Advances(p, j));
      RestIsSound(b, b1, p);
      var rest := OfferToList(b1, p);
      OneAndMore(b, p, j, rest);
      k := j + rest;
    }
  }

  lemma OneAndMore(b: Bus, p: nat, j: nat, rest: nat)
    requires Starting(b, p) && InFront(b, p) && Offered(b, Exec(b, Advances(p, j)), p)
    requires var b1 := Exec(b, Advances(p, j));
             Starting(b1, p) && b1.pubs[p].targets == b.pubs[p].targets[1..]
             && OfferedToAll(b1, Exec(b1, Advances(p, rest)), p)
    ensures OfferedToAll(b, Exec(b, Advances(p, j + rest)), p)
  {
    var b1 := Exec(b, Advances(p, j));
    FirstAndRest(b, b1, Exec(b1, Advances(p, rest)), p);
    AdvancesAdd(b, p, j, rest);
  }

  lemma OfferToNone(b: Bus, p: nat)
    requires Starting(b, p) && b.pubs[p].targets == []
    ensures OfferedToAll(b, Exec(b, Advances(p, 1)), p)
  {
    AdvanceOnce(b, p);
  }

  lemma StartsInFront(b: Bus, p: nat)
    requires Starting(b, p) && b.pubs[p].targets != []
    ensures InFront(b, p)
  {
    assert b.pubs[p].targets[0] in b.pubs[p].targets;
  }

  lemma RestIsSound(b: Bus, b1: Bus, p: nat)
    requires Starting(b, p) && InFront(b, p) && Offered(b, b1, p)
    ensures Starting(b1, p) && b1.pubs[p].targets == b.pubs[p].targets[1..]
    ensures b.pubs[p].targets[0] !in b1.pubs[p].targets
  {
    var targets := b.pubs[p].targets;
    assert forall q :: q in targets[1..] ==> q in targets && q != targets[0];
  }

  lemma FirstAndRest(b: Bus, b1: Bus, b2: Bus, p: nat)
    requires Starting(b, p) && InFront(b, p) && Offered(b, b1, p)
    requires Starting(b1, p) && b1.pubs[p].targets == b.pubs[p].targets[1..] && OfferedToAll(b1, b2, p)
    ensures OfferedToAll(b, b2, p)
  {
    var targets := b.pubs[p].targets;
    RestIsSound(b, b1, p);
    assert forall q :: q in targets <==> q == targets[0] || q in targets[1..];
    assert b2.pubs == b.pubs[p := Resting];
  }

  /** In any reachable state, a publish that runs from beginning to end without
      another step in between does to every subscriber what EventBus.Publish does,
      and nothing to any other queue. */
  lemma UninterruptedPublish(b: Bus, p: nat, order: seq<nat>) returns (k: nat)
    requires Ok(b) && Enabled(b, Begin(p, order))
    ensures var b' := Exec(b, [Begin(p, order)] + Advances(p, k));
            && b'.pubs == b.pubs && b'.next == b.next[p := b.next[p] + 1] && b'.subs.Keys == b.subs.Keys
            && forall q :: q in b.subs ==>
                 if q in b.members
                 then b'.subs[q].items == Offer(b.maxsize, b.subs[q].items, Event(p, b.next[p]))
                 else b'.subs[q] == b.subs[q]
  {
    var b1 := Next(b, Begin(p, order));
    forall q | q in order ensures q in b.subs && WithinBound(b.maxsize, b.subs[q].items) {
      assert SubOk(b, q);
    }
    k := OfferToList(b1, p);
    ExecSnoc(b, [], Begin(p, order));
    assert [] + [Begin(p, order)] == [Begin(p, order)];
    ExecConcat(b, [Begin(p, order)], Advances(p, k));
    assert b.pubs[p := Resting] == b.pubs;
  }

  // ---- after an unsubscribe ----

  /** Queue q belongs to nobody any more, and all that it holds, has held or will get
      is from before the given numbers, publisher by publisher. */
  predicate Quiet(b: Bus, q: nat, bound: seq<nat>) {
    && |bound| == |b.pubs| == |b.next| && q in b.subs && q !in b.members
    && (forall p :: 0 <= p < |bound| ==> bound[p] <= b.next[p])
    && (forall p :: 0 <= p < |bound| && b.pubs[p].Working? && q in b.pubs[p].targets ==>
          b.pubs[p].event.number < bound[p])
    && OlderThan(b.subs[q].read, bound) && OlderThan(b.subs[q].items, bound)
  }

  predicate OlderThan(h: seq<Event>, bound: seq<nat>) {
    forall i :: 0 <= i < |h| ==> h[i].publisher < |bound| && h[i].number < bound[h[i].publisher]
  }

  lemma AdvanceStaysQuiet(b: Bus, p: nat, q: nat, bound: seq<nat>)
    requires Ok(b) && Quiet(b, q, bound) && Enabled(b, Advance(p))
    ensures Quiet(Next(b, Advance(p)), q, bound)
  {
    var b', w := Next(b, Advance(p)), b.pubs[p];
    assert PubOk(b, p);
    if w.targets != [] && w.targets[0] == q {
      assert OlderThan([w.event], bound);
    }
    assert w.targets != [] ==> forall r :: r in w.targets[1..] ==> r in w.targets;
  }

  lemma StepStaysQuiet(b: Bus, s: Step, q: nat, bound: seq<nat>)
    requires Ok(b) && Quiet(b, q, bound) && Enabled(b, s)
    ensures Quiet(Next(b, s), q, bound)
  {
    match s
    case Advance(p) => AdvanceStaysQuiet(b, p, q, bound);
    case _ =>
  }

  lemma StepKeepsOk(b: Bus, s: Step)
    requires Ok(b) && Enabled(b, s)
    ensures Ok(Next(b, s))
  {
    match s
    case Begin(p, order) => BeginKeepsOk(b, p, order);
    case Advance(p) => AdvanceKeepsOk(b, p);
    case Consume(q) => ConsumeKeepsOk(b, q);
    case _ => MembershipKeepsOk(b, s);
  }

  lemma {:induction false} RunStaysQuiet(b: Bus, steps: seq<Step>, q: nat, bound: seq<nat>)
    requires Ok(b) && Quiet(b, q, bound)
    ensures Ok(Exec(b, steps)) && Quiet(Exec(b, steps), q, bound)
  {
    if steps != [] {
      var before, s := steps[..|steps| - 1], steps[|steps| - 1];
      RunStaysQuiet(b, before, q, bound);
      if Enabled(Exec(b, before), s) {
        StepKeepsOk(Exec(b, before), s);
        StepStaysQuiet(Exec(b, before), s, q, bound);
      }
    }
  }

  /** Whatever happens after an unsubscribe, in any interleaving, the queue never gets
      an event of a publish that begins later. */
  lemma UnsubscribedIsQuiet(maxsize: nat, publishers: nat, before: seq<Step>, q: nat, steps: seq<Step>)
    requires q in Exec(Init(maxsize, publishers), before).subs
    ensures var b := Exec(Init(maxsize, publishers), before);
            var b' := Exec(Next(b, Unsubscribe(q)), steps);
            q in b'.subs && OlderThan(b'.subs[q].read + b'.subs[q].items, b.next)
  {
    var b := Exec(Init(maxsize, publishers), before);
    RunIsOk(maxsize, publishers, before);
    StepKeepsOk(b, Unsubscribe(q));
    UnsubscribeQuiets(b, q);
    RunStaysQuiet(Next(b, Unsubscribe(q)), steps, q, b.next);
  }

  lemma UnsubscribeQuiets(b: Bus, q: nat)
    requires Ok(b) && q in b.subs
    ensures Quiet(Next(b, Unsubscribe(q)), q, b.next)
  {
    assert SubOk(b, q);
    var read, items := b.subs[q].read, b.subs[q].items;
    forall p | 0 <= p < |b.pubs| && b.pubs[p].Working? ensures b.pubs[p].event.number < b.next[p] {
      assert PubOk(b, p);
    }
    assert forall i :: 0 <= i < |read| ==> (read + items)[i] == read[i];
    assert forall i :: 0 <= i < |items| ==> (read + items)[|read| + i] == items[i];
  }
}
