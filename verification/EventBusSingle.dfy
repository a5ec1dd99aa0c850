/** EventBus with one publisher thread: what its queues hold at any moment. */
module EventBusSingle {
  import opened EventBus
  import opened EventBusRuns

  /** The publisher's events from number a up to, not including, number b. */
  function Run(a: nat, b: nat): (r: seq<Event>)
    requires a <= b
    ensures |r| == b - a
  {
    seq(b - a, i requires 0 <= i < b - a => Event(0, a + i))
  }

  predicate Pending(b: Bus, q: nat)
    requires 1 <= |b.pubs|
  {
    b.pubs[0].Working? && q in b.pubs[0].targets
  }

  /** The queue is the newest part of what was offered; every event offered has
      left at the front, is still there, or was missed. */
  predicate Contiguous(sub: Sub) {
    && sub.since <= sub.upto && |sub.taken| + |sub.items| + sub.missed == sub.upto - sub.since
    && sub.items == Run(sub.upto - |sub.items|, sub.upto)
    && (sub.missed == 0 ==> sub.taken + sub.items == Run(sub.since, sub.upto))
  }

  predicate QueueOk(b: Bus, q: nat)
    requires |b.pubs| == |b.next| == 1 && q in b.subs
  {
    var sub, w := b.subs[q], b.pubs[0];
    && Contiguous(sub) && WithinBound(b.maxsize, sub.items)
    && (Pending(b, q) ==> sub.upto == w.event.number)
    && (!Pending(b, q) && q in b.members ==> sub.upto == b.next[0])
    && (w.Working? && w.targets != [] && w.targets[0] == q && w.stage == Again ==> !IsFull(b.maxsize, sub.items))
  }

  predicate Alone(b: Bus) {
    && |b.pubs| == |b.next| == 1 && Ok(b) && b.pubs[0] != Raised
    && (b.pubs[0].Working? && b.pubs[0].targets == [] ==> b.pubs[0].stage == First)
    && forall q :: q in b.subs ==> QueueOk(b, q)
  }

  lemma TouchKeepsContiguous(maxsize: nat, sub: Sub, w: Publisher)
    requires Contiguous(sub) && w.Working? && w.event == Event(0, sub.upto) && WithinBound(maxsize, sub.items)
    requires w.stage == Again ==> !IsFull(maxsize, sub.items)
    ensures var sub' := Touch(maxsize, sub, w);
            && Contiguous(sub') && WithinBound(maxsize, sub'.items)
            && (w.stage == First && IsFull(maxsize, sub.items) ==> sub' == sub)
            && (w.stage == Drop && sub.items != [] ==> sub'.upto == sub.upto && !IsFull(maxsize, sub'.items))
  {
    var sub' := Touch(maxsize, sub, w);
    if w.stage == Drop {
      if sub.items != [] {
        assert sub'.taken + sub'.items == sub.taken + sub.items;
      }
    } else if !IsFull(maxsize, sub.items) {
      assert sub'.taken + sub'.items == sub.taken + sub.items + [w.event];
    }
  }

  /** One step of the publisher on the queue in front of it. */
  lemma AdvanceFront(b: Bus)
    requires Alone(b) && Enabled(b, Advance(0)) && b.pubs[0].targets != []
    ensures var q := b.pubs[0].targets[0];
            q in b.subs && Next(b, Advance(0)).pubs[0] != Raised && QueueOk(Next(b, Advance(0)), q)
  {
    var w := b.pubs[0];
    var q := w.targets[0];
    assert PubOk(b, 0) && QueueOk(b, q);
    TouchKeepsContiguous(b.maxsize, b.subs[q], w);
    assert q !in w.targets[1..];
  }

  lemma AdvanceOthers(b: Bus, q: nat)
    requires Alone(b) && Enabled(b, Advance(0)) && q in b.subs
    requires b.pubs[0].targets == [] || q != b.pubs[0].targets[0]
    ensures QueueOk(Next(b, Advance(0)), q)
  {
    var w := b.pubs[0];
    assert PubOk(b, 0) && QueueOk(b, q);
    if w.targets != [] {
      AdvanceFront(b);
      assert w.targets == [w.targets[0]] + w.targets[1..];
    }
  }

  lemma AdvanceAlone(b: Bus)
    requires Alone(b) && Enabled(b, Advance(0))
    ensures Alone(Next(b, Advance(0)))
  {
    var w, b' := b.pubs[0], Next(b, Advance(0));
    AdvanceKeepsOk(b, 0);
    assert PubOk(b, 0);
    if w.targets != [] {
      AdvanceFront(b);
    }
    forall q | q in b'.subs ensures QueueOk(b', q) {
      if w.targets == [] || q != w.targets[0] {
        AdvanceOthers(b, q);
      }
    }
  }

  lemma BeginAlone(b: Bus, order: seq<nat>)
    requires Alone(b) && Enabled(b, Begin(0, order))
    ensures Alone(Next(b, Begin(0, order)))
  {
    var b' := Next(b, Begin(0, order));
    BeginKeepsOk(b, 0, order);
    forall q | q in b'.subs ensures QueueOk(b', q) {
      assert QueueOk(b, q);
    }
  }

  lemma ConsumeAlone(b: Bus, q: nat)
    requires Alone(b) && Enabled(b, Consume(q))
    ensures Alone(Next(b, Consume(q)))
  {
    var b' := Next(b, Consume(q));
    ConsumeKeepsOk(b, q);
    forall r | r in b'.subs ensures QueueOk(b', r) {
      assert QueueOk(b, r);
      if r == q {
        var sub := b.subs[q];
        assert sub.taken + [sub.items[0]] + sub.items[1..] == sub.taken + sub.items;
      }
    }
  }

  lemma MembershipAlone(b: Bus, s: Step)
    requires Alone(b) && Enabled(b, s) && (s.Subscribe? || s.Unsubscribe?)
    ensures Alone(Next(b, s))
  {
    var b' := Next(b, s);
    MembershipKeepsOk(b, s);
    assert PubOk(b, 0);
    forall r | r in b'.subs ensures QueueOk(b', r) {
      if r in b.subs {
        assert QueueOk(b, r);
      }
    }
  }

  lemma StepAlone(b: Bus, s: Step)
    requires Alone(b) && Enabled(b, s)
    ensures Alone(Next(b, s))
  {
    match s
    case Begin(p, order) => BeginAlone(b, order);
    case Advance(p) => AdvanceAlone(b);
    case Consume(q) => ConsumeAlone(b, q);
    case _ => MembershipAlone(b, s);
  }

  lemma {:induction false} RunAlone(maxsize: nat, steps: seq<Step>)
    ensures Alone(Exec(Init(maxsize, 1), steps))
  {
    if steps == [] {
      RunIsOk(maxsize, 1, []);
    } else {
      var before, s := steps[..|steps| - 1], steps[|steps| - 1];
      RunAlone(maxsize, before);
      if Enabled(Exec(Init(maxsize, 1), before), s) {
        StepAlone(Exec(Init(maxsize, 1), before), s);
      }
    }
  }

  /** One publisher, any consumers: queue.Full never leaves publish, and a queue is
      always a contiguous stretch of events. Between two publishes a subscriber's
      stretch ends with the newest event there is. */
  lemma SinglePublisher(maxsize: nat, steps: seq<Step>)
    ensures var b := Exec(Init(maxsize, 1), steps);
            && |b.pubs| == |b.next| == 1 && b.pubs[0] != Raised
            && (forall q :: q in b.subs ==> Contiguous(b.subs[q]))
            && (forall q :: q in b.subs && q in b.members && b.pubs[0] == Resting ==> b.subs[q].upto == b.next[0])
  {
    RunAlone(maxsize, steps);
    var b := Exec(Init(maxsize, 1), steps);
    forall q | q in b.subs ensures QueueOk(b, q) {
    }
  }

  /** However the consumers interleave, every event offered is accounted for, and
      there is a gap exactly if one was missed. */
  lemma GapIffMissed(maxsize: nat, steps: seq<Step>, q: nat)
    requires q in Exec(Init(maxsize, 1), steps).subs
    ensures var sub := Exec(Init(maxsize, 1), steps).subs[q];
            && sub.since <= sub.upto
            && |sub.taken| + |sub.items| + sub.missed == sub.upto - sub.since
            && (sub.taken + sub.items == Run(sub.since, sub.upto) <==> sub.missed == 0)
  {
    RunAlone(maxsize, steps);
    assert QueueOk(Exec(Init(maxsize, 1), steps), q);
  }

  // ---- which schedules lose an event ----

  /** How many events the consumer of q has taken since the publisher's last step. */
  function ConsumedSince(b: Bus, steps: seq<Step>, q: nat): nat {
    if steps == [] then 0
    else
      var before, s := steps[..|steps| - 1], steps[|steps| - 1];
      if s == Advance(0) then 0
      else ConsumedSince(b, before, q) + if s == Consume(q) && Enabled(Exec(b, before), s) then 1 else 0
  }

  /** The publisher's put on q has failed, and its get_nowait comes next. */
  predicate AtDrop(b: Bus, q: nat) {
    && |b.pubs| == 1 && b.pubs[0].Working? && b.pubs[0].stage == Drop
    && b.pubs[0].targets != [] && b.pubs[0].targets[0] == q
  }

  /** The last step is a get_nowait on q, since whose failed put the consumer has
      taken exactly maxsize events. */
  ghost predicate EmptiedNow(maxsize: nat, steps: seq<Step>, q: nat) {
    steps != [] &&
    var before := steps[..|steps| - 1];
    steps[|steps| - 1] == Advance(0) && AtDrop(Exec(Init(maxsize, 1), before), q)
    && ConsumedSince(Init(maxsize, 1), before, q) == maxsize
  }

  /** In some publish of the schedule, exactly maxsize consumer steps on q fall
      between its failed put on q and its get_nowait. */
  ghost predicate Emptied(maxsize: nat, steps: seq<Step>, q: nat) {
    exists k :: 0 <= k <= |steps| && EmptiedNow(maxsize, steps[..k], q)
  }

  lemma EmptiedSplit(maxsize: nat, steps: seq<Step>, q: nat)
    requires steps != []
    ensures Emptied(maxsize, steps, q) <==>
            Emptied(maxsize, steps[..|steps| - 1], q) || EmptiedNow(maxsize, steps, q)
  {
    var before := steps[..|steps| - 1];
    assert steps[..|steps|] == steps;
    assert forall k :: 0 <= k <= |before| ==> before[..k] == steps[..k];
  }

  /** Between the failed put and the get_nowait the consumer's steps are all that
      happens to the queue, which was full. */
  predicate DropCounts(b: Bus, q: nat, consumed: nat) {
    AtDrop(b, q) && q in b.subs ==> 1 <= b.maxsize && |b.subs[q].items| + consumed == b.maxsize
  }

  lemma StepCounts(b: Bus, s: Step, q: nat, consumed: nat)
    requires Alone(b) && Enabled(b, s) && DropCounts(b, q, consumed)
    ensures DropCounts(Next(b, s), q,
              if s == Advance(0) then 0 else consumed + if s == Consume(q) then 1 else 0)
  {
    assert PubOk(b, 0);
    var b' := Next(b, s);
    if s.Advance? && AtDrop(b', q) {
      assert b.pubs[0].targets != [] && b.pubs[0].stage == First;
      assert QueueOk(b, q);
    }
  }

  lemma {:induction false} RunCounts(maxsize: nat, steps: seq<Step>, q: nat)
    ensures var init := Init(maxsize, 1); DropCounts(Exec(init, steps), q, ConsumedSince(init, steps, q))
  {
    if steps != [] {
      var init, before, s := Init(maxsize, 1), steps[..|steps| - 1], steps[|steps| - 1];
      RunCounts(maxsize, before, q);
      RunAlone(maxsize, before);
      if Enabled(Exec(init, before), s) {
        StepCounts(Exec(init, before), s, q, ConsumedSince(init, before, q));
      }
    }
  }

  /** A step misses an event of q exactly if it is a get_nowait that finds q empty. */
  predicate Misses(b: Bus, s: Step, q: nat) {
    s == Advance(0) && AtDrop(b, q) && q in b.subs && b.subs[q].items == []
  }

  function MissedBy(b: Bus, q: nat): nat {
    if q in b.subs then b.subs[q].missed else 0
  }

  lemma StepMisses(b: Bus, s: Step, q: nat)
    requires Alone(b) && Enabled(b, s)
    ensures MissedBy(Next(b, s), q) == MissedBy(b, q) + if Misses(b, s, q) then 1 else 0
  {
    assert PubOk(b, 0);
  }

  lemma MissesIffEmptiedNow(maxsize: nat, steps: seq<Step>, q: nat)
    requires steps != []
    ensures EmptiedNow(maxsize, steps, q) <==>
            Misses(Exec(Init(maxsize, 1), steps[..|steps| - 1]), steps[|steps| - 1], q)
  {
    var init, before := Init(maxsize, 1), steps[..|steps| - 1];
    var b := Exec(init, before);
    RunAlone(maxsize, before);
    MaxsizeStays(init, before);
    RunCounts(maxsize, before, q);
    if AtDrop(b, q) {
      assert PubOk(b, 0) && b.pubs[0].targets[0] in b.subs;
    }
  }

  lemma {:induction false} MissedIffEmptied(maxsize: nat, steps: seq<Step>, q: nat)
    ensures 0 < MissedBy(Exec(Init(maxsize, 1), steps), q) <==> Emptied(maxsize, steps, q)
  {
    if steps == [] {
      assert forall k :: 0 <= k <= |steps| ==> steps[..k] == [];
    } else {
      var before, s := steps[..|steps| - 1], steps[|steps| - 1];
      var b := Exec(Init(maxsize, 1), before);
      MissedIffEmptied(maxsize, before, q);
      EmptiedSplit(maxsize, steps, q);
      MissesIffEmptiedNow(maxsize, steps, q);
      RunAlone(maxsize, before);
      if Enabled(b, s) {
        StepMisses(b, s, q);
      }
    }
  }

  /** The exact condition, for one publisher and any consumers: what has left q at
      the front and what is in it are everything offered since its subscription, in
      order and without a gap, unless in some publish exactly maxsize consumer steps
      on q fall between its failed put and its get_nowait. */
  lemma GapIffEmptied(maxsize: nat, steps: seq<Step>, q: nat)
    requires q in Exec(Init(maxsize, 1), steps).subs
    ensures var sub := Exec(Init(maxsize, 1), steps).subs[q];
            && sub.since <= sub.upto
            && (sub.taken + sub.items != Run(sub.since, sub.upto) <==> Emptied(maxsize, steps, q))
  {
    GapIffMissed(maxsize, steps, q);
    MissedIffEmptied(maxsize, steps, q);
  }

  // ---- consumers that are slow within a publish ----

  /** How many events the consumer of q has taken since the last publish began. */
  function ConsumedInPublish(b: Bus, steps: seq<Step>, q: nat): nat {
    if steps == [] then 0
    else
      var before, s := steps[..|steps| - 1], steps[|steps| - 1];
      if s.Begin? && Enabled(Exec(b, before), s) then 0
      else ConsumedInPublish(b, before, q) + if s == Consume(q) && Enabled(Exec(b, before), s) then 1 else 0
  }

  lemma {:induction false} SinceIsWithin(maxsize: nat, steps: seq<Step>, q: nat)
    ensures var init := Init(maxsize, 1);
            AtDrop(Exec(init, steps), q) ==> ConsumedSince(init, steps, q) <= ConsumedInPublish(init, steps, q)
  {
    if steps != [] {
      var before, s := steps[..|steps| - 1], steps[|steps| - 1];
      SinceIsWithin(maxsize, before, q);
      var b := Exec(Init(maxsize, 1), before);
      MaxsizeStays(Init(maxsize, 1), before);
      if s.Begin? && Enabled(b, s) {
        assert !AtDrop(Next(b, s), q);
      }
    }
  }

  /** Whenever the publisher takes a step, the consumer of q has taken fewer than
      maxsize events since the publish began. */
  ghost predicate Unhurried(maxsize: nat, steps: seq<Step>, q: nat) {
    forall k :: 0 <= k < |steps| && steps[k] == Advance(0) ==>
      ConsumedInPublish(Init(maxsize, 1), steps[..k], q) < maxsize
  }

  /** Then only the oldest events are ever dropped. */
  lemma OnlyOldestDropped(maxsize: nat, steps: seq<Step>, q: nat)
    requires 0 < maxsize ==> Unhurried(maxsize, steps, q)
    requires q in Exec(Init(maxsize, 1), steps).subs
    ensures var sub := Exec(Init(maxsize, 1), steps).subs[q];
            sub.since <= sub.upto && sub.taken + sub.items == Run(sub.since, sub.upto)
  {
    GapIffEmptied(maxsize, steps, q);
    forall k | 0 <= k <= |steps| ensures !EmptiedNow(maxsize, steps[..k], q) {
      if k != 0 {
        assert steps[..k][..k - 1] == steps[..k - 1];
        NotEmptiedNow(maxsize, steps[..k - 1], steps[k - 1], q);
        assert steps[..k] == steps[..k - 1] + [steps[k - 1]];
      }
    }
  }

  lemma NotEmptiedNow(maxsize: nat, before: seq<Step>, s: Step, q: nat)
    requires 0 < maxsize && s == Advance(0) ==> ConsumedInPublish(Init(maxsize, 1), before, q) < maxsize
    ensures !EmptiedNow(maxsize, before + [s], q)
  {
    assert (before + [s])[..|before + [s]| - 1] == before;
    SinceIsWithin(maxsize, before, q);
    RunCounts(maxsize, before, q);
    RunAlone(maxsize, before);
    MaxsizeStays(Init(maxsize, 1), before);
    assert PubOk(Exec(Init(maxsize, 1), before), 0);
  }
}
