/** Two ways in which publish falls short once other threads get in between, and
    exactly when they are possible. */
module EventBusFull {
  import opened EventBus
  import opened EventBusRuns
  import opened EventBusSingle

  /** n publishers, all resting but perhaps number 1. */
  function Pubs(n: nat, other: Publisher): (r: seq<Publisher>)
    ensures |r| == n
  {
    seq(n, i => if i == 1 then other else Resting)
  }

  function Counts(n: nat, next: nat, others: nat): (r: seq<nat>)
    ensures |r| == n
  {
    seq(n, i => if i == 0 then next else if i == 1 then others else 0)
  }

  /** One subscriber; publisher 0 has `next` events out, of which the queue holds
      those from `first` on. */
  function Crowd(maxsize: nat, n: nat, first: nat, next: nat, other: Publisher, others: nat): Bus
    requires first <= next
  {
    Bus(maxsize, map[0 := Sub(Run(first, next), [], Run(0, first), 0, next, 0)], {0},
        Pubs(n, other), Counts(n, next, others))
  }

  /** Publisher 0 gets one event through while there is room. */
  lemma PublishOnce(maxsize: nat, n: nat, first: nat, next: nat, other: Publisher, others: nat)
    requires 1 <= n && first <= next && next - first < maxsize
    ensures var b := Crowd(maxsize, n, first, next, other, others);
            Enabled(b, Begin(0, [0])) &&
            var b1 := Next(b, Begin(0, [0]));
            Enabled(b1, Advance(0)) &&
            var b2 := Next(b1, Advance(0));
            Enabled(b2, Advance(0)) && Next(b2, Advance(0)) == Crowd(maxsize, n, first, next + 1, other, others)
  {
    var b, b' := Crowd(maxsize, n, first, next, other, others), Crowd(maxsize, n, first, next + 1, other, others);
    var b1 := Next(b, Begin(0, [0]));
    assert b1.next == b'.next;
    var b2 := Next(b1, Advance(0));
    assert [0][1..] == [];
    assert Run(first, next) + [Event(0, next)] == Run(first, next + 1);
    assert b2.subs == b'.subs;
    assert Next(b2, Advance(0)).pubs == b'.pubs;
  }

  lemma OneMore(maxsize: nat, n: nat, steps: seq<Step>, first: nat, next: nat, other: Publisher, others: nat)
    returns (more: seq<Step>)
    requires 1 <= n && first <= next && next - first < maxsize
    requires Exec(Init(maxsize, n), steps) == Crowd(maxsize, n, first, next, other, others)
    ensures Exec(Init(maxsize, n), more) == Crowd(maxsize, n, first, next + 1, other, others)
  {
    var init := Init(maxsize, n);
    PublishOnce(maxsize, n, first, next, other, others);
    ExecSnoc(init, steps, Begin(0, [0]));
    ExecSnoc(init, steps + [Begin(0, [0])], Advance(0));
    ExecSnoc(init, steps + [Begin(0, [0])] + [Advance(0)], Advance(0));
    more := steps + [Begin(0, [0])] + [Advance(0)] + [Advance(0)];
  }

  lemma Fill(maxsize: nat, n: nat, k: nat) returns (steps: seq<Step>)
    requires 1 <= n && k <= maxsize
    ensures Exec(Init(maxsize, n), steps) == Crowd(maxsize, n, 0, k, Resting, 0)
  {
    var init := Init(maxsize, n);
    ExecSnoc(init, [], Subscribe(0));
    steps := [] + [Subscribe(0)];
    var b := Crowd(maxsize, n, 0, 0, Resting, 0);
    assert init.pubs == b.pubs && init.next == b.next;
    assert Next(init, Subscribe(0)).subs == b.subs;
    for i := 0 to k
      invariant Exec(init, steps) == Crowd(maxsize, n, 0, i, Resting, 0)
    {
      steps := OneMore(maxsize, n, steps, 0, i, Resting, 0);
    }
  }

  // ---- queue.Full ----

  /** The other publisher finds the queue full and makes room. */
  lemma OtherMakesRoom(maxsize: nat, n: nat)
    requires 1 <= maxsize && 2 <= n
    ensures var b := Crowd(maxsize, n, 0, maxsize, Resting, 0);
            Enabled(b, Begin(1, [0])) &&
            var b1 := Next(b, Begin(1, [0]));
            Enabled(b1, Advance(1)) &&
            var b2 := Next(b1, Advance(1));
            Enabled(b2, Advance(1)) &&
            Next(b2, Advance(1)) == Crowd(maxsize, n, 1, maxsize, Working(Event(1, 0), [0], Again), 1)
  {
    var b := Crowd(maxsize, n, 0, maxsize, Resting, 0);
    var b' := Crowd(maxsize, n, 1, maxsize, Working(Event(1, 0), [0], Again), 1);
    var b1 := Next(b, Begin(1, [0]));
    assert b1.next == b'.next;
    var b2 := Next(b1, Advance(1));
    assert b2.pubs[1] == Working(Event(1, 0), [0], Drop) && b2.subs == b1.subs;
    assert Run(0, maxsize)[1..] == Run(1, maxsize);
    assert Run(0, 0) + [Event(0, 0)] == Run(0, 1);
    var b3 := Next(b2, Advance(1));
    assert b3.pubs == b'.pubs;
    assert b3.subs == b'.subs;
  }

  /** With two publishers or more, and a limit of any size, queue.Full can leave
      publish: the room one of them makes is taken by another before the second put. */
  lemma FullCanEscape(maxsize: nat, n: nat) returns (steps: seq<Step>)
    requires 1 <= maxsize && 2 <= n
    ensures Raised in Exec(Init(maxsize, n), steps).pubs
  {
    var init, w := Init(maxsize, n), Working(Event(1, 0), [0], Again);
    steps := Fill(maxsize, n, maxsize);
    OtherMakesRoom(maxsize, n);
    ExecSnoc(init, steps, Begin(1, [0]));
    ExecSnoc(init, steps + [Begin(1, [0])], Advance(1));
    ExecSnoc(init, steps + [Begin(1, [0])] + [Advance(1)], Advance(1));
    steps := steps + [Begin(1, [0])] + [Advance(1)] + [Advance(1)];
    steps := OneMore(maxsize, n, steps, 1, maxsize, w, 1);
    SecondPutRaises(maxsize, n);
    ExecSnoc(init, steps, Advance(1));
    steps := steps + [Advance(1)];
  }

  lemma SecondPutRaises(maxsize: nat, n: nat)
    requires 1 <= maxsize && 2 <= n
    ensures var b := Crowd(maxsize, n, 1, maxsize + 1, Working(Event(1, 0), [0], Again), 1);
            Enabled(b, Advance(1)) && Raised in Next(b, Advance(1)).pubs
  {
    var b := Crowd(maxsize, n, 1, maxsize + 1, Working(Event(1, 0), [0], Again), 1);
    assert Next(b, Advance(1)).pubs[1] == Raised;
  }

  /** A queue without a limit is never full. */
  predicate NeverFull(b: Bus) {
    b.maxsize == 0 && forall w :: w in b.pubs ==> w != Raised && (w.Working? ==> w.stage == First)
  }

  lemma {:induction false} NoLimitNoFull(n: nat, steps: seq<Step>)
    ensures NeverFull(Exec(Init(0, n), steps))
  {
    if steps != [] {
      NoLimitNoFull(n, steps[..|steps| - 1]);
    }
  }

  /** The exact condition: queue.Full can leave publish if and only if the queues
      have a limit and there are at least two publishers. */
  lemma FullEscapesIff(maxsize: nat, n: nat)
    ensures (exists steps :: Raised in Exec(Init(maxsize, n), steps).pubs) <==> 1 <= maxsize && 2 <= n
  {
    if 1 <= maxsize && 2 <= n {
      var steps := FullCanEscape(maxsize, n);
    } else {
      forall steps ensures Raised !in Exec(Init(maxsize, n), steps).pubs {
        MaxsizeStays(Init(maxsize, n), steps);
        if maxsize == 0 {
          NoLimitNoFull(n, steps);
        } else if n == 1 {
          SinglePublisher(maxsize, steps);
        }
      }
    }
  }

  // ---- the newest event ----

  /** The one publisher has found the queue full and is about to drop its oldest
      event, and the consumer has meanwhile taken j of them. */
  function Emptying(maxsize: nat, j: nat): Bus
    requires j <= maxsize
  {
    Bus(maxsize, map[0 := Sub(Run(j, maxsize), Run(0, j), Run(0, j), 0, maxsize, 0)], {0},
        [Working(Event(0, maxsize), [0], Drop)], [maxsize + 1])
  }

  lemma FindsItFull(maxsize: nat)
    requires 1 <= maxsize
    ensures var b := Crowd(maxsize, 1, 0, maxsize, Resting, 0);
            Enabled(b, Begin(0, [0])) &&
            var b1 := Next(b, Begin(0, [0]));
            Enabled(b1, Advance(0)) && Next(b1, Advance(0)) == Emptying(maxsize, 0)
  {
    var b := Crowd(maxsize, 1, 0, maxsize, Resting, 0);
    var b1 := Next(b, Begin(0, [0]));
    assert b1.next == [maxsize + 1];
    assert Run(0, 0) == [];
    var b2 := Next(b1, Advance(0));
    assert b2.pubs == [Working(Event(0, maxsize), [0], Drop)];
    assert b2.subs == Emptying(maxsize, 0).subs;
  }

  lemma ConsumerTakesOne(maxsize: nat, j: nat)
    requires j < maxsize
    ensures Enabled(Emptying(maxsize, j), Consume(0))
    ensures Next(Emptying(maxsize, j), Consume(0)) == Emptying(maxsize, j + 1)
  {
    assert Run(j, maxsize)[1..] == Run(j + 1, maxsize);
    assert Run(0, j) + [Event(0, j)] == Run(0, j + 1);
    assert Next(Emptying(maxsize, j), Consume(0)).subs == Emptying(maxsize, j + 1).subs;
  }

  /** What is left of it: nothing queued, and event number maxsize never was. */
  function Missed(maxsize: nat): Bus {
    Bus(maxsize, map[0 := Sub([], Run(0, maxsize), Run(0, maxsize), 0, maxsize + 1, 1)], {0}, [Resting], [maxsize + 1])
  }

  lemma GivesUp(maxsize: nat)
    ensures var b := Emptying(maxsize, maxsize);
            Enabled(b, Advance(0)) &&
            var b1 := Next(b, Advance(0));
            Enabled(b1, Advance(0)) && Next(b1, Advance(0)) == Missed(maxsize)
  {
    var b1 := Next(Emptying(maxsize, maxsize), Advance(0));
    assert [0][1..] == [];
    assert b1.pubs == [Working(Event(0, maxsize), [], First)];
    assert b1.subs == Missed(maxsize).subs;
    assert Next(b1, Advance(0)).pubs == [Resting];
  }

  /** For every limit, with one publisher, a consumer that empties the queue in the
      middle of a publish makes the newest event the one that is lost: it is neither
      queued nor ever taken, and all older ones are. */
  lemma NewestCanBeMissed(maxsize: nat) returns (steps: seq<Step>)
    requires 1 <= maxsize
    ensures Exec(Init(maxsize, 1), steps) == Missed(maxsize)
  {
    var init := Init(maxsize, 1);
    steps := Fill(maxsize, 1, maxsize);
    FindsItFull(maxsize);
    ExecSnoc(init, steps, Begin(0, [0]));
    ExecSnoc(init, steps + [Begin(0, [0])], Advance(0));
    steps := steps + [Begin(0, [0])] + [Advance(0)];
    for j := 0 to maxsize
      invariant Exec(init, steps) == Emptying(maxsize, j)
    {
      ConsumerTakesOne(maxsize, j);
      ExecSnoc(init, steps, Consume(0));
      steps := steps + [Consume(0)];
    }
    GivesUp(maxsize);
    ExecSnoc(init, steps, Advance(0));
    ExecSnoc(init, steps + [Advance(0)], Advance(0));
    steps := steps + [Advance(0)] + [Advance(0)];
  }
}
