/** Counting datagrams: conservation, the five-send budget, and termination of
    the whole system. */
module TftpBudget {
  import opened Common
  import opened TftpWire
  import opened TftpServer
  import opened TftpTranscript
  import opened TftpNetwork
  import opened TftpSafety

  /** Every datagram that a first send, a timeout of either end or a network copy
      has brought in is in flight or lost. */
  predicate Conserved(n: Net) {
    !n.server.Stopped? ==> |n.data| + |n.acks| + n.lost == 1 + n.timeouts + n.copied + n.resent
  }

  lemma StepConserves(cfg: Config, oack: Option<Packet>, n: Net, e: Event)
    requires cfg.Valid() && ValidOack(oack) && FifoInv(cfg, oack, n) && Enabled(n, e) && InOrder(e)
    requires Conserved(n)
    ensures Conserved(Next(cfg, n, e))
  {
    match e
    case ToClient(_) => ClientAlwaysReplies(cfg, oack, n);
    case ToServer(_) => ServerHearsInOrder(cfg, oack, n);
    case _ =>
  }

  /** In every reachable state of an in-order network, while the server waits:
      DATA in flight + ACKs in flight + losses = 1 + timeouts + copies + answers
      repeated on the client's timeouts. Each of them therefore adds one datagram
      that circulates until it is lost. */
  lemma {:induction false} Conservation(cfg: Config, oack: Option<Packet>, events: seq<Event>)
    requires cfg.Valid() && ValidOack(oack) && AllInOrder(events)
    ensures Conserved(Exec(cfg, oack, events))
  {
    if events != [] {
      var before, e := events[..|events| - 1], events[|events| - 1];
      Conservation(cfg, oack, before);
      FifoRun(cfg, oack, before);
      if Enabled(Exec(cfg, oack, before), e) {
        StepConserves(cfg, oack, Exec(cfg, oack, before), e);
      }
    }
  }

  // ---- a network that only delays ----

  /** In order, nothing lost, nothing copied. */
  predicate Reliable(events: seq<Event>) {
    forall i :: 0 <= i < |events| ==> events[i] in {ToClient(0), ToServer(0), Expire, ClientExpire}
  }

  function Count(s: seq<InFlight>, tag: nat): (c: nat)
    ensures c <= |s|
  {
    if s == [] then 0 else (if s[0].tag == tag then 1 else 0) + Count(s[1..], tag)
  }

  lemma {:induction false} CountAppend(s: seq<InFlight>, p: InFlight, tag: nat)
    ensures Count(s + [p], tag) == Count(s, tag) + if p.tag == tag then 1 else 0
  {
    if s == [] {
      assert s + [p] == [p];
    } else {
      assert (s + [p])[1..] == s[1..] + [p];
      CountAppend(s[1..], p, tag);
    }
  }

  lemma {:induction false} CountUniform(s: seq<InFlight>, tag: nat)
    requires Between(tag, s, tag)
    ensures Count(s, tag) == |s|
  {
    if s != [] {
      CountUniform(s[1..], tag);
    }
  }

  lemma {:induction false} CountNone(s: seq<InFlight>, lo: int, hi: int, tag: nat)
    requires Between(lo, s, hi) && hi < tag
    ensures Count(s, tag) == 0
  {
    if s != [] {
      CountNone(s[1..], lo, hi, tag);
    }
  }

  /** What has come in too much before the block that the server is on: a timeout
      of its own, or one of the client while it was on an earlier block. */
  function Strays(n: Net): int {
    n.timeouts + n.resent - n.again
  }

  /** On a reliable network the datagrams for the current block are exactly the
      ones that either end has sent for it. */
  predicate Budget(n: Net) {
    && n.lost == 0 && n.copied == 0 && n.again <= n.resent
    && (n.server.AwaitOack? ==> n.timeouts == 0)
    && (n.server.Sending? ==>
          Count(n.data, n.server.block) + Count(n.acks, n.server.block) == n.server.tries + n.again)
    && (n.server.Stopped? ==>
          match n.server.outcome
          case Done(_) => Strays(n) <= 4
          case GaveUp => 5 <= Strays(n)
          case _ => n.timeouts == 1)
  }

  lemma ClientStepKeepsBudget(cfg: Config, oack: Option<Packet>, n: Net)
    requires cfg.Valid() && ValidOack(oack) && FifoInv(cfg, oack, n) && n.data != [] && Budget(n)
    ensures Budget(Next(cfg, n, ToClient(0)))
  {
    ClientAlwaysReplies(cfg, oack, n);
    var n' := Next(cfg, n, ToClient(0));
    var p := InFlight(n.data[0].tag, AckPacket(n.data[0].tag));
    assert n'.data == n.data[1..] && n'.acks == n.acks + [p];
    if n.server.Sending? {
      CountAppend(n.acks, p, n.server.block);
    }
  }

  lemma RepeatKeepsBudget(cfg: Config, oack: Option<Packet>, n: Net)
    requires cfg.Valid() && FifoInv(cfg, oack, n) && Budget(n) && n.client.heard
    ensures Budget(ClientRepeats(n))
  {
    CountAppend(n.acks, InFlight(n.client.last, AckPacket(n.client.last)), n.server.Top());
  }

  /** The block is accepted only after every stray datagram has come back, so
      after exactly one send per stray, plus one. */
  lemma AcceptedAfter(n: Net)
    requires Ordered(n) && Conserved(n) && Budget(n)
    requires n.server.Sending? && n.acks != [] && n.acks[0].tag == n.server.block
    ensures n.server.tries == 1 + Strays(n)
  {
    CountUniform(n.acks, n.server.block);
    CountUniform(n.data, n.server.block);
  }

  /** A stray ACK at the front means one of the sends so far is still owed. */
  lemma StrayMeansTimeout(n: Net)
    requires Conserved(n) && Budget(n) && n.server.Sending?
    ensures n.server.tries <= 1 + Strays(n)
    ensures n.acks != [] && n.acks[0].tag != n.server.block ==> n.server.tries <= Strays(n)
  {
  }

  lemma FirstSendCounts(cfg: Config, n: Net, s: Server)
    requires Ordered(n) && s.Sending? && s.block == n.server.Top() + 1
    ensures Count(n.data + [InFlight(s.block, DataPacket(cfg, s.block))], s.block) == 1
    ensures n.acks != [] ==> Count(n.acks[1..], s.block) == 0
  {
    CountAppend(n.data, InFlight(s.block, DataPacket(cfg, s.block)), s.block);
    CountNone(n.data, n.client.last, n.server.Top(), s.block);
    if n.acks != [] {
      var top: int := n.server.Top();
      CountNone(n.acks[1..], top - 1, n.client.last, s.block);
    }
  }

  /** A stray ACK makes the server send its block again. */
  lemma StrayKeepsBudget(cfg: Config, oack: Option<Packet>, n: Net)
    requires cfg.Valid() && FifoInv(cfg, oack, n) && Conserved(n) && Budget(n) && Enabled(n, ToServer(0))
    requires n.server.Sending? && n.acks[0].tag != n.server.block
    ensures Budget(Next(cfg, n, ToServer(0)))
  {
    var n', p := Next(cfg, n, ToServer(0)), InFlight(n.server.block, DataPacket(cfg, n.server.block));
    ServerHearsInOrder(cfg, oack, n);
    StrayMeansTimeout(n);
    CountAppend(n.data, p, n.server.block);
    assert n'.acks == n.acks[1..] && (n'.server.Sending? ==> n'.data == n.data + [p]);
  }

  /** The ACK it waits for makes it go on. */
  lemma AcceptKeepsBudget(cfg: Config, oack: Option<Packet>, n: Net)
    requires cfg.Valid() && FifoInv(cfg, oack, n) && Conserved(n) && Budget(n) && Enabled(n, ToServer(0))
    requires n.acks[0].tag == n.server.Top()
    ensures Budget(Next(cfg, n, ToServer(0)))
  {
    var n' := Next(cfg, n, ToServer(0));
    ServerHearsInOrder(cfg, oack, n);
    assert n'.acks == n.acks[1..];
    if n.server.Sending? {
      AcceptedAfter(n);
    }
    if n'.server.Sending? {
      FirstSendCounts(cfg, n, n'.server);
      assert n'.data == n.data + [InFlight(n'.server.block, DataPacket(cfg, n'.server.block))];
    }
  }

  lemma ServerStepKeepsBudget(cfg: Config, oack: Option<Packet>, n: Net)
    requires cfg.Valid() && FifoInv(cfg, oack, n) && Conserved(n) && Budget(n) && Enabled(n, ToServer(0))
    ensures Budget(Next(cfg, n, ToServer(0)))
  {
    if n.acks[0].tag == n.server.Top() {
      AcceptKeepsBudget(cfg, oack, n);
    } else {
      StrayKeepsBudget(cfg, oack, n);
    }
  }

  lemma ExpireKeepsBudget(cfg: Config, oack: Option<Packet>, n: Net)
    requires cfg.Valid() && FifoInv(cfg, oack, n) && Conserved(n) && Budget(n) && Enabled(n, Expire)
    ensures Budget(Next(cfg, n, Expire))
  {
    var n' := Next(cfg, n, Expire);
    if n.server.Sending? {
      StrayMeansTimeout(n);
      if n'.server.Sending? {
        var p := InFlight(n.server.block, DataPacket(cfg, n.server.block));
        CountAppend(n.data, p, n.server.block);
        assert n'.data == n.data + [p];
      }
    }
  }

  lemma {:induction false} ReliableRun(cfg: Config, oack: Option<Packet>, events: seq<Event>)
    requires cfg.Valid() && ValidOack(oack) && Reliable(events)
    ensures var n := Exec(cfg, oack, events); FifoInv(cfg, oack, n) && Conserved(n) && Budget(n)
  {
    assert AllInOrder(events);
    FifoRun(cfg, oack, events);
    Conservation(cfg, oack, events);
    if events != [] {
      var before, e := events[..|events| - 1], events[|events| - 1];
      ReliableRun(cfg, oack, before);
      var n := Exec(cfg, oack, before);
      if Enabled(n, e) {
        match e
        case ToClient(_) => ClientStepKeepsBudget(cfg, oack, n);
        case ToServer(_) => ServerStepKeepsBudget(cfg, oack, n);
        case Expire => ExpireKeepsBudget(cfg, oack, n);
        case ClientExpire => RepeatKeepsBudget(cfg, oack, n);
      }
    }
  }

  /** The attempts are counted per block in the code, but a reliable network
      makes them a budget for the whole transfer: a finished transfer saw at most
      four strays in all, an abandoned one at least five, and a block is accepted
      after exactly 1 + (strays so far) sends. With a client that never times out,
      the strays are the server's timeouts. */
  lemma ReliableBudget(cfg: Config, oack: Option<Packet>, events: seq<Event>)
    requires cfg.Valid() && ValidOack(oack) && Reliable(events)
    ensures var n := Exec(cfg, oack, events);
            && (n.server.Stopped? && !n.server.outcome.OackTimeout? ==>
                  (n.server.outcome.Done? <==> Strays(n) <= 4) && (n.server.outcome.GaveUp? <==> 5 <= Strays(n)))
            && (n.server.Sending? && n.acks != [] && n.acks[0].tag == n.server.block ==>
                  n.server.tries == 1 + Strays(n))
            && n.timeouts <= Strays(n) <= n.timeouts + n.resent
  {
    ReliableRun(cfg, oack, events);
    var n := Exec(cfg, oack, events);
    if n.server.Sending? && n.acks != [] && n.acks[0].tag == n.server.block {
      AcceptedAfter(n);
    }
  }

  // ---- termination of the whole system ----

  function SendsLeft(cfg: Config, s: Server): int
    requires cfg.Valid()
  {
    match s
    case AwaitOack => 5 * Blocks(cfg) + 1
    case Sending(b, t) => 5 * (Blocks(cfg) - b) + (6 - t)
    case Stopped(_, _) => 0
  }

  function Weight(cfg: Config, n: Net): int
    requires cfg.Valid()
  {
    3 * SendsLeft(cfg, n.server) + 2 * |n.data| + |n.acks|
  }

  lemma ServerSpends(cfg: Config, n: Net, r: Received)
    requires cfg.Valid() && n.server.Valid() && !n.server.Stopped? && n.server.Top() <= Blocks(cfg)
    ensures var n' := ServerHears(cfg, n, r);
            && n'.server.Top() <= Blocks(cfg) && 0 <= SendsLeft(cfg, n'.server)
            && Weight(cfg, n') < Weight(cfg, n) && n'.acks == n.acks
  {
    if n.server.Sending? {
      OnReceiveCases(cfg, n.server, r);
    }
  }

  /** Each event costs some weight, but for what copies and client timeouts add. */
  lemma EventCosts(cfg: Config, n: Net, e: Event)
    requires cfg.Valid() && n.server.Valid() && n.server.Top() <= Blocks(cfg) && 0 <= SendsLeft(cfg, n.server)
    requires Enabled(n, e)
    ensures var n' := Next(cfg, n, e);
            && n'.server.Top() <= Blocks(cfg) && 0 <= SendsLeft(cfg, n'.server)
            && Weight(cfg, n') + 1 <= Weight(cfg, n) + 3 * (n'.copied - n.copied) + 2 * (n'.resent - n.resent)
  {
    match e
    case ToServer(i) => ServerSpends(cfg, n.(acks := Without(n.acks, i)), Datagram(n.acks[i].wire));
    case Expire => ServerSpends(cfg, n.(timeouts := n.timeouts + 1), Timeout);
    case _ =>
  }

  lemma {:induction false} WeightFalls(cfg: Config, oack: Option<Packet>, events: seq<Event>)
    requires cfg.Valid() && Happens(cfg, oack, events)
    ensures var n := Exec(cfg, oack, events);
            && n.server.Top() <= Blocks(cfg) && 0 <= SendsLeft(cfg, n.server)
            && Weight(cfg, n) + |events| <= Weight(cfg, Init(cfg, oack)) + 3 * n.copied + 2 * n.resent
  {
    if events != [] {
      WeightFalls(cfg, oack, events[..|events| - 1]);
      EventCosts(cfg, Exec(cfg, oack, events[..|events| - 1]), events[|events| - 1]);
    }
  }

  /** No run is longer than 15 events per block and five more, plus three for each
      copy and two for each timeout of the client, however the network loses,
      delays and reorders. */
  lemma RunsAreBounded(cfg: Config, oack: Option<Packet>, events: seq<Event>)
    requires cfg.Valid() && Happens(cfg, oack, events)
    ensures var n := Exec(cfg, oack, events); |events| <= 15 * Blocks(cfg) + 5 + 3 * n.copied + 2 * n.resent
  {
    WeightFalls(cfg, oack, events);
  }

  /** A reachable state of a reliable network in which the transfer has not
      failed. */
  ghost predicate OnTrack(cfg: Config, oack: Option<Packet>, events: seq<Event>) {
    && Reliable(events) && Happens(cfg, oack, events)
    && var n := Exec(cfg, oack, events);
       n.timeouts + n.resent <= 4 && !(n.server.Stopped? && n.server.outcome.OackTimeout?)
  }

  lemma SomethingInFlight(cfg: Config, oack: Option<Packet>, events: seq<Event>)
    requires cfg.Valid() && ValidOack(oack) && Reliable(events)
    ensures var n := Exec(cfg, oack, events); !n.server.Stopped? ==> n.data != [] || n.acks != []
  {
    ReliableRun(cfg, oack, events);
  }

  /** While the server waits, a datagram is there to be delivered. */
  lemma NeverStuck(cfg: Config, oack: Option<Packet>, events: seq<Event>) returns (e: Event)
    requires cfg.Valid() && ValidOack(oack) && OnTrack(cfg, oack, events)
    requires !Exec(cfg, oack, events).server.Stopped?
    ensures e in {ToClient(0), ToServer(0)} && OnTrack(cfg, oack, events + [e])
  {
    SomethingInFlight(cfg, oack, events);
    e := if Exec(cfg, oack, events).data != [] then ToClient(0) else ToServer(0);
    ExecOneMore(cfg, oack, events, e);
    NoOackTimeout(cfg, Exec(cfg, oack, events), e);
  }

  lemma OnTrackIsBounded(cfg: Config, oack: Option<Packet>, events: seq<Event>)
    requires cfg.Valid() && ValidOack(oack) && OnTrack(cfg, oack, events)
    ensures |events| <= 15 * Blocks(cfg) + 13
  {
    ReliableRun(cfg, oack, events);
    RunsAreBounded(cfg, oack, events);
  }

  predicate Delivered(cfg: Config, n: Net)
    requires cfg.Valid()
  {
    n.server == Stopped(Blocks(cfg), Done(|cfg.file|)) && n.client.got == cfg.file
  }

  lemma EndedWell(cfg: Config, oack: Option<Packet>, events: seq<Event>)
    requires cfg.Valid() && ValidOack(oack) && OnTrack(cfg, oack, events)
    requires Exec(cfg, oack, events).server.Stopped?
    ensures Delivered(cfg, Exec(cfg, oack, events))
  {
    ReliableRun(cfg, oack, events);
    InvIsSafe(cfg, oack, Exec(cfg, oack, events));
  }

  predicate OnlyDeliveries(events: seq<Event>) {
    forall i :: 0 <= i < |events| ==> events[i] in {ToClient(0), ToServer(0)}
  }

  /** On a reliable network with at most four timeouts at the two ends together, a
      transfer that has not ended can go on by deliveries alone, and then ends with
      the whole file at the client; by RunsAreBounded it cannot go on for ever. */
  lemma {:induction false} ReliableDelivery(cfg: Config, oack: Option<Packet>, events: seq<Event>)
    returns (full: seq<Event>)
    requires cfg.Valid() && ValidOack(oack) && OnTrack(cfg, oack, events)
    ensures events <= full && OnlyDeliveries(full[|events|..])
    ensures OnTrack(cfg, oack, full) && Delivered(cfg, Exec(cfg, oack, full))
    decreases 15 * Blocks(cfg) + 13 - |events|
  {
    if Exec(cfg, oack, events).server.Stopped? {
      full := events;
      EndedWell(cfg, oack, events);
    } else {
      var e := NeverStuck(cfg, oack, events);
      OnTrackIsBounded(cfg, oack, events + [e]);
      full := ReliableDelivery(cfg, oack, events + [e]);
      TailAfter(full, events, e);
    }
  }

  lemma TailAfter(full: seq<Event>, events: seq<Event>, e: Event)
    requires events + [e] <= full && OnlyDeliveries(full[|events + [e]|..]) && e in {ToClient(0), ToServer(0)}
    ensures events <= full && OnlyDeliveries(full[|events|..])
  {
    assert full[|events|] == (events + [e])[|events|];
    assert full[|events|..] == [e] + full[|events| + 1..];
  }

  lemma NoOackTimeout(cfg: Config, n: Net, e: Event)
    requires n.server.Valid() && !n.server.Stopped? && Enabled(n, e) && e in {ToClient(0), ToServer(0)}
    ensures Next(cfg, n, e).timeouts == n.timeouts && Next(cfg, n, e).resent == n.resent
    ensures !(Next(cfg, n, e).server.Stopped? && Next(cfg, n, e).server.outcome.OackTimeout?)
  {
  }
}
