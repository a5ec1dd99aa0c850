/** Whole runs: what the client holds, over FIFO and over reordering networks. */
module TftpSafety {
  import opened Common
  import opened TftpWire
  import opened TftpServer
  import opened TftpTranscript
  import opened TftpNetwork

  /** The client's bytes are a prefix of the file, and Done at the server means
      that the client has all of it. */
  predicate Safe(cfg: Config, n: Net) {
    && n.client.got <= cfg.file
    && (n.server.Stopped? && n.server.outcome.Done? ==> n.client.got == cfg.file && n.server.outcome.sent == |cfg.file|)
    && (n.client.done ==> n.client.got == cfg.file)
  }

  lemma InvIsSafe(cfg: Config, oack: Option<Packet>, n: Net)
    requires cfg.Valid() && Inv(cfg, oack, n)
    ensures Safe(cfg, n)
  {
    if n.client.done {
      WholeFile(cfg);
    }
  }

  lemma WholeFile(cfg: Config)
    requires cfg.Valid()
    ensures cfg.file[..Pos(cfg, Blocks(cfg))] == cfg.file
  {
    ShortIffLast(cfg, Blocks(cfg));
  }

  // ---- channels that lose, copy and reorder ----

  lemma {:induction false} ReorderInv(cfg: Config, oack: Option<Packet>, events: seq<Event>)
    requires cfg.Valid() && ValidOack(oack)
    requires forall k :: 0 <= k < |events| ==> Fresh(cfg, Exec(cfg, oack, events[..k]))
    ensures Inv(cfg, oack, Exec(cfg, oack, events))
  {
    if events == [] {
      InitInv(cfg, oack);
    } else {
      var before := events[..|events| - 1];
      forall k | 0 <= k < |before| ensures Fresh(cfg, Exec(cfg, oack, before[..k])) {
        assert before[..k] == events[..k];
      }
      ReorderInv(cfg, oack, before);
      var n, e := Exec(cfg, oack, before), events[|events| - 1];
      if Enabled(n, e) {
        StepKeepsInv(cfg, oack, n, e);
      }
    }
  }

  /** Whatever the network loses, copies and reorders, the transfer is safe as
      long as no event meets a datagram that can be mistaken. */
  lemma ReorderSafety(cfg: Config, oack: Option<Packet>, events: seq<Event>)
    requires cfg.Valid() && ValidOack(oack)
    requires forall k :: 0 <= k < |events| ==> Fresh(cfg, Exec(cfg, oack, events[..k]))
    ensures Safe(cfg, Exec(cfg, oack, events))
  {
    ReorderInv(cfg, oack, events);
    InvIsSafe(cfg, oack, Exec(cfg, oack, events));
  }

  /** The files for which block numbers cannot be confused: one block space of DATA
      blocks, less the number that the OACK's answer uses up. */
  predicate Fits(cfg: Config, oack: Option<Packet>)
    requires cfg.Valid()
  {
    if oack.None? then |cfg.file| < BLOCK_SPACE * cfg.blksize
    else |cfg.file| <= (BLOCK_SPACE - 1) * cfg.blksize
  }

  lemma FitsInBlocks(cfg: Config, oack: Option<Packet>)
    requires cfg.Valid()
    ensures Fits(cfg, None) <==> Blocks(cfg) <= BLOCK_SPACE
    ensures Fits(cfg, Some([])) ==> Blocks(cfg) <= BLOCK_SPACE
    ensures Fits(cfg, Some([])) && Blocks(cfg) == BLOCK_SPACE ==> |cfg.file| == (BLOCK_SPACE - 1) * cfg.blksize
    ensures !Fits(cfg, Some([])) ==> BLOCK_SPACE <= Blocks(cfg)
    ensures !Fits(cfg, Some([])) && Blocks(cfg) == BLOCK_SPACE ==> 0 < |cfg.file| % cfg.blksize
  {
    BlocksOfSize(|cfg.file|, cfg.blksize, |cfg.file| / cfg.blksize);
  }

  lemma BlocksOfSize(n: nat, b: nat, q: nat)
    requires 0 < b && q == n / b
    ensures n == q * b + n % b && n % b < b
    ensures n < BLOCK_SPACE * b <==> q + 1 <= BLOCK_SPACE
    ensures n <= (BLOCK_SPACE - 1) * b <==> q + 1 < BLOCK_SPACE || (q + 1 == BLOCK_SPACE && n % b == 0)
  {
    QuotientBound(n, b, q, BLOCK_SPACE);
    QuotientBound(n, b, q, BLOCK_SPACE - 1);
    if q == BLOCK_SPACE - 1 {
      assert n == (BLOCK_SPACE - 1) * b + n % b;
    }
  }

  lemma QuotientBound(n: nat, b: nat, q: nat, m: nat)
    requires 0 < b && q == n / b
    ensures n == q * b + n % b && (n < m * b <==> q < m)
    ensures m < q ==> m * b < n
  {
    if q < m {
      MulMonotone(q + 1, m, b);
      assert (q + 1) * b == q * b + b;
    } else {
      MulMonotone(m, q, b);
      if m < q {
        MulMonotone(m + 1, q, b);
        assert (m + 1) * b == m * b + b;
      }
    }
  }

  /** A file that fits keeps every reachable state fresh. */
  lemma FitsIsFresh(cfg: Config, oack: Option<Packet>, n: Net)
    requires cfg.Valid() && Inv(cfg, oack, n) && Fits(cfg, oack)
    ensures Fresh(cfg, n)
  {
    FitsInBlocks(cfg, oack);
    if n.server.Sending? && n.server.block == BLOCK_SPACE && oack.Some? {
      ShortIffLast(cfg, BLOCK_SPACE);
      assert Pos(cfg, BLOCK_SPACE - 1) == |cfg.file|;
      assert Pos(cfg, n.client.last) == |cfg.file|;
    }
  }

  lemma {:induction false} FittingRun(cfg: Config, oack: Option<Packet>, events: seq<Event>)
    requires cfg.Valid() && ValidOack(oack) && Fits(cfg, oack)
    ensures Inv(cfg, oack, Exec(cfg, oack, events))
  {
    if events == [] {
      InitInv(cfg, oack);
    } else {
      var before, e := events[..|events| - 1], events[|events| - 1];
      FittingRun(cfg, oack, before);
      var n := Exec(cfg, oack, before);
      FitsIsFresh(cfg, oack, n);
      if Enabled(n, e) {
        StepKeepsInv(cfg, oack, n, e);
      }
    }
  }

  // ---- channels that lose and copy but keep the order ----

  /** The oldest datagram arrives first, and a copy arrives right behind its
      original. */
  predicate InOrder(e: Event) {
    match e
    case ToClient(i) => i == 0
    case ToServer(i) => i == 0
    case CopyData(i, at) => at == i + 1
    case CopyAck(i, at) => at == i + 1
    case _ => true
  }

  predicate AllInOrder(events: seq<Event>) {
    forall i :: 0 <= i < |events| ==> InOrder(events[i])
  }

  predicate Sorted(s: seq<InFlight>) {
    forall i, j :: 0 <= i < j < |s| ==> s[i].tag <= s[j].tag
  }

  predicate Between(lo: int, s: seq<InFlight>, hi: int) {
    forall i :: 0 <= i < |s| ==> lo <= s[i].tag <= hi
  }

  /** ACKs front to back, then the client's last block, then DATA front to back,
      then the server's block: nondecreasing, and at most one apart. */
  predicate Ordered(n: Net) {
    var top: int := n.server.Top();
    && top - 1 <= n.client.last <= top
    && Sorted(n.acks) && Between(top - 1, n.acks, n.client.last)
    && Sorted(n.data) && Between(n.client.last, n.data, top)
  }

  /** Done also means that the client knows it has everything. */
  predicate Finished(n: Net) {
    n.server.Stopped? && n.server.outcome.Done? ==> n.client.done
  }

  ghost predicate FifoInv(cfg: Config, oack: Option<Packet>, n: Net)
    requires cfg.Valid()
  {
    Inv(cfg, oack, n) && Ordered(n) && Finished(n)
  }

  /** In order, nothing can be old enough to be mistaken for a later block. */
  lemma OrderedIsFresh(cfg: Config, n: Net)
    requires cfg.Valid() && Ordered(n)
    ensures Fresh(cfg, n)
  {
  }

  /** In order, the client answers every datagram. */
  lemma ClientAlwaysReplies(cfg: Config, oack: Option<Packet>, n: Net)
    requires cfg.Valid() && ValidOack(oack) && FifoInv(cfg, oack, n) && n.data != []
    ensures var (c, reply) := ClientStep(cfg.blksize, n.client, n.data[0].wire);
            && c.last == n.data[0].tag && reply == Some(AckPacket(c.last)) && (n.client.done ==> c.done)
            && n.client.last <= c.last <= n.client.last + 1
  {
    assert n.data[0] in n.data;
    DataDecides(cfg, oack, n.server.Top(), n.client, n.data[0]);
  }

  lemma DeliveryToClientInOrder(cfg: Config, oack: Option<Packet>, n: Net)
    requires cfg.Valid() && ValidOack(oack) && FifoInv(cfg, oack, n) && n.data != []
    ensures Ordered(Next(cfg, n, ToClient(0)))
  {
    ClientAlwaysReplies(cfg, oack, n);
    var n' := Next(cfg, n, ToClient(0));
    assert n'.data == n.data[1..];
    assert n'.acks == n.acks + [InFlight(n'.client.last, AckPacket(n'.client.last))];
  }

  /** What an in-order ACK does to the server. */
  lemma ServerHearsInOrder(cfg: Config, oack: Option<Packet>, n: Net)
    requires cfg.Valid() && FifoInv(cfg, oack, n) && n.acks != [] && !n.server.Stopped?
    ensures var (s, out) := OnReceive(cfg, n.server, Datagram(n.acks[0].wire));
            var tag := n.acks[0].tag;
            match n.server
            case AwaitOack => tag == 0 && s == Sending(1, 1) && out == [DataPacket(cfg, 1)]
            case Sending(b, t) =>
              if tag != b then (s, out) == Retry(cfg, n.server)
              else if b == Blocks(cfg) then s == Stopped(b, Done(|cfg.file|)) && out == []
              else s == Sending(b + 1, 1) && out == [DataPacket(cfg, b + 1)]
  {
    assert n.acks[0] in n.acks;
    if n.server.Sending? {
      AckDecides(cfg, n.server, n.acks[0].tag);
    }
  }

  lemma AppendKeepsOrder(s: seq<InFlight>, lo: int, hi: int, p: InFlight)
    requires Sorted(s) && Between(lo, s, hi) && lo <= hi <= p.tag
    ensures Sorted(s + [p]) && Between(lo, s + [p], p.tag)
  {
  }

  /** The server has taken the oldest ACK and sent nothing. */
  lemma OrderAfterAck(n: Net, n': Net)
    requires Ordered(n) && n.acks != [] && n'.acks == n.acks[1..] && n'.client == n.client
    requires n'.data == n.data && n'.server.Top() == n.server.Top()
    ensures Ordered(n')
  {
  }

  /** The server has taken the oldest ACK and sent p: its block again, or the next
      one if the ACK was for its block. */
  lemma OrderAfterSend(n: Net, n': Net, p: InFlight)
    requires Ordered(n) && n.acks != [] && n'.acks == n.acks[1..] && n'.client == n.client
    requires n'.data == n.data + [p] && p.tag == n'.server.Top()
    requires p.tag == n.server.Top() + if n.acks[0].tag == n.server.Top() then 1 else 0
    ensures Ordered(n')
  {
    AppendKeepsOrder(n.data, n.client.last, n.server.Top(), p);
    var lo: int := p.tag - 1;
    assert Between(lo, n.acks, n.client.last);
    assert lo <= n.client.last <= p.tag;
  }

  lemma DeliveryToServerInOrder(cfg: Config, oack: Option<Packet>, n: Net)
    requires cfg.Valid() && FifoInv(cfg, oack, n) && Enabled(n, ToServer(0))
    ensures Ordered(Next(cfg, n, ToServer(0)))
  {
    ServerHearsInOrder(cfg, oack, n);
    var n' := Next(cfg, n, ToServer(0));
    assert n'.acks == n.acks[1..];
    if n'.server.Sending? {
      var p := InFlight(n'.server.block, DataPacket(cfg, n'.server.block));
      assert n'.data == n.data + [p];
      OrderAfterSend(n, n', p);
    } else {
      assert n'.data == n.data;
      OrderAfterAck(n, n');
    }
  }

  lemma LossKeepsOrder(s: seq<InFlight>, lo: int, hi: int, i: nat)
    requires Sorted(s) && Between(lo, s, hi) && i < |s|
    ensures Sorted(Without(s, i)) && Between(lo, Without(s, i), hi)
  {
  }

  lemma CopyKeepsOrder(s: seq<InFlight>, lo: int, hi: int, i: nat)
    requires Sorted(s) && Between(lo, s, hi) && i < |s|
    ensures Sorted(With(s, i + 1, s[i])) && Between(lo, With(s, i + 1, s[i]), hi)
  {
    var t := With(s, i + 1, s[i]);
    assert forall j :: 0 <= j < |t| ==> t[j] == s[if j <= i then j else j - 1];
  }

  lemma RepeatInOrder(n: Net)
    requires Ordered(n) && n.client.heard
    ensures Ordered(ClientRepeats(n))
  {
    var top: int := n.server.Top();
    if n.acks == [] {
      assert n.acks + [InFlight(n.client.last, AckPacket(n.client.last))]
          == [InFlight(n.client.last, AckPacket(n.client.last))];
    } else {
      AppendKeepsOrder(n.acks, top - 1, n.client.last, InFlight(n.client.last, AckPacket(n.client.last)));
    }
  }

  lemma LossInOrder(cfg: Config, n: Net, e: Event)
    requires n.server.Valid() && Ordered(n) && Enabled(n, e) && (e.LoseData? || e.LoseAck?)
    ensures Ordered(Next(cfg, n, e))
  {
    var top: int := n.server.Top();
    if e.LoseData? {
      LossKeepsOrder(n.data, n.client.last, top, e.i);
    } else {
      LossKeepsOrder(n.acks, top - 1, n.client.last, e.i);
    }
  }

  lemma CopiedDataInOrder(cfg: Config, n: Net, i: nat, at: nat)
    requires n.server.Valid() && Ordered(n) && i < |n.data| && at == i + 1
    ensures Ordered(Next(cfg, n, CopyData(i, at)))
  {
    CopyKeepsOrder(n.data, n.client.last, n.server.Top(), i);
  }

  lemma CopiedAckInOrder(cfg: Config, n: Net, i: nat, at: nat)
    requires n.server.Valid() && Ordered(n) && i < |n.acks| && at == i + 1
    ensures Ordered(Next(cfg, n, CopyAck(i, at)))
  {
    var top: int := n.server.Top();
    CopyKeepsOrder(n.acks, top - 1, n.client.last, i);
  }

  lemma ExpireInOrder(cfg: Config, n: Net)
    requires n.server.Valid() && Ordered(n) && !n.server.Stopped?
    ensures Ordered(Next(cfg, n, Expire))
  {
    var n' := Next(cfg, n, Expire);
    assert n'.server.Top() == n.server.Top();
    assert forall i :: |n.data| <= i < |n'.data| ==> n'.data[i].tag == n.server.Top();
  }

  lemma StepKeepsFinished(cfg: Config, oack: Option<Packet>, n: Net, e: Event)
    requires cfg.Valid() && ValidOack(oack) && FifoInv(cfg, oack, n) && Enabled(n, e) && InOrder(e)
    ensures Finished(Next(cfg, n, e))
  {
    if e.ToClient? {
      ClientAlwaysReplies(cfg, oack, n);
    } else if e.ToServer? {
      ServerHearsInOrder(cfg, oack, n);
    }
  }

  lemma DeliveryInOrder(cfg: Config, oack: Option<Packet>, n: Net, e: Event)
    requires cfg.Valid() && ValidOack(oack) && FifoInv(cfg, oack, n) && Enabled(n, e)
    requires e in {ToClient(0), ToServer(0)}
    ensures Ordered(Next(cfg, n, e))
  {
    if e == ToClient(0) {
      DeliveryToClientInOrder(cfg, oack, n);
    } else {
      DeliveryToServerInOrder(cfg, oack, n);
    }
  }

  lemma TimeoutInOrder(cfg: Config, n: Net, e: Event)
    requires n.server.Valid() && Ordered(n) && Enabled(n, e) && (e.Expire? || e.ClientExpire?)
    ensures Ordered(Next(cfg, n, e))
  {
    if e.Expire? {
      ExpireInOrder(cfg, n);
    } else {
      RepeatInOrder(n);
    }
  }

  lemma CopyInOrder(cfg: Config, n: Net, e: Event)
    requires n.server.Valid() && Ordered(n) && Enabled(n, e) && InOrder(e) && (e.CopyData? || e.CopyAck?)
    ensures Ordered(Next(cfg, n, e))
  {
    if e.CopyData? {
      assert e == CopyData(e.i, e.at);
      CopiedDataInOrder(cfg, n, e.i, e.at);
    } else {
      assert e == CopyAck(e.i, e.at);
      CopiedAckInOrder(cfg, n, e.i, e.at);
    }
  }

  lemma StepKeepsOrdered(cfg: Config, oack: Option<Packet>, n: Net, e: Event)
    requires cfg.Valid() && ValidOack(oack) && FifoInv(cfg, oack, n) && Enabled(n, e) && InOrder(e)
    ensures Ordered(Next(cfg, n, e))
  {
    if e.ToClient? || e.ToServer? {
      DeliveryInOrder(cfg, oack, n, e);
    } else if e.Expire? || e.ClientExpire? {
      TimeoutInOrder(cfg, n, e);
    } else if e.CopyData? || e.CopyAck? {
      CopyInOrder(cfg, n, e);
    } else {
      LossInOrder(cfg, n, e);
    }
  }

  lemma StepKeepsOrder(cfg: Config, oack: Option<Packet>, n: Net, e: Event)
    requires cfg.Valid() && ValidOack(oack) && FifoInv(cfg, oack, n) && Enabled(n, e) && InOrder(e)
    ensures FifoInv(cfg, oack, Next(cfg, n, e))
  {
    OrderedIsFresh(cfg, n);
    StepKeepsInv(cfg, oack, n, e);
    StepKeepsFinished(cfg, oack, n, e);
    StepKeepsOrdered(cfg, oack, n, e);
  }

  lemma {:induction false} FifoRun(cfg: Config, oack: Option<Packet>, events: seq<Event>)
    requires cfg.Valid() && ValidOack(oack) && AllInOrder(events)
    ensures FifoInv(cfg, oack, Exec(cfg, oack, events))
  {
    if events == [] {
      InitInv(cfg, oack);
    } else {
      var before, e := events[..|events| - 1], events[|events| - 1];
      FifoRun(cfg, oack, before);
      var n := Exec(cfg, oack, before);
      if Enabled(n, e) {
        StepKeepsOrder(cfg, oack, n, e);
      }
    }
  }

  /** Over channels that keep the order, for files of any length and any pattern
      of loss, copying and delay: safe in every reachable state. */
  lemma FifoSafety(cfg: Config, oack: Option<Packet>, events: seq<Event>)
    requires cfg.Valid() && ValidOack(oack) && AllInOrder(events)
    ensures Safe(cfg, Exec(cfg, oack, events)) && Finished(Exec(cfg, oack, events))
    ensures Fresh(cfg, Exec(cfg, oack, events))
  {
    FifoRun(cfg, oack, events);
    InvIsSafe(cfg, oack, Exec(cfg, oack, events));
    OrderedIsFresh(cfg, Exec(cfg, oack, events));
  }
}
