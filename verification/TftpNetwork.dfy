/** The server's step function, a client as RFC 1350 describes one, and the two
    channels between them, as one state machine. */
module TftpNetwork {
  import opened Common
  import opened TftpWire
  import opened TftpServer
  import opened TftpTranscript

  /** The receiver accepts the block after its last one, answers a repeat of the
      last one again, and drops the rest. `heard`: it has answered something, and
      so may time out and send its last answer again (RFC 1350 section 2). */
  datatype Client = Client(last: nat, got: seq<byte>, done: bool, heard: bool)

  const NewClient := Client(0, [], false, false)

  function ClientStep(blksize: nat, c: Client, wire: Packet): (Client, Option<Packet>) {
    if |wire| < 4 then (c, None)
    else if U16At(wire, 0) == OACK then
      if c.last == 0 then (c.(heard := true), Some(AckPacket(0))) else (c, None)
    else if U16At(wire, 0) != DATA then (c, None)
    else if !c.done && U16At(wire, 2) == (c.last + 1) % BLOCK_SPACE then
      (Client(c.last + 1, c.got + wire[4..], |wire| - 4 < blksize, true), Some(AckPacket(c.last + 1)))
    else if U16At(wire, 2) == c.last % BLOCK_SPACE then (c.(heard := true), Some(AckPacket(c.last)))
    else (c, None)
  }

  /** A datagram in flight. Both ends read only `wire`; `tag` is the unwrapped
      block number it was made for (0 for the OACK and its answer). */
  datatype InFlight = InFlight(tag: nat, wire: Packet)

  /** The two ends, the two channels, and counters: server timeouts, losses, copies
      made by the network, timeouts of the client, and those of them since the
      client has the block the server is on. */
  datatype Net = Net(server: Server, client: Client, data: seq<InFlight>, acks: seq<InFlight>,
                     timeouts: nat, lost: nat, copied: nat, resent: nat, again: nat)

  datatype Event =
    | ToClient(i: nat)
    | ToServer(i: nat)
    | Expire
    | ClientExpire
    | LoseData(i: nat)
    | LoseAck(i: nat)
    | CopyData(i: nat, at: nat)
    | CopyAck(i: nat, at: nat)

  predicate Enabled(n: Net, e: Event) {
    match e
    case ToClient(i) => i < |n.data|
    case ToServer(i) => i < |n.acks| && !n.server.Stopped?
    case Expire => !n.server.Stopped?
    case ClientExpire => n.client.heard
    case LoseData(i) => i < |n.data|
    case LoseAck(i) => i < |n.acks|
    case CopyData(i, at) => i < |n.data| && at <= |n.data|
    case CopyAck(i, at) => i < |n.acks| && at <= |n.acks|
  }

  function Without(s: seq<InFlight>, i: nat): seq<InFlight>
    requires i < |s|
  {
    s[..i] + s[i + 1..]
  }

  function With(s: seq<InFlight>, at: nat, p: InFlight): seq<InFlight>
    requires at <= |s|
  {
    s[..at] + [p] + s[at..]
  }

  function Tag(block: nat, out: seq<Packet>): (r: seq<InFlight>)
    ensures |r| == |out|
  {
    seq(|out|, i requires 0 <= i < |out| => InFlight(block, out[i]))
  }

  function ServerHears(cfg: Config, n: Net, r: Received): (n': Net)
    requires n.server.Valid() && !n.server.Stopped?
    ensures n'.server.Valid()
  {
    var (s, out) := OnReceive(cfg, n.server, r);
    n.(server := s, data := n.data + Tag(s.Top(), out), again := if s.Top() == n.server.Top() then n.again else 0)
  }

  function ClientHears(cfg: Config, n: Net, wire: Packet): Net {
    var (c, reply) := ClientStep(cfg.blksize, n.client, wire);
    n.(client := c, acks := n.acks + if reply.Some? then [InFlight(c.last, reply.value)] else [])
  }

  function ClientRepeats(n: Net): Net {
    n.(acks := n.acks + [InFlight(n.client.last, AckPacket(n.client.last))],
       resent := n.resent + 1, again := if n.client.last == n.server.Top() then n.again + 1 else n.again)
  }

  function Next(cfg: Config, n: Net, e: Event): (n': Net)
    requires n.server.Valid() && Enabled(n, e)
    ensures n'.server.Valid()
  {
    match e
    case ToClient(i) => ClientHears(cfg, n.(data := Without(n.data, i)), n.data[i].wire)
    case ToServer(i) => ServerHears(cfg, n.(acks := Without(n.acks, i)), Datagram(n.acks[i].wire))
    case Expire => ServerHears(cfg, n.(timeouts := n.timeouts + 1), Timeout)
    case ClientExpire => ClientRepeats(n)
    case LoseData(i) => n.(data := Without(n.data, i), lost := n.lost + 1)
    case LoseAck(i) => n.(acks := Without(n.acks, i), lost := n.lost + 1)
    case CopyData(i, at) => n.(data := With(n.data, at, n.data[i]), copied := n.copied + 1)
    case CopyAck(i, at) => n.(acks := With(n.acks, at, n.acks[i]), copied := n.copied + 1)
  }

  function Init(cfg: Config, oack: Option<Packet>): (n: Net)
    ensures n.server.Valid()
  {
    var (s, out) := Start(cfg, oack);
    Net(s, NewClient, Tag(s.Top(), out), [], 0, 0, 0, 0, 0)
  }

  /** The state after any sequence of events; one that is not possible when its
      turn comes is skipped. */
  function Exec(cfg: Config, oack: Option<Packet>, events: seq<Event>): (n: Net)
    ensures n.server.Valid()
  {
    if events == [] then Init(cfg, oack)
    else
      var n := Exec(cfg, oack, events[..|events| - 1]);
      var e := events[|events| - 1];
      if Enabled(n, e) then Next(cfg, n, e) else n
  }

  /** Every event of the sequence takes place. */
  ghost predicate Happens(cfg: Config, oack: Option<Packet>, events: seq<Event>) {
    events == [] ||
    (Happens(cfg, oack, events[..|events| - 1]) &&
     Enabled(Exec(cfg, oack, events[..|events| - 1]), events[|events| - 1]))
  }

  lemma ExecOneMore(cfg: Config, oack: Option<Packet>, events: seq<Event>, e: Event)
    requires Happens(cfg, oack, events) && Enabled(Exec(cfg, oack, events), e)
    ensures Happens(cfg, oack, events + [e])
    ensures Exec(cfg, oack, events + [e]) == Next(cfg, Exec(cfg, oack, events), e)
  {
    assert (events + [e])[..|events + [e]| - 1] == events;
  }

  predicate ValidOack(oack: Option<Packet>) {
    oack.Some? ==> 4 <= |oack.value| && U16At(oack.value, 0) == OACK
  }

  // ---- what holds in every state ----

  /** A datagram towards the client says what its tag says. */
  predicate DataMeans(cfg: Config, oack: Option<Packet>, p: InFlight) {
    if p.tag == 0 then oack == Some(p.wire) else p.wire == DataPacket(cfg, p.tag)
  }

  ghost predicate DataOk(cfg: Config, oack: Option<Packet>, top: nat, data: seq<InFlight>) {
    forall p :: p in data ==> DataMeans(cfg, oack, p) && p.tag <= top
  }

  ghost predicate AcksOk(last: nat, acks: seq<InFlight>) {
    forall p :: p in acks ==> p.wire == AckPacket(p.tag) && p.tag <= last
  }

  /** The two ends are at most one block apart, the client holds exactly the
      blocks it has counted, and Done comes only when it holds the whole file. */
  predicate EndsOk(cfg: Config, s: Server, c: Client)
    requires cfg.Valid()
  {
    && s.Top() <= c.last + 1 && c.last <= s.Top() <= Blocks(cfg)
    && c.got == cfg.file[..Pos(cfg, c.last)]
    && (c.done <==> c.last == Blocks(cfg))
    && (s.AwaitOack? ==> c.last == 0)
    && (s.Stopped? ==> s.outcome in {Done(|cfg.file|), GaveUp, OackTimeout})
    && (s.Stopped? && s.outcome.Done? ==> s.block == Blocks(cfg) && c.got == cfg.file)
  }

  /** Without an OACK nothing is ever answered with block number 0. */
  ghost predicate NoAckZero(n: Net) {
    (n.client.heard ==> 1 <= n.client.last) && forall p :: p in n.acks ==> 1 <= p.tag
  }

  ghost predicate Inv(cfg: Config, oack: Option<Packet>, n: Net)
    requires cfg.Valid()
  {
    && n.server.Valid()
    && EndsOk(cfg, n.server, n.client)
    && DataOk(cfg, oack, n.server.Top(), n.data)
    && AcksOk(n.client.last, n.acks)
    && (oack.None? ==> NoAckZero(n))
  }

  /** The client waits for a last block that would add nothing to what it holds. */
  predicate NothingMissing(cfg: Config, n: Net)
    requires cfg.Valid()
  {
    n.server.Top() == Blocks(cfg) && n.client.got == cfg.file
  }

  /** No datagram is old enough for its wrapped number to be taken for the one that
      an end waits for, where that would matter. */
  ghost predicate Fresh(cfg: Config, n: Net)
    requires cfg.Valid()
  {
    && (!n.client.done ==> forall p :: p in n.data ==> p.tag == 0 || n.client.last + 1 < p.tag + BLOCK_SPACE)
    && (n.server.Sending? && !NothingMissing(cfg, n) ==>
          forall p :: p in n.acks ==> n.server.block < p.tag + BLOCK_SPACE)
  }

  /** With a fresh ACK the comparison of wrapped numbers is the comparison of
      block numbers. */
  lemma AckDecides(cfg: Config, s: Server, tag: nat)
    requires cfg.Valid() && s.Sending? && s.Valid() && tag <= s.block < tag + BLOCK_SPACE && s.block <= Blocks(cfg)
    ensures var r := OnReceive(cfg, s, Datagram(AckPacket(tag)));
            if tag != s.block then r == Retry(cfg, s)
            else if s.block == Blocks(cfg) then r == (Stopped(s.block, Done(|cfg.file|)), [])
            else r == (Sending(s.block + 1, 1), [DataPacket(cfg, s.block + 1)])
  {
    WrapIsInjective(tag, s.block);
    ShortIffLast(cfg, s.block);
  }

  /** Likewise at the client: it takes the next block, answers its last one
      again, and gains nothing from an older one. */
  lemma DataDecides(cfg: Config, oack: Option<Packet>, top: nat, c: Client, p: InFlight)
    requires cfg.Valid() && ValidOack(oack) && DataMeans(cfg, oack, p)
    requires p.tag <= top <= c.last + 1 && (c.done || p.tag == 0 || c.last + 1 < p.tag + BLOCK_SPACE)
    requires top <= Blocks(cfg) && (c.done <==> c.last == Blocks(cfg))
    ensures var r := ClientStep(cfg.blksize, c, p.wire);
            if p.tag == c.last + 1 then
              r == (Client(p.tag, c.got + Chunk(cfg, p.tag), p.tag == Blocks(cfg), true), Some(AckPacket(p.tag)))
            else
              && r.0 == c.(heard := c.heard || r.1.Some?)
              && (r.1.Some? ==> r.1 == Some(AckPacket(c.last)) && (p.tag == c.last || c.done))
              && (p.tag == c.last ==> r.1.Some?)
  {
    if p.tag != 0 {
      ShortIffLast(cfg, p.tag);
      if !c.done {
        WrapIsInjective(p.tag, c.last + 1);
        if p.tag <= c.last {
          WrapIsInjective(p.tag, c.last);
        }
      }
    }
  }

  /** An ACK that the server reads in this state. */
  ghost predicate Readable(cfg: Config, n: Net, r: Received, tag: nat)
    requires cfg.Valid()
  {
    && r == Datagram(AckPacket(tag)) && tag <= n.client.last
    && (n.server.Sending? ==> n.server.block < tag + BLOCK_SPACE || NothingMissing(cfg, n))
  }

  lemma AckKeepsEnds(cfg: Config, n: Net, tag: nat)
    requires cfg.Valid() && n.server.Sending? && n.server.Valid() && EndsOk(cfg, n.server, n.client)
    requires Readable(cfg, n, Datagram(AckPacket(tag)), tag)
    ensures EndsOk(cfg, OnReceive(cfg, n.server, Datagram(AckPacket(tag))).0, n.client)
  {
    ShortIffLast(cfg, n.server.block);
    if n.server.block < tag + BLOCK_SPACE {
      AckDecides(cfg, n.server, tag);
    }
  }

  lemma ServerStepKeepsInv(cfg: Config, oack: Option<Packet>, n: Net, r: Received)
    requires cfg.Valid() && Inv(cfg, oack, n) && !n.server.Stopped?
    requires r.Timeout? || exists tag: nat :: Readable(cfg, n, r, tag)
    ensures Inv(cfg, oack, ServerHears(cfg, n, r))
  {
    var (s, out) := OnReceive(cfg, n.server, r);
    if r.Datagram? && n.server.Sending? {
      var tag: nat :| Readable(cfg, n, r, tag);
      AckKeepsEnds(cfg, n, tag);
    }
    assert EndsOk(cfg, s, n.client);
    SentMeansItsTag(cfg, oack, n.server, r, n.data);
  }

  lemma SentMeansItsTag(cfg: Config, oack: Option<Packet>, s: Server, r: Received, data: seq<InFlight>)
    requires s.Valid() && !s.Stopped? && DataOk(cfg, oack, s.Top(), data)
    ensures var (s', out) := OnReceive(cfg, s, r); DataOk(cfg, oack, s'.Top(), data + Tag(s'.Top(), out))
  {
    var (s', out) := OnReceive(cfg, s, r);
    assert s.Top() <= s'.Top();
  }

  lemma ClientStepKeepsInv(cfg: Config, oack: Option<Packet>, n: Net, p: InFlight)
    requires cfg.Valid() && ValidOack(oack) && Inv(cfg, oack, n) && DataMeans(cfg, oack, p) && p.tag <= n.server.Top()
    requires n.client.done || p.tag == 0 || n.client.last + 1 < p.tag + BLOCK_SPACE
    ensures Inv(cfg, oack, ClientHears(cfg, n, p.wire))
  {
    DataDecides(cfg, oack, n.server.Top(), n.client, p);
    if p.tag == n.client.last + 1 {
      ShortIffLast(cfg, p.tag);
      assert cfg.file[..Pos(cfg, p.tag - 1)] + Chunk(cfg, p.tag) == cfg.file[..Pos(cfg, p.tag)];
      MoreOfTheFile(cfg, p.tag);
    }
  }

  /** A client that has all of the file still has all of it one block later. */
  lemma MoreOfTheFile(cfg: Config, k: nat)
    requires cfg.Valid() && 1 <= k
    ensures cfg.file[..Pos(cfg, k - 1)] == cfg.file ==> cfg.file[..Pos(cfg, k)] == cfg.file
  {
    assert |cfg.file[..Pos(cfg, k - 1)]| == Pos(cfg, k - 1) <= Pos(cfg, k);
  }

  lemma NetworkKeepsInv(cfg: Config, oack: Option<Packet>, n: Net, e: Event)
    requires cfg.Valid() && Inv(cfg, oack, n) && Enabled(n, e)
    requires e.LoseData? || e.LoseAck? || e.CopyData? || e.CopyAck? || e.ClientExpire?
    ensures Inv(cfg, oack, Next(cfg, n, e))
  {
    match e
    case CopyData(i, at) => assert n.data[i] in n.data;
    case CopyAck(i, at) => assert n.acks[i] in n.acks;
    case _ =>
  }

  /** One event of any kind, in any order, over a fresh network. */
  lemma StepKeepsInv(cfg: Config, oack: Option<Packet>, n: Net, e: Event)
    requires cfg.Valid() && ValidOack(oack) && Inv(cfg, oack, n) && Fresh(cfg, n) && Enabled(n, e)
    ensures Inv(cfg, oack, Next(cfg, n, e))
  {
    match e
    case ToClient(i) =>
      assert n.data[i] in n.data;
      ClientStepKeepsInv(cfg, oack, n.(data := Without(n.data, i)), n.data[i]);
    case ToServer(i) =>
      assert n.acks[i] in n.acks;
      var rest := n.(acks := Without(n.acks, i));
      assert Readable(cfg, rest, Datagram(n.acks[i].wire), n.acks[i].tag);
      ServerStepKeepsInv(cfg, oack, rest, Datagram(n.acks[i].wire));
    case Expire => ServerStepKeepsInv(cfg, oack, n.(timeouts := n.timeouts + 1), Timeout);
    case _ => NetworkKeepsInv(cfg, oack, n, e);
  }

  lemma InitInv(cfg: Config, oack: Option<Packet>)
    requires cfg.Valid() && ValidOack(oack)
    ensures Inv(cfg, oack, Init(cfg, oack)) && Fresh(cfg, Init(cfg, oack))
  {
  }
}
