/** What it takes to make the server give up, on a network that does anything. */
module TftpGiveUp {
  import opened Common
  import opened TftpWire
  import opened TftpServer
  import opened TftpNetwork
  import opened TftpTranscript
  import opened TftpStale

  function IsWrong(p: InFlight, block: nat): nat {
    if p.tag % BLOCK_SPACE == block % BLOCK_SPACE then 0 else 1
  }

  /** How many datagrams do not carry this block's number. */
  function Wrong(s: seq<InFlight>, block: nat): (c: nat)
    ensures c <= |s|
  {
    if s == [] then 0 else Wrong(s[..|s| - 1], block) + IsWrong(s[|s| - 1], block)
  }

  lemma {:induction false} WrongConcat(a: seq<InFlight>, b: seq<InFlight>, block: nat)
    ensures Wrong(a + b, block) == Wrong(a, block) + Wrong(b, block)
  {
    if b == [] {
      assert a + b == a;
    } else {
      assert (a + b)[..|a + b| - 1] == a + b[..|b| - 1];
      WrongConcat(a, b[..|b| - 1], block);
    }
  }

  lemma WrongAppend(s: seq<InFlight>, p: InFlight, block: nat)
    ensures Wrong(s + [p], block) == Wrong(s, block) + IsWrong(p, block)
  {
    assert (s + [p])[..|s|] == s;
  }

  lemma WrongMiddle(a: seq<InFlight>, p: InFlight, b: seq<InFlight>, block: nat)
    ensures Wrong(a + [p] + b, block) == Wrong(a + b, block) + IsWrong(p, block)
  {
    WrongAppend(a, p, block);
    WrongConcat(a + [p], b, block);
    WrongConcat(a, b, block);
  }

  lemma WrongWithout(s: seq<InFlight>, i: nat, block: nat)
    requires i < |s|
    ensures Wrong(s, block) == Wrong(Without(s, i), block) + IsWrong(s[i], block)
  {
    WrongMiddle(s[..i], s[i], s[i + 1..], block);
    assert s[..i] + [s[i]] + s[i + 1..] == s;
  }

  lemma WrongWith(s: seq<InFlight>, at: nat, p: InFlight, block: nat)
    requires at <= |s|
    ensures Wrong(With(s, at, p), block) == Wrong(s, block) + IsWrong(p, block)
  {
    var a, b := s[..at], s[at..];
    WrongMiddle(a, p, b, block);
    assert With(s, at, p) == a + [p] + b;
    assert s == a + b;
  }

  /** The timeouts at either end and the copies. Losses cost nothing. */
  function Cost(n: Net): nat {
    n.timeouts + n.copied + n.resent
  }

  /** Every datagram says what its tag says, wherever the ends have got to. */
  ghost predicate Genuine(cfg: Config, oack: Option<Packet>, n: Net) {
    (forall p :: p in n.data ==> DataMeans(cfg, oack, p)) && forall p :: p in n.acks ==> p.wire == AckPacket(p.tag)
  }

  /** Each send after the first, and each datagram with another number, is paid for. */
  predicate Paid(n: Net) {
    && (!n.server.Stopped? ==> |n.data| + |n.acks| + n.lost <= 1 + Cost(n))
    && (n.server.Sending? ==>
          n.server.tries - 1 + Wrong(n.data, n.server.block) + Wrong(n.acks, n.server.block) <= Cost(n))
    && (n.server.Stopped? && n.server.outcome.GaveUp? ==> 5 <= Cost(n))
  }

  /** A client answers a datagram, if at all, with the number that it carries. */
  lemma AnswersItsNumber(cfg: Config, oack: Option<Packet>, c: Client, p: InFlight)
    requires ValidOack(oack) && DataMeans(cfg, oack, p)
    ensures var (c', reply) := ClientStep(cfg.blksize, c, p.wire);
            reply.Some? ==> reply.value == AckPacket(c'.last) && c'.last % BLOCK_SPACE == p.tag % BLOCK_SPACE
  {
  }

  /** The client has taken a datagram, and perhaps answered with the same number. */
  lemma AnswerPays(n: Net, i: nat, n': Net, answer: seq<InFlight>)
    requires Paid(n) && i < |n.data|
    requires n' == n.(client := n'.client, data := Without(n.data, i), acks := n.acks + answer)
    requires answer == [] || (|answer| == 1 && answer[0].tag % BLOCK_SPACE == n.data[i].tag % BLOCK_SPACE)
    ensures Paid(n')
  {
    WrongWithout(n.data, i, n.server.Top());
    if answer == [] {
      assert n.acks + answer == n.acks;
    } else {
      WrongAppend(n.acks, answer[0], n.server.Top());
      assert answer == [answer[0]];
    }
  }

  lemma ToClientPays(cfg: Config, oack: Option<Packet>, n: Net, i: nat)
    requires ValidOack(oack) && Genuine(cfg, oack, n) && Paid(n) && n.server.Valid() && i < |n.data|
    ensures Genuine(cfg, oack, Next(cfg, n, ToClient(i))) && Paid(Next(cfg, n, ToClient(i)))
  {
    var (c, reply) := ClientStep(cfg.blksize, n.client, n.data[i].wire);
    assert n.data[i] in n.data;
    AnswersItsNumber(cfg, oack, n.client, n.data[i]);
    var answer := if reply.Some? then [InFlight(c.last, reply.value)] else [];
    AnswerPays(n, i, Next(cfg, n, ToClient(i)), answer);
  }

  /** The server has sent its block: a new one, or the same one again. */
  lemma SendPays(n: Net, n': Net, p: InFlight)
    requires n'.server.Sending? && p.tag == n'.server.block && n'.data == n.data + [p] && n'.acks == n.acks
    requires |n.data| + |n.acks| + n.lost <= Cost(n) == Cost(n') && n'.lost == n.lost
    requires 1 < n'.server.tries ==>
               n'.server.tries - 1 + Wrong(n.data, p.tag) + Wrong(n.acks, p.tag) <= Cost(n)
    ensures Paid(n')
  {
    WrongAppend(n.data, p, p.tag);
  }

  /** What the server sends or does after an answer or a timeout. */
  lemma ServerPays(cfg: Config, n: Net, r: Received)
    requires n.server.Valid() && !n.server.Stopped?
    requires |n.data| + |n.acks| + n.lost <= Cost(n)
    requires n.server.Sending? && OnReceive(cfg, n.server, r) == Retry(cfg, n.server) ==>
               n.server.tries + Wrong(n.data, n.server.block) + Wrong(n.acks, n.server.block) <= Cost(n)
    ensures Paid(ServerHears(cfg, n, r))
  {
    var (s, out) := OnReceive(cfg, n.server, r);
    if s.Sending? {
      var p := InFlight(s.block, DataPacket(cfg, s.block));
      assert Tag(s.block, out) == [p];
      SendPays(n, ServerHears(cfg, n, r), p);
    }
  }

  lemma ServerIsGenuine(cfg: Config, oack: Option<Packet>, n: Net, r: Received)
    requires Genuine(cfg, oack, n) && n.server.Valid() && !n.server.Stopped?
    ensures Genuine(cfg, oack, ServerHears(cfg, n, r))
  {
  }

  /** Only an ACK with another number makes the server send again. */
  lemma RetryMeansWrong(cfg: Config, s: Server, p: InFlight)
    requires s.Sending? && s.Valid() && p.wire == AckPacket(p.tag)
    requires OnReceive(cfg, s, Datagram(p.wire)) == Retry(cfg, s)
    ensures IsWrong(p, s.block) == 1
  {
  }

  lemma ToServerPays(cfg: Config, oack: Option<Packet>, n: Net, i: nat)
    requires Genuine(cfg, oack, n) && Paid(n) && n.server.Valid() && Enabled(n, ToServer(i))
    ensures Genuine(cfg, oack, Next(cfg, n, ToServer(i))) && Paid(Next(cfg, n, ToServer(i)))
  {
    var p, rest := n.acks[i], n.(acks := Without(n.acks, i));
    assert p in n.acks;
    if n.server.Sending? {
      WrongWithout(n.acks, i, n.server.block);
      if OnReceive(cfg, n.server, Datagram(p.wire)) == Retry(cfg, n.server) {
        RetryMeansWrong(cfg, n.server, p);
      }
    }
    ServerPays(cfg, rest, Datagram(p.wire));
    ServerIsGenuine(cfg, oack, rest, Datagram(p.wire));
  }

  lemma ExpirePays(cfg: Config, oack: Option<Packet>, n: Net)
    requires Genuine(cfg, oack, n) && Paid(n) && n.server.Valid() && !n.server.Stopped?
    ensures Genuine(cfg, oack, Next(cfg, n, Expire)) && Paid(Next(cfg, n, Expire))
  {
    ServerPays(cfg, n.(timeouts := n.timeouts + 1), Timeout);
    ServerIsGenuine(cfg, oack, n.(timeouts := n.timeouts + 1), Timeout);
  }

  lemma RepeatPays(cfg: Config, oack: Option<Packet>, n: Net)
    requires Genuine(cfg, oack, n) && Paid(n)
    ensures Genuine(cfg, oack, ClientRepeats(n)) && Paid(ClientRepeats(n))
  {
    WrongAppend(n.acks, InFlight(n.client.last, AckPacket(n.client.last)), n.server.Top());
  }

  lemma NetworkIsGenuine(cfg: Config, oack: Option<Packet>, n: Net, e: Event)
    requires Genuine(cfg, oack, n) && n.server.Valid() && Enabled(n, e)
    requires e.LoseData? || e.LoseAck? || e.CopyData? || e.CopyAck?
    ensures Genuine(cfg, oack, Next(cfg, n, e))
  {
    match e
    case CopyData(i, at) => assert n.data[i] in n.data;
    case CopyAck(i, at) => assert n.acks[i] in n.acks;
    case _ =>
  }

  lemma LosePays(n: Net, i: nat)
    requires Paid(n)
    ensures i < |n.data| ==> Paid(n.(data := Without(n.data, i), lost := n.lost + 1))
    ensures i < |n.acks| ==> Paid(n.(acks := Without(n.acks, i), lost := n.lost + 1))
  {
    if i < |n.data| {
      WrongWithout(n.data, i, n.server.Top());
    }
    if i < |n.acks| {
      WrongWithout(n.acks, i, n.server.Top());
    }
  }

  lemma CopyPays(n: Net, i: nat, at: nat)
    requires Paid(n)
    ensures i < |n.data| && at <= |n.data| ==> Paid(n.(data := With(n.data, at, n.data[i]), copied := n.copied + 1))
    ensures i < |n.acks| && at <= |n.acks| ==> Paid(n.(acks := With(n.acks, at, n.acks[i]), copied := n.copied + 1))
  {
    if i < |n.data| && at <= |n.data| {
      WrongWith(n.data, at, n.data[i], n.server.Top());
    }
    if i < |n.acks| && at <= |n.acks| {
      WrongWith(n.acks, at, n.acks[i], n.server.Top());
    }
  }

  lemma NetworkPays(cfg: Config, oack: Option<Packet>, n: Net, e: Event)
    requires Genuine(cfg, oack, n) && Paid(n) && n.server.Valid() && Enabled(n, e)
    requires e.LoseData? || e.LoseAck? || e.CopyData? || e.CopyAck?
    ensures Genuine(cfg, oack, Next(cfg, n, e)) && Paid(Next(cfg, n, e))
  {
    NetworkIsGenuine(cfg, oack, n, e);
    match e
    case LoseData(i) => LosePays(n, i);
    case LoseAck(i) => LosePays(n, i);
    case CopyData(i, at) => CopyPays(n, i, at);
    case CopyAck(i, at) => CopyPays(n, i, at);
  }

  lemma StepPays(cfg: Config, oack: Option<Packet>, n: Net, e: Event)
    requires ValidOack(oack) && Genuine(cfg, oack, n) && Paid(n) && n.server.Valid() && Enabled(n, e)
    ensures Genuine(cfg, oack, Next(cfg, n, e)) && Paid(Next(cfg, n, e))
  {
    match e
    case ToClient(i) => ToClientPays(cfg, oack, n, i);
    case ToServer(i) => ToServerPays(cfg, oack, n, i);
    case Expire => ExpirePays(cfg, oack, n);
    case ClientExpire => RepeatPays(cfg, oack, n);
    case _ => NetworkPays(cfg, oack, n, e);
  }

  lemma {:induction false} RunPays(cfg: Config, oack: Option<Packet>, events: seq<Event>)
    requires ValidOack(oack)
    ensures var n := Exec(cfg, oack, events); Genuine(cfg, oack, n) && Paid(n)
  {
    if events == [] {
      InitPays(cfg, oack);
    } else {
      var before, e := events[..|events| - 1], events[|events| - 1];
      RunPays(cfg, oack, before);
      if Enabled(Exec(cfg, oack, before), e) {
        StepPays(cfg, oack, Exec(cfg, oack, before), e);
      }
    }
  }

  lemma InitPays(cfg: Config, oack: Option<Packet>)
    requires ValidOack(oack)
    ensures Genuine(cfg, oack, Init(cfg, oack)) && Paid(Init(cfg, oack))
  {
    var data := Init(cfg, oack).data;
    assert |data| == 1 && data[..0] == [];
    assert Wrong(data, 1) == Wrong(data[..0], 1) + IsWrong(data[0], 1);
  }

  predicate GivesUp(n: Net) {
    n.server.Stopped? && n.server.outcome.GaveUp?
  }

  /** For files of any length and a network that loses, copies, delays and reorders:
      giving up takes five timeouts or copies. Losses alone never lead to it, nor
      does any delay that neither end notices. */
  lemma GivingUpCosts(cfg: Config, oack: Option<Packet>, events: seq<Event>)
    requires ValidOack(oack) && GivesUp(Exec(cfg, oack, events))
    ensures 5 <= Cost(Exec(cfg, oack, events))
  {
    RunPays(cfg, oack, events);
  }

  /** Block 1 has gone out and some of the attempts for it are over. */
  function Waited(cfg: Config, oack: Option<Packet>, k: nat): Net
    requires cfg.Valid() && 1 <= k <= 5
  {
    At(cfg, oack, 1, [], [], 0).(server := Sending(1, k), data := Repeated(Data(cfg, 1), k), timeouts := k - 1)
  }

  function Repeated(p: InFlight, k: nat): (r: seq<InFlight>)
    ensures |r| == k
  {
    seq(k, i => p)
  }

  lemma WaitOnce(cfg: Config, oack: Option<Packet>, k: nat)
    requires cfg.Valid() && 1 <= k < 5
    ensures Next(cfg, Waited(cfg, oack, k), Expire) == Waited(cfg, oack, k + 1)
  {
    assert Tag(1, [DataPacket(cfg, 1)]) == [Data(cfg, 1)];
    assert Repeated(Data(cfg, 1), k) + [Data(cfg, 1)] == Repeated(Data(cfg, 1), k + 1);
  }

  lemma FiveTimeouts(cfg: Config, oack: Option<Packet>) returns (events: seq<Event>)
    requires cfg.Valid() && ValidOack(oack)
    ensures var n := Exec(cfg, oack, events); GivesUp(n) && Cost(n) == 5
  {
    events := FirstBlockOut(cfg, oack);
    assert [] + [Data(cfg, 1)] == Repeated(Data(cfg, 1), 1);
    for k := 1 to 5
      invariant Reaches(cfg, oack, events, Waited(cfg, oack, k))
    {
      WaitOnce(cfg, oack, k);
      events := OneMore(cfg, oack, events, Waited(cfg, oack, k), Expire, Waited(cfg, oack, k + 1));
    }
    var n := Waited(cfg, oack, 5);
    events := OneMore(cfg, oack, events, n, Expire, Next(cfg, n, Expire));
  }

  /** Five is exact. */
  lemma GivingUpIff(cfg: Config, oack: Option<Packet>, limit: nat)
    requires cfg.Valid() && ValidOack(oack)
    ensures (exists events :: GivesUp(Exec(cfg, oack, events)) && Cost(Exec(cfg, oack, events)) <= limit)
            <==> 5 <= limit
  {
    if 5 <= limit {
      var events := FiveTimeouts(cfg, oack);
    } else {
      forall events ensures GivesUp(Exec(cfg, oack, events)) ==> limit < Cost(Exec(cfg, oack, events)) {
        RunPays(cfg, oack, events);
      }
    }
  }
}
