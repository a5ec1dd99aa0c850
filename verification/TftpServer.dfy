/** The transfer loop of the read-only TFTP server: a lock-step sender with
    16-bit block numbers and five sends per block. */
module TftpServer {
  import opened Common
  import opened TftpWire

  datatype Config = Config(file: seq<byte>, blksize: nat) {
    predicate Valid() {
      8 <= blksize <= 65464
    }
  }

  /** How far into the file the first k blocks reach. */
  function Pos(cfg: Config, k: nat): (p: nat)
    ensures p <= |cfg.file|
  {
    if k == 0 then 0
    else if Pos(cfg, k - 1) + cfg.blksize <= |cfg.file| then Pos(cfg, k - 1) + cfg.blksize
    else |cfg.file|
  }

  /** The payload of block k: one read of blksize bytes at the current offset. */
  function Chunk(cfg: Config, k: nat): seq<byte>
    requires 1 <= k
  {
    cfg.file[Pos(cfg, k - 1)..Pos(cfg, k)]
  }

  /** A short chunk ends the transfer (RFC 1350 section 6). */
  predicate Short(cfg: Config, k: nat)
    requires 1 <= k
  {
    |Chunk(cfg, k)| < cfg.blksize
  }

  function DataPacket(cfg: Config, k: nat): Packet
    requires 1 <= k
  {
    DataPacketOf(k, Chunk(cfg, k))
  }

  datatype Outcome = Done(sent: nat) | GaveUp | ClientError | OackTimeout | OackRefused | Malformed

  /** Sending(block, tries): DATA block has gone out tries times and the server
      waits for an answer. Stopped keeps the block it was working on. */
  datatype Server =
    | AwaitOack
    | Sending(block: nat, tries: nat)
    | Stopped(block: nat, outcome: Outcome)
  {
    predicate Valid() {
      Sending? ==> 1 <= block && 1 <= tries <= 5
    }

    /** The newest block the server has put on the wire; the OACK counts as 0. */
    function Top(): nat {
      if AwaitOack? then 0 else block
    }
  }

  datatype Received = Timeout | Datagram(bytes: Packet)

  function Retry(cfg: Config, s: Server): (r: (Server, seq<Packet>))
    requires s.Sending? && s.Valid()
    ensures r.0.Valid()
  {
    if s.tries < 5 then (Sending(s.block, s.tries + 1), [DataPacket(cfg, s.block)])
    else (Stopped(s.block, GaveUp), [])
  }

  /** One answer, or the lack of one, and what the server sends because of it. */
  function OnReceive(cfg: Config, s: Server, r: Received): (n: (Server, seq<Packet>))
    requires !s.Stopped? && s.Valid()
    ensures n.0.Valid()
    ensures n.1 == [] || (n.0.Sending? && n.1 == [DataPacket(cfg, n.0.block)])
  {
    match s
    case AwaitOack =>
      if r.Timeout? then (Stopped(0, OackTimeout), [])
      else if |r.bytes| < 2 then (Stopped(0, Malformed), [])
      else if U16At(r.bytes, 0) != ACK then (Stopped(0, OackRefused), [])
      else (Sending(1, 1), [DataPacket(cfg, 1)])
    case Sending(block, tries) =>
      if r.Timeout? then Retry(cfg, s)
      else if |r.bytes| < 4 then (Stopped(block, Malformed), [])
      else if U16At(r.bytes, 0) == ACK && U16At(r.bytes, 2) == block % BLOCK_SPACE then
        if Short(cfg, block) then (Stopped(block, Done(Pos(cfg, block))), [])
        else (Sending(block + 1, 1), [DataPacket(cfg, block + 1)])
      else if U16At(r.bytes, 0) == ERROR then (Stopped(block, ClientError), [])
      else Retry(cfg, s)
  }

  /** recvfrom(1024) keeps at most 1024 bytes; a script that has run out stands
      for a client that has gone silent. */
  function Head(script: seq<Received>): Received {
    if script == [] then Timeout
    else if script[0].Datagram? && |script[0].bytes| > 1024 then Datagram(script[0].bytes[..1024])
    else script[0]
  }

  /** The 1024 bytes that recvfrom keeps hold all that the server looks at. */
  lemma ClippingIsHarmless(cfg: Config, s: Server, script: seq<Received>)
    requires !s.Stopped? && s.Valid() && script != []
    ensures OnReceive(cfg, s, Head(script)) == OnReceive(cfg, s, script[0])
  {
  }

  function Tail(script: seq<Received>): seq<Received> {
    if script == [] then [] else script[1..]
  }

  function BytesLeft(cfg: Config, s: Server): nat {
    if s.Sending? && 1 <= s.block then |cfg.file| - Pos(cfg, s.block - 1) else 0
  }

  /** The rest of a transfer against any script of answers. The measure
      (phase, bytes left, sends left) is what makes every transfer end. */
  function Drive(cfg: Config, s: Server, script: seq<Received>): (r: (Server, seq<Packet>))
    requires cfg.Valid() && s.Valid()
    ensures r.0.Stopped?
    decreases if s.AwaitOack? then 2 else if s.Sending? then 1 else 0,
              BytesLeft(cfg, s),
              if s.Sending? then 5 - s.tries else 0
  {
    if s.Stopped? then (s, [])
    else
      var (s', sent) := OnReceive(cfg, s, Head(script));
      var (end, more) := Drive(cfg, s', Tail(script));
      (end, sent + more)
  }

  /** What goes out before the first answer. */
  function Start(cfg: Config, oack: Option<Packet>): (Server, seq<Packet>) {
    if oack.Some? then (AwaitOack, [oack.value]) else (Sending(1, 1), [DataPacket(cfg, 1)])
  }

  function Session(cfg: Config, oack: Option<Packet>, script: seq<Received>): (r: (Server, seq<Packet>))
    requires cfg.Valid()
    ensures r.0.Stopped?
  {
    var (s, sent) := Start(cfg, oack);
    var (end, more) := Drive(cfg, s, script);
    (end, sent + more)
  }

  /** A datagram socket: what will arrive, what has been sent, and for how many
      seconds a receive waits (None: for ever). */
  class UdpSocket {
    var inbox: seq<Received>
    var outbox: seq<Packet>
    var wait: Option<nat>

    constructor (script: seq<Received>)
      ensures inbox == script && outbox == [] && wait == None
    {
      inbox, outbox, wait := script, [], None;
    }

    method SetTimeout(seconds: nat)
      modifies this`wait
      ensures wait == Some(seconds)
    {
      wait := Some(seconds);
    }

    method SendTo(p: Packet)
      modifies this`outbox
      ensures outbox == old(outbox) + [p]
    {
      outbox := outbox + [p];
    }

    method ReceiveFrom() returns (r: Received)
      modifies this`inbox
      ensures r == Head(old(inbox)) && inbox == Tail(old(inbox))
    {
      r, inbox := Head(inbox), Tail(inbox);
    }
  }

  /** The attempt loop for one block: five sends at most, any answer but the
      matching ACK or an ERROR costs one. */
  method SendBlock(cfg: Config, block: nat, pkt: Packet, xfer: UdpSocket, ghost end: Server, ghost total: seq<Packet>)
    returns (stop: Option<Outcome>)
    requires cfg.Valid() && 1 <= block && pkt == DataPacket(cfg, block)
    requires Upcoming(cfg, block, 1, xfer.outbox, xfer.inbox, end, total)
    modifies xfer`inbox, xfer`outbox
    ensures stop.Some? ==> end.Stopped? && stop.value == end.outcome && xfer.outbox == total
    ensures stop.None? ==> Leads(cfg, Acked(cfg, block), xfer.outbox, xfer.inbox, end, total)
  {
    for attempt := 0 to 5
      invariant Leads(cfg, Attempted(block, attempt), xfer.outbox, xfer.inbox, end, total)
    {
      OneAttempt(cfg, block, attempt, xfer.outbox, xfer.inbox, end, total);
      xfer.SendTo(pkt);
      var r := xfer.ReceiveFrom();
      if r.Timeout? {
        continue;
      }
      if |r.bytes| < 4 {
        return Some(Malformed);
      }
      var op, ackblk := U16At(r.bytes, 0), U16At(r.bytes, 2);
      if op == ACK && ackblk == block % BLOCK_SPACE {
        return None;
      }
      if op == ERROR {
        return Some(ClientError);
      }
    }
    return Some(GaveUp);
  }

  /** The OACK and the wait for its answer. */
  method SendOack(cfg: Config, oack: Packet, xfer: UdpSocket, ghost end: Server, ghost total: seq<Packet>)
    returns (stop: Option<Outcome>)
    requires cfg.Valid()
    requires end == Session(cfg, Some(oack), xfer.inbox).0
    requires total == xfer.outbox + Session(cfg, Some(oack), xfer.inbox).1
    modifies xfer`inbox, xfer`outbox
    ensures stop.Some? ==> stop.value == end.outcome && xfer.outbox == total
    ensures stop.None? ==> Upcoming(cfg, 1, 1, xfer.outbox, xfer.inbox, end, total)
  {
    SessionAfterOack(cfg, oack, xfer.outbox, xfer.inbox);
    xfer.SendTo(oack);
    var r := xfer.ReceiveFrom();
    if r.Timeout? {
      return Some(OackTimeout);
    }
    if |r.bytes| < 2 {
      return Some(Malformed);
    }
    if U16At(r.bytes, 0) != ACK {
      return Some(OackRefused);
    }
    return None;
  }

  /** The server's nested loops. They end in the outcome, and send the packets,
      of the step function driven by the same answers. */
  method Transfer(cfg: Config, oack: Option<Packet>, xfer: UdpSocket) returns (outcome: Outcome)
    requires cfg.Valid()
    modifies xfer`inbox, xfer`outbox
    ensures outcome == Session(cfg, oack, old(xfer.inbox)).0.outcome
    ensures xfer.outbox == old(xfer.outbox) + Session(cfg, oack, old(xfer.inbox)).1
    ensures oack.Some? ==> (outcome == OackRefused <==> Refuses(old(xfer.inbox)))
    ensures oack.Some? ==> (outcome == OackTimeout <==> Silent(old(xfer.inbox)))
    ensures outcome in {OackRefused, OackTimeout} ==> oack.Some? && xfer.outbox == old(xfer.outbox) + [oack.value]
  {
    OutcomesOfOack(cfg, oack, xfer.inbox);
    ghost var end := Session(cfg, oack, xfer.inbox).0;
    ghost var total := xfer.outbox + Session(cfg, oack, xfer.inbox).1;
    if oack.Some? {
      var stop := SendOack(cfg, oack.value, xfer, end, total);
      if stop.Some? {
        return stop.value;
      }
    } else {
      SessionWithoutOack(cfg, xfer.outbox, xfer.inbox);
    }
    var block, sent, offset := 1, 0, 0;
    while true
      invariant 1 <= block && sent == offset == Pos(cfg, block - 1)
      invariant Upcoming(cfg, block, 1, xfer.outbox, xfer.inbox, end, total)
      decreases |cfg.file| - sent
    {
      var chunk := ReadFile(cfg, offset, block);
      offset := offset + |chunk|;
      var pkt := DataPacketOf(block, chunk);
      var stop := SendBlock(cfg, block, pkt, xfer, end, total);
      if stop.Some? {
        return stop.value;
      }
      sent := sent + |chunk|;
      block := block + 1;
      if |chunk| < cfg.blksize {
        return Done(sent);
      }
    }
  }

  /** fh.read(blksize) at the offset where the previous block ended. */
  method ReadFile(cfg: Config, offset: nat, ghost block: nat) returns (chunk: seq<byte>)
    requires cfg.Valid() && 1 <= block && offset == Pos(cfg, block - 1)
    ensures chunk == Chunk(cfg, block) && offset + |chunk| == Pos(cfg, block)
    ensures |chunk| < cfg.blksize <==> Short(cfg, block)
  {
    var end := if offset + cfg.blksize <= |cfg.file| then offset + cfg.blksize else |cfg.file|;
    chunk := cfg.file[offset..end];
  }

  /** DATA block is about to go out for the tries-th time, and doing so and
      carrying on leads to the given end and the given packets. */
  ghost predicate Upcoming(cfg: Config, block: nat, tries: nat, outbox: seq<Packet>, inbox: seq<Received>,
                           end: Server, total: seq<Packet>)
    requires cfg.Valid() && 1 <= block && 1 <= tries <= 5
  {
    var (e, more) := Drive(cfg, Sending(block, tries), inbox);
    e == end && outbox + ([DataPacket(cfg, block)] + more) == total
  }

  /** The rest of the transfer from server s on leads to the given end and packets. */
  ghost predicate Leads(cfg: Config, s: Server, outbox: seq<Packet>, inbox: seq<Received>,
                        end: Server, total: seq<Packet>)
    requires cfg.Valid() && s.Valid()
  {
    match s
    case Sending(block, tries) => Upcoming(cfg, block, tries, outbox, inbox, end, total)
    case Stopped(_, _) => s == end && outbox == total
    case AwaitOack => true
  }

  lemma UpcomingUnfolds(cfg: Config, block: nat, tries: nat, outbox: seq<Packet>, inbox: seq<Received>,
                        end: Server, total: seq<Packet>)
    requires cfg.Valid() && 1 <= block && 1 <= tries <= 5
    requires Upcoming(cfg, block, tries, outbox, inbox, end, total)
    ensures var s' := OnReceive(cfg, Sending(block, tries), Head(inbox)).0;
            Leads(cfg, s', outbox + [DataPacket(cfg, block)], Tail(inbox), end, total)
  {
    var (s', sent) := OnReceive(cfg, Sending(block, tries), Head(inbox));
    var (e, more) := Drive(cfg, s', Tail(inbox));
    var out := outbox + [DataPacket(cfg, block)];
    assert out + (sent + more) == outbox + ([DataPacket(cfg, block)] + (sent + more));
  }

  predicate IsAckOf(block: nat, r: Received) {
    r.Datagram? && 4 <= |r.bytes| && U16At(r.bytes, 0) == ACK && U16At(r.bytes, 2) == block % BLOCK_SPACE
  }

  /** The server once a block is acknowledged. */
  function Acked(cfg: Config, block: nat): (s: Server)
    requires 1 <= block
    ensures s.Valid()
  {
    if Short(cfg, block) then Stopped(block, Done(Pos(cfg, block))) else Sending(block + 1, 1)
  }

  /** The server after an answer, by the answers that the attempt loop tells apart. */
  function AfterAttempt(cfg: Config, block: nat, tries: nat, r: Received): (s: Server)
    requires 1 <= block && 1 <= tries <= 5
    ensures s.Valid()
  {
    if r.Datagram? && |r.bytes| < 4 then Stopped(block, Malformed)
    else if IsAckOf(block, r) then Acked(cfg, block)
    else if r.Datagram? && U16At(r.bytes, 0) == ERROR then Stopped(block, ClientError)
    else if tries < 5 then Sending(block, tries + 1)
    else Stopped(block, GaveUp)
  }

  lemma LoopCases(cfg: Config, block: nat, tries: nat, r: Received)
    requires 1 <= block && 1 <= tries <= 5
    ensures OnReceive(cfg, Sending(block, tries), r).0 == AfterAttempt(cfg, block, tries, r)
  {
  }

  /** The attempt loop has sent the block this often without success. */
  function Attempted(block: nat, attempt: nat): (s: Server)
    requires 1 <= block
    ensures s.Valid()
  {
    if attempt < 5 then Sending(block, attempt + 1) else Stopped(block, GaveUp)
  }

  lemma AttemptLeads(cfg: Config, block: nat, tries: nat, outbox: seq<Packet>, inbox: seq<Received>,
                   end: Server, total: seq<Packet>)
    requires cfg.Valid() && 1 <= block && 1 <= tries <= 5
    requires Leads(cfg, Sending(block, tries), outbox, inbox, end, total)
    ensures Leads(cfg, AfterAttempt(cfg, block, tries, Head(inbox)), outbox + [DataPacket(cfg, block)],
                  Tail(inbox), end, total)
  {
    LoopCases(cfg, block, tries, Head(inbox));
    UpcomingUnfolds(cfg, block, tries, outbox, inbox, end, total);
  }

  /** What one more send leads to, by the answer to it. */
  lemma OneAttempt(cfg: Config, block: nat, attempt: nat, outbox: seq<Packet>, inbox: seq<Received>,
                   end: Server, total: seq<Packet>)
    requires cfg.Valid() && 1 <= block && attempt < 5
    requires Leads(cfg, Attempted(block, attempt), outbox, inbox, end, total)
    ensures var r, out, rest := Head(inbox), outbox + [DataPacket(cfg, block)], Tail(inbox);
            if r.Datagram? && |r.bytes| < 4 then Leads(cfg, Stopped(block, Malformed), out, rest, end, total)
            else if IsAckOf(block, r) then Leads(cfg, Acked(cfg, block), out, rest, end, total)
            else if r.Datagram? && U16At(r.bytes, 0) == ERROR then
              Leads(cfg, Stopped(block, ClientError), out, rest, end, total)
            else Leads(cfg, Attempted(block, attempt + 1), out, rest, end, total)
  {
    AttemptLeads(cfg, block, attempt + 1, outbox, inbox, end, total);
  }

  // ---- the first answer after an OACK ----

  /** Nothing comes in time. */
  predicate Silent(script: seq<Received>) {
    script == [] || script[0].Timeout?
  }

  /** Something comes that is no acknowledgement, an ERROR of RFC 2347 for one. */
  predicate Refuses(script: seq<Received>) {
    script != [] && script[0].Datagram? && 2 <= |script[0].bytes| && script[0].bytes[..2] != [0, 4]
  }

  predicate Accepts(script: seq<Received>) {
    script != [] && script[0].Datagram? && [0, 4] <= script[0].bytes
  }

  lemma FirstAnswer(cfg: Config, script: seq<Received>)
    requires cfg.Valid()
    ensures var n := OnReceive(cfg, AwaitOack, Head(script));
            if Silent(script) then n == (Stopped(0, OackTimeout), [])
            else if Refuses(script) then n == (Stopped(0, OackRefused), [])
            else if Accepts(script) then n == (Sending(1, 1), [DataPacket(cfg, 1)])
            else n == (Stopped(0, Malformed), []) && |script[0].bytes| < 2
  {
    if !Silent(script) {
      ClippingIsHarmless(cfg, AwaitOack, script);
      var d := script[0].bytes;
      assert 2 <= |d| ==> d[..2] == [d[0], d[1]];
      assert 2 <= |d| ==> (U16At(d, 0) == 4 <==> d[0] == 0 && d[1] == 4);
    }
  }

  lemma {:induction false} DataPhaseEnds(cfg: Config, s: Server, script: seq<Received>)
    requires cfg.Valid() && s.Valid() && s.Sending?
    ensures Drive(cfg, s, script).0.outcome !in {OackTimeout, OackRefused}
    decreases BytesLeft(cfg, s), 5 - s.tries
  {
    var s' := OnReceive(cfg, s, Head(script)).0;
    if s'.Sending? {
      DataPhaseEnds(cfg, s', Tail(script));
    }
  }

  /** The session is refused exactly by a first answer of two bytes or more that does
      not begin with 0, 4, and timed out exactly by silence; then the OACK is all that
      was sent. After an acknowledgement it goes on as a session without options. */
  lemma OackPhase(cfg: Config, oack: Packet, script: seq<Received>)
    requires cfg.Valid()
    ensures var result := Session(cfg, Some(oack), script);
            && (result.0.outcome == OackRefused <==> Refuses(script))
            && (result.0.outcome == OackTimeout <==> Silent(script))
            && (Refuses(script) ==> result == (Stopped(0, OackRefused), [oack]))
            && (Silent(script) ==> result == (Stopped(0, OackTimeout), [oack]))
            && (Accepts(script) ==>
                  var (end, sent) := Session(cfg, None, script[1..]); result == (end, [oack] + sent))
            && (!Silent(script) && |script[0].bytes| < 2 ==> result == (Stopped(0, Malformed), [oack]))
  {
    FirstAnswer(cfg, script);
    if Accepts(script) {
      DataPhaseEnds(cfg, Sending(1, 1), Tail(script));
    } else {
      var stop := OnReceive(cfg, AwaitOack, Head(script)).0;
      assert Drive(cfg, stop, Tail(script)) == (stop, []);
      assert [oack] + ([] + []) == [oack];
    }
  }

  lemma OutcomesOfOack(cfg: Config, oack: Option<Packet>, script: seq<Received>)
    requires cfg.Valid()
    ensures var (end, sent) := Session(cfg, oack, script);
            && (oack.Some? ==> (end.outcome == OackRefused <==> Refuses(script)))
            && (oack.Some? ==> (end.outcome == OackTimeout <==> Silent(script)))
            && (end.outcome in {OackRefused, OackTimeout} ==> oack.Some? && sent == [oack.value])
  {
    if oack.Some? {
      OackPhase(cfg, oack.value, script);
    } else {
      DataPhaseEnds(cfg, Sending(1, 1), script);
    }
  }

  lemma SessionWithoutOack(cfg: Config, outbox: seq<Packet>, inbox: seq<Received>)
    requires cfg.Valid()
    ensures var (end, sent) := Session(cfg, None, inbox); Upcoming(cfg, 1, 1, outbox, inbox, end, outbox + sent)
  {
  }

  lemma SessionAfterOack(cfg: Config, oack: Packet, outbox: seq<Packet>, inbox: seq<Received>)
    requires cfg.Valid()
    ensures var (end, sent) := Session(cfg, Some(oack), inbox);
            var (s', _) := OnReceive(cfg, AwaitOack, Head(inbox));
            (s'.Stopped? ==> s' == end && outbox + sent == outbox + [oack]) &&
            (s'.Sending? ==>
               s' == Sending(1, 1) && Upcoming(cfg, 1, 1, outbox + [oack], Tail(inbox), end, outbox + sent))
  {
    var (s', first) := OnReceive(cfg, AwaitOack, Head(inbox));
    var (_, more) := Drive(cfg, s', Tail(inbox));
    assert outbox + ([oack] + (first + more)) == outbox + [oack] + (first + more);
  }
}
