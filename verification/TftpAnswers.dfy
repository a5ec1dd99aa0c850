/** Byte by byte: what the server puts on the wire, and which answers decide what
    it does next. */
module TftpAnswers {
  import opened Common
  import opened TftpWire
  import opened TftpServer
  import opened TftpTranscript

  /** Big-endian, modulo 65536. */
  function Number(block: nat): Packet {
    [block / 256 % 256, block % 256]
  }

  lemma NumberIsU16(block: nat)
    ensures U16(block % BLOCK_SPACE) == Number(block)
  {
    assert block == BLOCK_SPACE * (block / BLOCK_SPACE) + block % BLOCK_SPACE;
    assert block / 256 == 256 * (block / BLOCK_SPACE) + block % BLOCK_SPACE / 256;
  }

  /** The DATA packet of block k (RFC 1350 section 5): opcode 3, the block's number,
      and the k-th stretch of the file. */
  lemma DataOnTheWire(cfg: Config, k: nat)
    requires cfg.Valid() && 1 <= k
    ensures DataPacket(cfg, k) == [0, 3] + Number(k) + Chunk(cfg, k)
  {
    NumberIsU16(k);
  }

  /** The acknowledgement of a block: opcode 4 and the block's number. */
  predicate Acks(r: Received, block: nat) {
    r.Datagram? && [0, 4] + Number(block) <= r.bytes
  }

  /** An error report: opcode 5 and some code. */
  predicate Reports(r: Received) {
    r.Datagram? && 4 <= |r.bytes| && r.bytes[..2] == [0, 5]
  }

  predicate Runt(r: Received) {
    r.Datagram? && |r.bytes| < 4
  }

  predicate Decides(r: Received, block: nat) {
    Acks(r, block) || Reports(r) || Runt(r)
  }

  lemma PrefixBytes(d: Packet, a: byte, b: byte)
    requires 2 <= |d|
    ensures d[..2] == [a, b] <==> d[0] == a && d[1] == b
    ensures d[..2] == [a, b] <==> U16At(d, 0) == 256 * a as int + b as int
  {
  }

  lemma AcksInBytes(r: Received, block: nat)
    requires r.Datagram? && 4 <= |r.bytes|
    ensures Acks(r, block) <==> U16At(r.bytes, 0) == ACK && U16At(r.bytes, 2) == block % BLOCK_SPACE
  {
    NumberIsU16(block);
    var d, p := r.bytes, [0, 4] + Number(block);
    assert p <= d <==> d[0] == p[0] && d[1] == p[1] && d[2] == p[2] && d[3] == p[3];
    assert U16At(d, 2) == U16At(Number(block), 0) <==> d[2] == p[2] && d[3] == p[3];
  }

  /** One answer to a server that waits on a block. */
  lemma OneAnswer(cfg: Config, s: Server, r: Received)
    requires s.Sending? && s.Valid()
    ensures var n := OnReceive(cfg, s, r);
            && (Runt(r) ==> n == (Stopped(s.block, Malformed), []))
            && (Reports(r) ==> n == (Stopped(s.block, ClientError), []))
            && (!Decides(r, s.block) ==> n == Retry(cfg, s))
            && (Acks(r, s.block) ==>
                  n == if Short(cfg, s.block) then (Stopped(s.block, Done(Pos(cfg, s.block))), [])
                       else (Sending(s.block + 1, 1), [DataPacket(cfg, s.block + 1)]))
  {
    if r.Datagram? && 4 <= |r.bytes| {
      AcksInBytes(r, s.block);
      PrefixBytes(r.bytes, 0, 5);
    }
  }

  /** The i-th answer to come; after the last there is silence. */
  function Nth(script: seq<Received>, i: nat): Received {
    if i < |script| then script[i] else Timeout
  }

  function From(script: seq<Received>, i: nat): seq<Received> {
    if i <= |script| then script[i..] else []
  }

  lemma FromSteps(script: seq<Received>, i: nat)
    ensures Tail(From(script, i)) == From(script, i + 1)
    ensures From(script, i) == [] ==> Nth(script, i) == Timeout
    ensures From(script, i) != [] ==> From(script, i)[0] == Nth(script, i)
  {
  }

  /** The next answer, clipped or not, has the effect that its bytes say. */
  lemma NextAnswer(cfg: Config, s: Server, script: seq<Received>, i: nat)
    requires !s.Stopped? && s.Valid()
    ensures OnReceive(cfg, s, Head(From(script, i))) == OnReceive(cfg, s, Nth(script, i))
  {
    FromSteps(script, i);
    if From(script, i) != [] {
      ClippingIsHarmless(cfg, s, From(script, i));
    }
  }

  lemma DriveOnce(cfg: Config, s: Server, script: seq<Received>, i: nat)
    requires cfg.Valid() && s.Valid() && !s.Stopped?
    ensures var (s', sent) := OnReceive(cfg, s, Nth(script, i));
            var (end, more) := Drive(cfg, s', From(script, i + 1));
            Drive(cfg, s, From(script, i)) == (end, sent + more)
  {
    FromSteps(script, i);
    NextAnswer(cfg, s, script, i);
  }

  predicate Undecided(script: seq<Received>, block: nat, i: nat) {
    forall k :: 0 <= k < i ==> !Decides(Nth(script, k), block)
  }

  lemma Regroup(a: seq<Packet>, b: seq<Packet>, c: seq<Packet>)
    ensures a + (b + c) == (a + b) + c
  {
  }

  lemma NothingBefore(a: seq<Packet>)
    ensures [] + a == a
  {
  }

  /** An answer that decides nothing makes the server send its block again. */
  lemma ResendsOnce(cfg: Config, block: nat, tries: nat, script: seq<Received>, i: nat)
    requires cfg.Valid() && 1 <= block && 1 <= tries < 5 && !Decides(Nth(script, i), block)
    ensures var (end, more) := Drive(cfg, Sending(block, tries + 1), From(script, i + 1));
            Drive(cfg, Sending(block, tries), From(script, i)) == (end, [DataPacket(cfg, block)] + more)
  {
    OneAnswer(cfg, Sending(block, tries), Nth(script, i));
    assert Retry(cfg, Sending(block, tries)) == (Sending(block, tries + 1), [DataPacket(cfg, block)]);
    DriveOnce(cfg, Sending(block, tries), script, i);
  }

  lemma {:induction false} Resends(cfg: Config, block: nat, script: seq<Received>, i: nat)
    requires cfg.Valid() && 1 <= block && i <= 4 && Undecided(script, block, i)
    ensures var (end, more) := Drive(cfg, Sending(block, 1 + i), From(script, i));
            Drive(cfg, Sending(block, 1), script) == (end, Repeat(DataPacket(cfg, block), i) + more)
  {
    if i == 0 {
      assert From(script, 0) == script;
      NothingBefore(Drive(cfg, Sending(block, 1), script).1);
    } else {
      Resends(cfg, block, script, i - 1);
      ResendsOnce(cfg, block, i, script, i - 1);
      Regroup(Repeat(DataPacket(cfg, block), i - 1), [DataPacket(cfg, block)],
              Drive(cfg, Sending(block, 1 + i), From(script, i)).1);
    }
  }

  /** What the answer that counts leads to, and what the server sends from then on. */
  function Verdict(cfg: Config, block: nat, r: Received, rest: seq<Received>): (Server, seq<Packet>)
    requires cfg.Valid() && 1 <= block <= Blocks(cfg)
  {
    if Runt(r) then (Stopped(block, Malformed), [])
    else if Reports(r) then (Stopped(block, ClientError), [])
    else if !Acks(r, block) then (Stopped(block, GaveUp), [])
    else if block == Blocks(cfg) then (Stopped(block, Done(|cfg.file|)), [])
    else
      var (end, more) := Drive(cfg, Sending(block + 1, 1), rest);
      (end, [DataPacket(cfg, block + 1)] + more)
  }

  lemma StopsThere(cfg: Config, s: Server, script: seq<Received>, i: nat, stop: Server)
    requires cfg.Valid() && s.Valid() && !s.Stopped? && stop.Stopped?
    requires OnReceive(cfg, s, Nth(script, i)) == (stop, [])
    ensures Drive(cfg, s, From(script, i)) == (stop, [])
  {
    DriveOnce(cfg, s, script, i);
    assert Drive(cfg, stop, From(script, i + 1)) == (stop, []);
    NothingBefore([]);
  }

  predicate GoesOn(cfg: Config, block: nat, r: Received)
    requires cfg.Valid()
  {
    Acks(r, block) && block < Blocks(cfg)
  }

  lemma StopIsVerdict(cfg: Config, s: Server, r: Received, rest: seq<Received>)
    requires cfg.Valid() && s.Sending? && s.Valid() && s.block <= Blocks(cfg) && !GoesOn(cfg, s.block, r)
    requires s.tries == 5 || Decides(r, s.block)
    ensures OnReceive(cfg, s, r) == Verdict(cfg, s.block, r, rest) && OnReceive(cfg, s, r).0.Stopped?
    ensures OnReceive(cfg, s, r).1 == []
  {
    OneAnswer(cfg, s, r);
    ShortIffLast(cfg, s.block);
  }

  lemma NextBlock(cfg: Config, s: Server, script: seq<Received>, i: nat)
    requires cfg.Valid() && s.Sending? && s.Valid() && GoesOn(cfg, s.block, Nth(script, i))
    ensures Drive(cfg, s, From(script, i)) == Verdict(cfg, s.block, Nth(script, i), From(script, i + 1))
  {
    OneAnswer(cfg, s, Nth(script, i));
    ShortIffLast(cfg, s.block);
    DriveOnce(cfg, s, script, i);
  }

  lemma LastAnswer(cfg: Config, block: nat, tries: nat, script: seq<Received>, i: nat)
    requires cfg.Valid() && 1 <= block <= Blocks(cfg) && 1 <= tries <= 5
    requires tries == 5 || Decides(Nth(script, i), block)
    ensures Drive(cfg, Sending(block, tries), From(script, i))
         == Verdict(cfg, block, Nth(script, i), From(script, i + 1))
  {
    var s, r := Sending(block, tries), Nth(script, i);
    if GoesOn(cfg, block, r) {
      NextBlock(cfg, s, script, i);
    } else {
      StopIsVerdict(cfg, s, r, From(script, i + 1));
      StopsThere(cfg, s, script, i, OnReceive(cfg, s, r).0);
    }
  }

  /** A block in full. After its first send the server looks at five answers at most,
      and it is the first deciding one among them that counts: with i others before
      it the block goes out i more times, and then the transfer goes on, or is done,
      or ends as that answer says. Without one it goes out four more times, and the
      server gives up. */
  lemma BlockWindow(cfg: Config, block: nat, script: seq<Received>, i: nat)
    requires cfg.Valid() && 1 <= block <= Blocks(cfg) && i <= 4 && Undecided(script, block, i)
    requires i == 4 || Decides(Nth(script, i), block)
    ensures var (end, more) := Verdict(cfg, block, Nth(script, i), From(script, i + 1));
            Drive(cfg, Sending(block, 1), script) == (end, Repeat(DataPacket(cfg, block), i) + more)
  {
    Resends(cfg, block, script, i);
    LastAnswer(cfg, block, 1 + i, script, i);
  }
}
