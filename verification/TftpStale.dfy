/** Exactly which files a reordering network cannot spoil. For every other file
    there is a run in which one copy, held back for a whole block space, is taken
    for the newest datagram. */
module TftpStale {
  import opened Common
  import opened TftpWire
  import opened TftpServer
  import opened TftpTranscript
  import opened TftpNetwork
  import opened TftpSafety

  function Data(cfg: Config, k: nat): InFlight
    requires 1 <= k
  {
    InFlight(k, DataPacket(cfg, k))
  }

  function Ack(k: nat): InFlight {
    InFlight(k, AckPacket(k))
  }

  /** Block k has just gone out for the first time; older datagrams are held back
      in front of both channels. */
  function At(cfg: Config, oack: Option<Packet>, k: nat, data: seq<InFlight>, acks: seq<InFlight>, copied: nat): Net
    requires cfg.Valid() && 1 <= k
  {
    Net(Sending(k, 1), Client(k - 1, cfg.file[..Pos(cfg, k - 1)], false, oack.Some? || 1 < k),
        data + [Data(cfg, k)], acks, 0, 0, copied, 0, 0)
  }

  /** Block k has arrived and its ACK is on the way. */
  function Taken(cfg: Config, k: nat, data: seq<InFlight>, acks: seq<InFlight>, copied: nat): Net
    requires cfg.Valid() && 1 <= k
  {
    Net(Sending(k, 1), Client(k, cfg.file[..Pos(cfg, k)], false, true), data, acks + [Ack(k)], 0, 0, copied, 0, 0)
  }

  lemma ClientTakesNext(cfg: Config, c: Client, k: nat)
    requires cfg.Valid() && 1 <= k < Blocks(cfg)
    requires c.last == k - 1 && c.got == cfg.file[..Pos(cfg, k - 1)] && !c.done
    ensures ClientStep(cfg.blksize, c, DataPacket(cfg, k))
         == (Client(k, cfg.file[..Pos(cfg, k)], false, true), Some(AckPacket(k)))
  {
    DataDecides(cfg, None, k, c, Data(cfg, k));
    assert cfg.file[..Pos(cfg, k - 1)] + Chunk(cfg, k) == cfg.file[..Pos(cfg, k)];
  }

  lemma LastIsAlone(s: seq<InFlight>, p: InFlight)
    ensures (s + [p])[|s|] == p && Without(s + [p], |s|) == s
  {
  }

  lemma BlockArrives(cfg: Config, oack: Option<Packet>, k: nat, data: seq<InFlight>, acks: seq<InFlight>, copied: nat)
    requires cfg.Valid() && 1 <= k < Blocks(cfg)
    ensures Next(cfg, At(cfg, oack, k, data, acks, copied), ToClient(|data|)) == Taken(cfg, k, data, acks, copied)
  {
    ClientTakesNext(cfg, At(cfg, oack, k, data, acks, copied).client, k);
    LastIsAlone(data, Data(cfg, k));
  }

  lemma AckArrives(cfg: Config, oack: Option<Packet>, k: nat, data: seq<InFlight>, acks: seq<InFlight>, copied: nat)
    requires cfg.Valid() && 1 <= k < Blocks(cfg)
    ensures Next(cfg, Taken(cfg, k, data, acks, copied), ToServer(|acks|)) == At(cfg, oack, k + 1, data, acks, copied)
  {
    AckDecides(cfg, Sending(k, 1), k);
    LastIsAlone(acks, Ack(k));
    assert Tag(k + 1, [DataPacket(cfg, k + 1)]) == [Data(cfg, k + 1)];
  }

  ghost predicate Reaches(cfg: Config, oack: Option<Packet>, events: seq<Event>, n: Net) {
    Happens(cfg, oack, events) && Exec(cfg, oack, events) == n
  }

  lemma OneMore(cfg: Config, oack: Option<Packet>, events: seq<Event>, n: Net, e: Event, n': Net)
    returns (more: seq<Event>)
    requires Reaches(cfg, oack, events, n) && n.server.Valid() && Enabled(n, e) && Next(cfg, n, e) == n'
    ensures Reaches(cfg, oack, more, n')
  {
    ExecOneMore(cfg, oack, events, e);
    more := events + [e];
  }

  /** From block j to block k, past whatever is held back. */
  lemma Rounds(cfg: Config, oack: Option<Packet>, events: seq<Event>, j: nat, k: nat,
               data: seq<InFlight>, acks: seq<InFlight>, copied: nat)
    returns (more: seq<Event>)
    requires cfg.Valid() && 1 <= j <= k <= Blocks(cfg)
    requires Reaches(cfg, oack, events, At(cfg, oack, j, data, acks, copied))
    ensures Reaches(cfg, oack, more, At(cfg, oack, k, data, acks, copied))
  {
    more := events;
    for i := j to k
      invariant Reaches(cfg, oack, more, At(cfg, oack, i, data, acks, copied))
    {
      more := OneRound(cfg, oack, more, i, i + 1, data, acks, copied);
    }
  }

  lemma OneRound(cfg: Config, oack: Option<Packet>, events: seq<Event>, k: nat, next: nat,
                 data: seq<InFlight>, acks: seq<InFlight>, copied: nat)
    returns (more: seq<Event>)
    requires cfg.Valid() && 1 <= k < Blocks(cfg) && next == k + 1
    requires Reaches(cfg, oack, events, At(cfg, oack, k, data, acks, copied))
    ensures Reaches(cfg, oack, more, At(cfg, oack, next, data, acks, copied))
  {
    BlockArrives(cfg, oack, k, data, acks, copied);
    AckArrives(cfg, oack, k, data, acks, copied);
    var mid := Taken(cfg, k, data, acks, copied);
    more := OneMore(cfg, oack, events, At(cfg, oack, k, data, acks, copied), ToClient(|data|), mid);
    more := OneMore(cfg, oack, more, mid, ToServer(|acks|), At(cfg, oack, next, data, acks, copied));
  }

  /** The OACK has been answered. */
  function Answered(oack: Packet, acks: seq<InFlight>, copied: nat): Net {
    Net(AwaitOack, NewClient.(heard := true), [], acks, 0, 0, copied, 0, 0)
  }

  lemma OackArrives(cfg: Config, oack: Packet)
    requires cfg.Valid() && ValidOack(Some(oack))
    ensures Enabled(Init(cfg, Some(oack)), ToClient(0))
    ensures Next(cfg, Init(cfg, Some(oack)), ToClient(0)) == Answered(oack, [Ack(0)], 0)
  {
    var init := Init(cfg, Some(oack));
    assert init.data == [InFlight(0, oack)] && Without(init.data, 0) == [];
  }

  lemma AnswerArrives(cfg: Config, oack: Packet, acks: seq<InFlight>, copied: nat)
    requires cfg.Valid()
    ensures Next(cfg, Answered(oack, acks + [Ack(0)], copied), ToServer(|acks|))
         == At(cfg, Some(oack), 1, [], acks, copied)
  {
    LastIsAlone(acks, Ack(0));
    assert cfg.file[..0] == [];
    assert [] + Tag(1, [DataPacket(cfg, 1)]) == [] + [Data(cfg, 1)];
  }

  lemma FirstBlockOut(cfg: Config, oack: Option<Packet>) returns (events: seq<Event>)
    requires cfg.Valid() && ValidOack(oack)
    ensures Reaches(cfg, oack, events, At(cfg, oack, 1, [], [], 0))
  {
    events := [];
    if oack.None? {
      assert cfg.file[..0] == [] && Init(cfg, None).data == [] + [Data(cfg, 1)];
    } else {
      OackArrives(cfg, oack.value);
      AnswerArrives(cfg, oack.value, [], 0);
      events := OneMore(cfg, oack, events, Init(cfg, oack), ToClient(0), Answered(oack.value, [Ack(0)], 0));
      assert [] + [Ack(0)] == [Ack(0)];
      events := OneMore(cfg, oack, events, Answered(oack.value, [Ack(0)], 0), ToServer(0), At(cfg, oack, 1, [], [], 0));
    }
  }

  // ---- a DATA packet that is held back ----

  lemma HoldData(cfg: Config, oack: Option<Packet>, j: nat) returns (events: seq<Event>)
    requires cfg.Valid() && ValidOack(oack) && 1 <= j <= Blocks(cfg)
    ensures Reaches(cfg, oack, events, At(cfg, oack, j, [Data(cfg, j)], [], 1))
  {
    events := FirstBlockOut(cfg, oack);
    events := Rounds(cfg, oack, events, 1, j, [], [], 0);
    var p := Data(cfg, j);
    assert [] + [p] == [p] && With([p], 0, p) == [p] + [p];
    events := OneMore(cfg, oack, events, At(cfg, oack, j, [], [], 0), CopyData(0, 0), At(cfg, oack, j, [p], [], 1));
  }

  lemma WrapRepeats(j: nat, k: nat)
    requires k == j + BLOCK_SPACE
    ensures j % BLOCK_SPACE == k % BLOCK_SPACE
  {
  }

  /** DATA j passes for block j + 65536. */
  lemma StaleDataTaken(cfg: Config, c: Client, j: nat)
    requires cfg.Valid() && 1 <= j && c.last + 1 == j + BLOCK_SPACE && !c.done
    ensures ClientStep(cfg.blksize, c, DataPacket(cfg, j)).0.got == c.got + Chunk(cfg, j)
  {
    WrapRepeats(j, c.last + 1);
    assert DataPacket(cfg, j)[4..] == Chunk(cfg, j);
  }

  /** It is full, and the block that it passes for is not. */
  lemma StaleDataStep(cfg: Config, oack: Option<Packet>, j: nat)
    requires cfg.Valid() && 1 <= j && Blocks(cfg) == j + BLOCK_SPACE
    ensures !Safe(cfg, Next(cfg, At(cfg, oack, Blocks(cfg), [Data(cfg, j)], [], 1), ToClient(0)))
  {
    var n := At(cfg, oack, Blocks(cfg), [Data(cfg, j)], [], 1);
    var n' := Next(cfg, n, ToClient(0));
    assert n.data[0] == Data(cfg, j);
    StaleDataTaken(cfg, n.client, j);
    assert n'.client.got == cfg.file[..Pos(cfg, Blocks(cfg) - 1)] + Chunk(cfg, j);
    StaleDataTooLong(cfg, j);
  }

  lemma StaleDataTooLong(cfg: Config, j: nat)
    requires cfg.Valid() && 1 <= j < Blocks(cfg)
    ensures |cfg.file| < |cfg.file[..Pos(cfg, Blocks(cfg) - 1)] + Chunk(cfg, j)|
  {
    ShortIffLast(cfg, j);
    ShortIffLast(cfg, Blocks(cfg));
    assert |Chunk(cfg, Blocks(cfg))| == Pos(cfg, Blocks(cfg)) - Pos(cfg, Blocks(cfg) - 1);
  }

  lemma StaleDataCorruptsFile(cfg: Config, oack: Option<Packet>) returns (events: seq<Event>)
    requires cfg.Valid() && ValidOack(oack) && BLOCK_SPACE < Blocks(cfg)
    ensures Happens(cfg, oack, events) && !Safe(cfg, Exec(cfg, oack, events))
  {
    var j := Blocks(cfg) - BLOCK_SPACE;
    events := HoldData(cfg, oack, j);
    events := Rounds(cfg, oack, events, j, Blocks(cfg), [Data(cfg, j)], [], 1);
    var n := At(cfg, oack, Blocks(cfg), [Data(cfg, j)], [], 1);
    StaleDataStep(cfg, oack, j);
    events := OneMore(cfg, oack, events, n, ToClient(0), Next(cfg, n, ToClient(0)));
  }

  // ---- an ACK that is held back ----

  lemma HoldAck(cfg: Config, oack: Option<Packet>, j: nat) returns (events: seq<Event>)
    requires cfg.Valid() && ValidOack(oack) && 1 <= j < Blocks(cfg)
    ensures Reaches(cfg, oack, events, At(cfg, oack, j + 1, [], [Ack(j)], 1))
  {
    events := FirstBlockOut(cfg, oack);
    events := Rounds(cfg, oack, events, 1, j, [], [], 0);
    BlockArrives(cfg, oack, j, [], [], 0);
    events := OneMore(cfg, oack, events, At(cfg, oack, j, [], [], 0), ToClient(0), Taken(cfg, j, [], [], 0));
    assert [] + [Ack(j)] == [Ack(j)] && With([Ack(j)], 0, Ack(j)) == [Ack(j)] + [Ack(j)];
    events := OneMore(cfg, oack, events, Taken(cfg, j, [], [], 0), CopyAck(0, 0), Taken(cfg, j, [], [Ack(j)], 1));
    AckArrives(cfg, oack, j, [], [Ack(j)], 1);
    var held := At(cfg, oack, j + 1, [], [Ack(j)], 1);
    events := OneMore(cfg, oack, events, Taken(cfg, j, [], [Ack(j)], 1), ToServer(1), held);
  }

  lemma HoldAnswer(cfg: Config, oack: Packet) returns (events: seq<Event>)
    requires cfg.Valid() && ValidOack(Some(oack))
    ensures Reaches(cfg, Some(oack), events, At(cfg, Some(oack), 1, [], [Ack(0)], 1))
  {
    var a := [Ack(0)];
    OackArrives(cfg, oack);
    events := OneMore(cfg, Some(oack), [], Init(cfg, Some(oack)), ToClient(0), Answered(oack, a, 0));
    assert With(a, 0, Ack(0)) == a + [Ack(0)];
    events := OneMore(cfg, Some(oack), events, Answered(oack, a, 0), CopyAck(0, 0), Answered(oack, a + [Ack(0)], 1));
    AnswerArrives(cfg, oack, a, 1);
    var held := At(cfg, Some(oack), 1, [], a, 1);
    events := OneMore(cfg, Some(oack), events, Answered(oack, a + [Ack(0)], 1), ToServer(1), held);
  }

  /** ACK j passes for the ACK of the last block, j + 65536. */
  lemma StaleAckTaken(cfg: Config, j: nat)
    requires cfg.Valid() && Blocks(cfg) == j + BLOCK_SPACE
    ensures OnReceive(cfg, Sending(Blocks(cfg), 1), Datagram(AckPacket(j)))
         == (Stopped(Blocks(cfg), Done(|cfg.file|)), [])
  {
    WrapRepeats(j, Blocks(cfg));
    ShortIffLast(cfg, Blocks(cfg));
  }

  lemma StaleAckStep(cfg: Config, oack: Option<Packet>, j: nat)
    requires cfg.Valid() && Blocks(cfg) == j + BLOCK_SPACE
    ensures var n := At(cfg, oack, Blocks(cfg), [], [Ack(j)], 1);
            Next(cfg, n, ToServer(0)) == n.(server := Stopped(Blocks(cfg), Done(|cfg.file|)), acks := [])
  {
    var n := At(cfg, oack, Blocks(cfg), [], [Ack(j)], 1);
    assert n.acks[0] == Ack(j) && Without(n.acks, 0) == [];
    StaleAckTaken(cfg, j);
    assert n.data + Tag(Blocks(cfg), []) == n.data;
  }

  /** Up to the first send of the last block, with the ACK of the block with the
      same wrapped number held back. */
  lemma HoldToTheEnd(cfg: Config, oack: Option<Packet>, j: nat) returns (events: seq<Event>)
    requires cfg.Valid() && ValidOack(oack) && Blocks(cfg) == j + BLOCK_SPACE && (j == 0 ==> oack.Some?)
    ensures Reaches(cfg, oack, events, At(cfg, oack, Blocks(cfg), [], [Ack(j)], 1))
  {
    if j == 0 {
      events := HoldAnswer(cfg, oack.value);
    } else {
      events := HoldAck(cfg, oack, j);
    }
    events := Rounds(cfg, oack, events, j + 1, Blocks(cfg), [], [Ack(j)], 1);
  }

  /** The state in which a stale ACK has stopped the server one block early. */
  function StoppedEarly(cfg: Config, oack: Option<Packet>): (n: Net)
    requires cfg.Valid() && 1 < Blocks(cfg)
    ensures n.server == Stopped(Blocks(cfg), Done(|cfg.file|))
    ensures n.client.last == Blocks(cfg) - 1 && !n.client.done
    ensures n.client.got == cfg.file[..Pos(cfg, Blocks(cfg) - 1)]
  {
    At(cfg, oack, Blocks(cfg), [], [], 1).(server := Stopped(Blocks(cfg), Done(|cfg.file|)))
  }

  /** For every file of 65537 blocks or more, and after an OACK for 65536 too, a run
      ends in Done while the client still waits for the last block; if that block
      holds anything, the client has not got all of the file. */
  lemma StaleAckEndsTransfer(cfg: Config, oack: Option<Packet>) returns (events: seq<Event>)
    requires cfg.Valid() && ValidOack(oack)
    requires BLOCK_SPACE < Blocks(cfg) || (oack.Some? && Blocks(cfg) == BLOCK_SPACE)
    ensures Reaches(cfg, oack, events, StoppedEarly(cfg, oack))
    ensures 0 < |cfg.file| % cfg.blksize ==> !Safe(cfg, Exec(cfg, oack, events))
  {
    var j := Blocks(cfg) - BLOCK_SPACE;
    events := HoldToTheEnd(cfg, oack, j);
    StaleAckStep(cfg, oack, j);
    var n := At(cfg, oack, Blocks(cfg), [], [Ack(j)], 1);
    events := OneMore(cfg, oack, events, n, ToServer(0), StoppedEarly(cfg, oack));
    if 0 < |cfg.file| % cfg.blksize {
      LastBlockMissing(cfg);
    }
  }

  lemma LastBlockMissing(cfg: Config)
    requires cfg.Valid() && 0 < |cfg.file| % cfg.blksize
    ensures cfg.file[..Pos(cfg, Blocks(cfg) - 1)] != cfg.file
  {
    ShortIffLast(cfg, Blocks(cfg));
    assert |Chunk(cfg, Blocks(cfg))| == Pos(cfg, Blocks(cfg)) - Pos(cfg, Blocks(cfg) - 1);
  }

  /** The exact condition. Over a network that loses, copies, delays and reorders,
      every reachable state is safe if and only if the file has less than 65536
      full blocks; after an OACK, whose answer is number 0, at most 65535 blocks'
      worth of bytes. */
  lemma SafeIffFits(cfg: Config, oack: Option<Packet>)
    requires cfg.Valid() && ValidOack(oack)
    ensures (forall events :: Safe(cfg, Exec(cfg, oack, events))) <==>
            if oack.None? then |cfg.file| < BLOCK_SPACE * cfg.blksize
            else |cfg.file| <= (BLOCK_SPACE - 1) * cfg.blksize
  {
    if Fits(cfg, oack) {
      forall events ensures Safe(cfg, Exec(cfg, oack, events)) {
        FittingRun(cfg, oack, events);
        InvIsSafe(cfg, oack, Exec(cfg, oack, events));
      }
    } else {
      FitsInBlocks(cfg, oack);
      var events;
      if BLOCK_SPACE < Blocks(cfg) {
        events := StaleDataCorruptsFile(cfg, oack);
      } else {
        events := StaleAckEndsTransfer(cfg, oack);
      }
      assert !Safe(cfg, Exec(cfg, oack, events));
    }
  }
}
