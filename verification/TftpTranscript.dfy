/** What a whole transfer puts on the wire, for every script of answers. */
module TftpTranscript {
  import opened Common
  import opened TftpWire
  import opened TftpServer

  /** The number of DATA blocks of a file; a file that fills its last block gets
      an empty one after it (RFC 1350 section 6). */
  function Blocks(cfg: Config): nat
    requires cfg.Valid()
  {
    |cfg.file| / cfg.blksize + 1
  }

  lemma {:induction false} PosIsProduct(cfg: Config, k: nat)
    requires cfg.Valid()
    ensures Pos(cfg, k) == if k * cfg.blksize <= |cfg.file| then k * cfg.blksize else |cfg.file|
  {
    if k != 0 {
      PosIsProduct(cfg, k - 1);
      assert k * cfg.blksize == (k - 1) * cfg.blksize + cfg.blksize;
    }
  }

  /** The loop's stop test, `len(chunk) < blksize`, fires at block Blocks and not
      before it. */
  lemma ShortIffLast(cfg: Config, k: nat)
    requires cfg.Valid() && 1 <= k
    ensures Short(cfg, k) <==> Blocks(cfg) <= k
    ensures Blocks(cfg) <= k ==> Pos(cfg, k) == |cfg.file|
    ensures k < Blocks(cfg) ==> |Chunk(cfg, k)| == cfg.blksize
    ensures k == Blocks(cfg) ==> |Chunk(cfg, k)| == |cfg.file| % cfg.blksize
  {
    ChunkLength(cfg, k);
    CappedMultiples(|cfg.file|, cfg.blksize, k);
  }

  lemma ChunkLength(cfg: Config, k: nat)
    requires cfg.Valid() && 1 <= k
    ensures Pos(cfg, k) == Capped(|cfg.file|, k * cfg.blksize)
    ensures |Chunk(cfg, k)| == Capped(|cfg.file|, k * cfg.blksize) - Capped(|cfg.file|, (k - 1) * cfg.blksize)
  {
    PosIsProduct(cfg, k - 1);
    PosIsProduct(cfg, k);
  }

  function Capped(n: nat, x: nat): nat {
    if x <= n then x else n
  }

  lemma CappedMultiples(n: nat, b: nat, k: nat)
    requires 1 <= b && 1 <= k
    ensures var len := Capped(n, k * b) - Capped(n, (k - 1) * b);
            && (len < b <==> n / b + 1 <= k)
            && (k < n / b + 1 ==> len == b)
            && (k == n / b + 1 ==> len == n % b)
    ensures n / b + 1 <= k ==> n <= k * b
  {
    var q := n / b;
    assert n == q * b + n % b;
    assert k * b == (k - 1) * b + b;
    if k <= q {
      MulMonotone(k, q, b);
    } else {
      MulMonotone(q, k - 1, b);
    }
  }

  lemma MulMonotone(x: nat, y: nat, b: nat)
    requires x <= y
    ensures x * b <= y * b
  {
  }

  function ChunksUpTo(cfg: Config, k: nat): seq<byte> {
    if k == 0 then [] else ChunksUpTo(cfg, k - 1) + Chunk(cfg, k)
  }

  lemma {:induction false} ChunksArePrefix(cfg: Config, k: nat)
    requires cfg.Valid()
    ensures ChunksUpTo(cfg, k) == cfg.file[..Pos(cfg, k)]
  {
    if k != 0 {
      ChunksArePrefix(cfg, k - 1);
    }
  }

  /** The payloads of blocks 1..Blocks, in order, are the file: nothing lost at a
      block boundary, nothing sent twice. */
  lemma ChunksAreTheFile(cfg: Config)
    requires cfg.Valid()
    ensures ChunksUpTo(cfg, Blocks(cfg)) == cfg.file
  {
    ChunksArePrefix(cfg, Blocks(cfg));
    ShortIffLast(cfg, Blocks(cfg));
  }

  function Repeat(p: Packet, n: nat): (r: seq<Packet>)
    ensures |r| == n
  {
    if n == 0 then [] else Repeat(p, n - 1) + [p]
  }

  /** Blocks k, k+1, ... in order, block k + i sent counts[i] times in a row. */
  function Transcript(cfg: Config, k: nat, counts: seq<nat>): seq<Packet>
    requires 1 <= k
    decreases |counts|
  {
    if counts == [] then [] else Repeat(DataPacket(cfg, k), counts[0]) + Transcript(cfg, k + 1, counts[1..])
  }

  predicate WithinBudget(counts: seq<nat>) {
    forall i :: 0 <= i < |counts| ==> 1 <= counts[i] <= 5
  }

  /** The ending that fits blocks first, first + 1, ... sent counts times each. */
  ghost predicate EndsWell(cfg: Config, first: nat, counts: seq<nat>, end: Server)
    requires cfg.Valid()
  {
    && 1 <= |counts| && WithinBudget(counts)
    && end.Stopped? && end.block == first + |counts| - 1 <= Blocks(cfg)
    && (end.outcome.Done? ==> end.block == Blocks(cfg) && end.outcome.sent == |cfg.file|)
    && (end.outcome.GaveUp? ==> counts[|counts| - 1] == 5)
    && !end.outcome.OackTimeout? && !end.outcome.OackRefused?
  }

  /** A transfer whose current block has gone out `tries` times already, and
      which goes on to send `more`, fits the given counts. */
  ghost predicate HasShape(cfg: Config, block: nat, tries: nat, end: Server, more: seq<Packet>, counts: seq<nat>)
    requires cfg.Valid() && 1 <= block
  {
    Repeat(DataPacket(cfg, block), tries) + more == Transcript(cfg, block, counts) && EndsWell(cfg, block, counts, end)
  }

  lemma ShapeOfStop(cfg: Config, block: nat, tries: nat, end: Server)
    requires cfg.Valid() && 1 <= block && 1 <= tries <= 5
    requires EndsWell(cfg, block, [tries], end)
    ensures HasShape(cfg, block, tries, end, [], [tries])
  {
    TranscriptCons(cfg, block, tries, []);
  }

  lemma ShapeOfResend(cfg: Config, block: nat, tries: nat, end: Server, more: seq<Packet>, counts: seq<nat>)
    requires cfg.Valid() && 1 <= block && HasShape(cfg, block, tries + 1, end, more, counts)
    ensures HasShape(cfg, block, tries, end, [DataPacket(cfg, block)] + more, counts)
  {
    var pkt := DataPacket(cfg, block);
    assert Repeat(pkt, tries) + ([pkt] + more) == Repeat(pkt, tries + 1) + more;
  }

  lemma ShapeOfNext(cfg: Config, block: nat, tries: nat, end: Server, more: seq<Packet>, rest: seq<nat>)
    requires cfg.Valid() && 1 <= block && 1 <= tries <= 5 && HasShape(cfg, block + 1, 1, end, more, rest)
    ensures HasShape(cfg, block, tries, end, [DataPacket(cfg, block + 1)] + more, [tries] + rest)
  {
    RepeatOnce(DataPacket(cfg, block + 1));
    TranscriptCons(cfg, block, tries, rest);
  }

  /** The three things one answer can do to a server waiting on a block. */
  lemma OnReceiveCases(cfg: Config, s: Server, r: Received)
    requires cfg.Valid() && s.Sending? && s.Valid() && s.block <= Blocks(cfg)
    ensures var (s', sent) := OnReceive(cfg, s, r);
            || (s'.Stopped? && sent == [] && EndsWell(cfg, s.block, [s.tries], s'))
            || (s' == Sending(s.block, s.tries + 1) && s.tries < 5 && sent == [DataPacket(cfg, s.block)]
                && BytesLeft(cfg, s') == BytesLeft(cfg, s))
            || (s' == Sending(s.block + 1, 1) && s.block < Blocks(cfg) && sent == [DataPacket(cfg, s.block + 1)]
                && BytesLeft(cfg, s') < BytesLeft(cfg, s))
  {
    ShortIffLast(cfg, s.block);
  }

  lemma {:induction false} DriveShape(cfg: Config, s: Server, script: seq<Received>) returns (counts: seq<nat>)
    requires cfg.Valid() && s.Sending? && s.Valid() && s.block <= Blocks(cfg)
    ensures var (end, more) := Drive(cfg, s, script); HasShape(cfg, s.block, s.tries, end, more, counts)
    decreases BytesLeft(cfg, s), 5 - s.tries
  {
    var (s', sent) := OnReceive(cfg, s, Head(script));
    var (end, more) := Drive(cfg, s', Tail(script));
    OnReceiveCases(cfg, s, Head(script));
    var rest: seq<nat> := [];
    if s'.Sending? {
      rest := DriveShape(cfg, s', Tail(script));
    }
    counts := ShapeBefore(cfg, s, Head(script), end, more, rest);
  }

  /** From the shape of what follows an answer to the shape of all of it. */
  lemma ShapeBefore(cfg: Config, s: Server, r: Received, end: Server, more: seq<Packet>, rest: seq<nat>)
    returns (counts: seq<nat>)
    requires cfg.Valid() && s.Sending? && s.Valid() && s.block <= Blocks(cfg)
    requires var s' := OnReceive(cfg, s, r).0;
             && (s'.Stopped? ==> end == s' && more == [])
             && (s'.Sending? ==> HasShape(cfg, s'.block, s'.tries, end, more, rest))
    ensures HasShape(cfg, s.block, s.tries, end, OnReceive(cfg, s, r).1 + more, counts)
  {
    var s' := OnReceive(cfg, s, r).0;
    OnReceiveCases(cfg, s, r);
    if s'.Stopped? {
      counts := [s.tries];
      ShapeOfStop(cfg, s.block, s.tries, end);
    } else if s'.block == s.block {
      counts := rest;
      ShapeOfResend(cfg, s.block, s.tries, end, more, rest);
    } else {
      counts := [s.tries] + rest;
      ShapeOfNext(cfg, s.block, s.tries, end, more, rest);
    }
  }

  lemma RepeatOnce(p: Packet)
    ensures Repeat(p, 1) == [p]
  {
    assert Repeat(p, 1) == Repeat(p, 0) + [p];
  }

  lemma TranscriptCons(cfg: Config, k: nat, n: nat, rest: seq<nat>)
    requires 1 <= k
    ensures Transcript(cfg, k, [n] + rest) == Repeat(DataPacket(cfg, k), n) + Transcript(cfg, k + 1, rest)
  {
    assert ([n] + rest)[1..] == rest;
  }

  function Sum(counts: seq<nat>): nat {
    if counts == [] then 0 else counts[0] + Sum(counts[1..])
  }

  lemma {:induction false} TranscriptLength(cfg: Config, k: nat, counts: seq<nat>)
    requires 1 <= k && WithinBudget(counts)
    ensures |Transcript(cfg, k, counts)| == Sum(counts) <= 5 * |counts|
    decreases |counts|
  {
    if counts != [] {
      TranscriptLength(cfg, k + 1, counts[1..]);
    }
  }

  /** Every transfer, whatever the answers: an OACK at most once and first, then
      the blocks in increasing order, each one sent one to five times without
      another block in between. Done means that every block went out and the
      byte count reported is the file's size; giving up means that the last block
      used its whole budget. */
  lemma TransferShape(cfg: Config, oack: Option<Packet>, script: seq<Received>) returns (counts: seq<nat>)
    requires cfg.Valid()
    ensures var (end, sent) := Session(cfg, oack, script);
            && sent == (if oack.Some? then [oack.value] else []) + Transcript(cfg, 1, counts)
            && WithinBudget(counts) && end.block == |counts| <= Blocks(cfg)
            && |sent| <= 1 + 5 * Blocks(cfg)
            && (end.outcome.Done? ==> |counts| == Blocks(cfg) && end.outcome.sent == |cfg.file|)
            && (end.outcome.GaveUp? ==> counts != [] && counts[|counts| - 1] == 5)
            && (counts == [] ==> oack.Some? && end.outcome in {OackTimeout, OackRefused, Malformed})
  {
    if oack.None? {
      counts := PlainShape(cfg, script);
    } else {
      counts := OackShape(cfg, script);
    }
    TranscriptLength(cfg, 1, counts);
  }

  lemma PlainShape(cfg: Config, script: seq<Received>) returns (counts: seq<nat>)
    requires cfg.Valid()
    ensures var (end, sent) := Session(cfg, None, script);
            sent == Transcript(cfg, 1, counts) && EndsWell(cfg, 1, counts, end)
  {
    RepeatOnce(DataPacket(cfg, 1));
    counts := DriveShape(cfg, Sending(1, 1), script);
  }

  lemma OackShape(cfg: Config, script: seq<Received>) returns (counts: seq<nat>)
    requires cfg.Valid()
    ensures var (end, more) := Drive(cfg, AwaitOack, script);
            && more == Transcript(cfg, 1, counts)
            && (counts != [] ==> EndsWell(cfg, 1, counts, end))
            && (counts == [] ==> end.block == 0 && end.outcome in {OackTimeout, OackRefused, Malformed})
  {
    var (s', sent) := OnReceive(cfg, AwaitOack, Head(script));
    if s'.Stopped? {
      counts := [];
    } else {
      RepeatOnce(DataPacket(cfg, 1));
      counts := DriveShape(cfg, s', Tail(script));
    }
  }
}
