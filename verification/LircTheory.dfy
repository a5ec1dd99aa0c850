/** What the burst reader promises for every stream of words, and the round trip
    from remote-control codes to decoded events. */
module LircTheory {
  import opened Common
  import opened NecDecoder
  import opened LircReader

  lemma {:induction false} FeedConcat(s: Reader, a: seq<Token>, b: seq<Token>)
    ensures Feed(s, a + b) == Feed(Feed(s, a), b)
  {
    if b == [] {
      assert a + b == a;
    } else {
      var front, t := b[..|b| - 1], b[|b| - 1];
      FeedConcat(s, a, front);
      FeedSnoc(s, a + front, t);
      assert a + b == a + front + [t];
    }
  }

  lemma FeedSnoc(s: Reader, tokens: seq<Token>, t: Token)
    ensures Feed(s, tokens + [t]) == Step(Feed(s, tokens), t)
  {
    assert (tokens + [t])[..|tokens|] == tokens;
  }

  // ---- words and times ----

  /** The record types of <linux/lirc.h>, in the top byte: 0 a space, 1 a pulse, 3 a
      timeout, 4 an overflow; any other carries no timing. */
  lemma WordsMean(us: nat, kind: nat)
    requires us < 0x100_0000
    ensures Classify(us) == if us < 15000 then ShortSpace(us) else Separator
    ensures Classify(0x100_0000 + us) == PulseOf(us)
    ensures Classify(0x300_0000 + us) == Separator && Classify(0x400_0000 + us) == Separator
    ensures kind == 2 || 4 < kind ==> Classify(kind * 0x100_0000 + us) == Skipped
  {
    assert (kind * 0x100_0000 + us) / 0x100_0000 == kind;
  }

  function Times(edges: Run): (t: seq<nat>)
    ensures |t| == |edges|
  {
    seq(|edges|, i requires 0 <= i < |edges| => edges[i].us)
  }

  function Sum(times: seq<nat>): nat {
    if times == [] then 0 else times[0] + Sum(times[1..])
  }

  /** The duration of a burst is the time of all its edges, pulses and spaces. */
  lemma {:induction false} DurationAdds(a: Run, b: Run)
    ensures Duration(a + b) == Duration(a) + Duration(b)
  {
    if b == [] {
      assert a + b == a;
    } else {
      var front := b[..|b| - 1];
      DurationAdds(a, front);
      assert (a + b)[..|a + b| - 1] == a + front;
    }
  }

  lemma DurationOfOne(e: Edge)
    ensures Duration([e]) == e.us
  {
    assert [e][..0] == [];
  }

  lemma {:induction false} DurationIsSum(edges: Run)
    ensures Duration(edges) == Sum(Times(edges))
  {
    if edges != [] {
      var e, rest := edges[0], edges[1..];
      DurationOfOne(e);
      DurationAdds([e], rest);
      DurationIsSum(rest);
      assert [e] + rest == edges && Times(edges)[1..] == Times(rest);
    }
  }

  /** Count and duration of an event are those of its edges. */
  predicate Measured(e: Event) {
    e.count == |e.edges| && e.duration == Sum(Times(e.edges))
  }

  lemma EventsAreMeasured(first: nat, bursts: seq<Run>)
    ensures forall i :: 0 <= i < |bursts| ==> Measured(EventsOf(first, bursts)[i])
  {
    forall i | 0 <= i < |bursts| ensures Measured(EventsOf(first, bursts)[i]) {
      DurationIsSum(bursts[i]);
    }
  }

  // ---- no pulse is lost, none is made up ----

  function Flat(bursts: seq<Run>): Run {
    if bursts == [] then [] else Flat(bursts[..|bursts| - 1]) + bursts[|bursts| - 1]
  }

  function PulseTimes(run: Run): seq<nat> {
    if run == [] then []
    else
      var e := run[|run| - 1];
      PulseTimes(run[..|run| - 1]) + if e.kind == Pulse then [e.us] else []
  }

  function TokenPulses(tokens: seq<Token>): seq<nat> {
    if tokens == [] then []
    else
      var t := tokens[|tokens| - 1];
      TokenPulses(tokens[..|tokens| - 1]) + if t.PulseOf? then [t.us] else []
  }

  lemma {:induction false} PulsesConcat(a: Run, b: Run)
    ensures PulseTimes(a + b) == PulseTimes(a) + PulseTimes(b)
  {
    if b == [] {
      assert a + b == a;
    } else {
      var front := b[..|b| - 1];
      PulsesConcat(a, front);
      assert (a + b)[..|a + b| - 1] == a + front;
    }
  }

  lemma {:induction false} TrimKeepsPulses(run: Run)
    ensures PulseTimes(TrimEnd(run)) == PulseTimes(run)
  {
    if run != [] && run[|run| - 1].kind != Pulse {
      TrimKeepsPulses(run[..|run| - 1]);
    }
  }

  function Seen(s: Reader): seq<nat> {
    PulseTimes(Flat(s.bursts)) + PulseTimes(s.edges)
  }

  lemma FlushKeepsPulses(bursts: seq<Run>, edges: Run)
    ensures Seen(Reader([], bursts + Flushed(edges))) == Seen(Reader(edges, bursts))
  {
    TrimKeepsPulses(edges);
    var b := TrimEnd(edges);
    if b == [] {
      assert bursts + [] == bursts;
    } else {
      assert (bursts + [b])[..|bursts + [b]| - 1] == bursts;
      PulsesConcat(Flat(bursts), b);
    }
  }

  lemma CollectAddsPulse(edges: Run, t: Token)
    ensures PulseTimes(Collect(edges, t)) == PulseTimes(edges) + if t.PulseOf? then [t.us] else []
  {
    var after := Collect(edges, t);
    if after != edges {
      assert after[..|after| - 1] == edges;
    }
  }

  /** The pulses of the published bursts, then those still being collected, are
      exactly the pulses received, in order. */
  lemma {:induction false} PulsesConserved(tokens: seq<Token>)
    ensures Seen(Feed(IDLE, tokens)) == TokenPulses(tokens)
  {
    if tokens != [] {
      var before, t := tokens[..|tokens| - 1], tokens[|tokens| - 1];
      PulsesConserved(before);
      StepAddsPulse(Feed(IDLE, before), t);
    }
  }

  lemma StepAddsPulse(s: Reader, t: Token)
    ensures Seen(Step(s, t)) == Seen(s) + if t.PulseOf? then [t.us] else []
  {
    SeenCollected(s, t);
    FlushKeepsPulses(s.bursts, Collect(s.edges, t));
  }

  lemma SeenCollected(s: Reader, t: Token)
    ensures Seen(Reader(Collect(s.edges, t), s.bursts)) == Seen(s) + if t.PulseOf? then [t.us] else []
  {
    CollectAddsPulse(s.edges, t);
  }

  // ---- the shape of a burst ----

  predicate InnerEdge(e: Edge) {
    e.kind == Space ==> e.us < 15000
  }

  predicate Collecting(run: Run) {
    (run != [] ==> run[0].kind == Pulse) && forall i :: 0 <= i < |run| ==> InnerEdge(run[i])
  }

  /** Starts and ends with a pulse, at most 2048 edges, no long space inside. */
  predicate WellShaped(run: Run) {
    Collecting(run) && run != [] && run[|run| - 1].kind == Pulse && |run| <= 2048
  }

  /** A token that a 32-bit word can stand for. */
  predicate Received(t: Token) {
    t.ShortSpace? ==> t.us < BURST_GAP_US
  }

  lemma {:induction false} TrimStaysNonempty(run: Run)
    requires run != [] && run[0].kind == Pulse
    ensures TrimEnd(run) != [] && TrimEnd(run)[0] == run[0]
  {
    if run[|run| - 1].kind != Pulse {
      TrimStaysNonempty(run[..|run| - 1]);
    }
  }

  predicate GoodReader(s: Reader) {
    && Collecting(s.edges) && |s.edges| < MAX_BURST_EDGES
    && forall i :: 0 <= i < |s.bursts| ==> WellShaped(s.bursts[i])
  }

  lemma CollectKeepsShape(edges: Run, t: Token)
    requires Collecting(edges) && |edges| < MAX_BURST_EDGES && Received(t)
    ensures Collecting(Collect(edges, t)) && |Collect(edges, t)| <= MAX_BURST_EDGES
    ensures forall i :: 0 <= i < |Flushed(Collect(edges, t))| ==> WellShaped(Flushed(Collect(edges, t))[i])
  {
    var run := Collect(edges, t);
    if run != [] {
      TrimmedIsWellShaped(run);
    }
  }

  lemma TrimmedIsWellShaped(run: Run)
    requires Collecting(run) && run != [] && |run| <= MAX_BURST_EDGES
    ensures WellShaped(TrimEnd(run)) && Flushed(run) == [TrimEnd(run)]
  {
    TrimStaysNonempty(run);
    var r := TrimEnd(run);
    assert forall i :: 0 <= i < |r| ==> r[i] == run[i];
  }

  lemma {:induction false} BurstsAreWellShaped(tokens: seq<Token>)
    requires forall i :: 0 <= i < |tokens| ==> Received(tokens[i])
    ensures GoodReader(Feed(IDLE, tokens))
  {
    if tokens != [] {
      var before, t := tokens[..|tokens| - 1], tokens[|tokens| - 1];
      BurstsAreWellShaped(before);
      CollectKeepsShape(Feed(IDLE, before).edges, t);
    }
  }

  lemma WordsAreReceived(words: seq<nat>)
    ensures forall i :: 0 <= i < |words| ==> Received(Tokens(words)[i])
  {
  }

  /** Whatever words come in. */
  lemma WordsGiveGoodBursts(words: seq<nat>)
    ensures GoodReader(Feed(IDLE, Tokens(words)))
  {
    WordsAreReceived(words);
    BurstsAreWellShaped(Tokens(words));
  }

  // ---- the batch specification ----

  /** The edges of a stretch of tokens without a separator. */
  function Raw(tokens: seq<Token>): Run {
    if tokens == [] then []
    else
      Raw(tokens[..|tokens| - 1]) +
      match tokens[|tokens| - 1]
      case PulseOf(us) => [Edge(Pulse, us)]
      case ShortSpace(us) => [Edge(Space, us)]
      case _ => []
  }

  function TrimStart(run: Run): Run {
    if run != [] && run[0].kind != Pulse then TrimStart(run[1..]) else run
  }

  function FirstSeparator(tokens: seq<Token>): (i: nat)
    ensures i <= |tokens|
    ensures i < |tokens| ==> tokens[i] == Separator
    ensures forall j :: 0 <= j < i ==> tokens[j] != Separator
  {
    if tokens == [] || tokens[0] == Separator then 0 else 1 + FirstSeparator(tokens[1..])
  }

  /** Split at the separators, strip the spaces at both ends, drop what is empty.
      What follows the last separator is not a burst yet. */
  function Batch(tokens: seq<Token>): (r: Reader)
    decreases |tokens|
  {
    var i := FirstSeparator(tokens);
    var run := TrimStart(Raw(tokens[..i]));
    if i == |tokens| then Reader(run, [])
    else
      var rest := Batch(tokens[i + 1..]);
      Reader(rest.edges, Flushed(run) + rest.bursts)
  }

  /** No stretch between separators reaches the size guard. */
  predicate NeverFull(tokens: seq<Token>)
    decreases |tokens|
  {
    var i := FirstSeparator(tokens);
    |TrimStart(Raw(tokens[..i]))| < 2048 && (i < |tokens| ==> NeverFull(tokens[i + 1..]))
  }

  lemma {:induction false} TrimStartSnoc(run: Run, e: Edge)
    ensures TrimStart(run + [e]) == if TrimStart(run) == [] && e.kind != Pulse then [] else TrimStart(run) + [e]
  {
    if run == [] {
      assert TrimStart([e]) == if e.kind != Pulse then TrimStart([e][1..]) else [e];
    } else if run[0].kind != Pulse {
      assert (run + [e])[1..] == run[1..] + [e];
      TrimStartSnoc(run[1..], e);
    }
  }

  /** A stretch without separators, cut where the size guard steps in: from the first
      pulse on, every 2048 edges make a burst. What is left is shorter. */
  function Pieces(run: Run): (r: Reader)
    ensures |r.edges| < 2048
    decreases |run|
  {
    TrimStartShrinks(run);
    var r := TrimStart(run);
    if |r| < 2048 then Reader(r, [])
    else
      var rest := Pieces(r[2048..]);
      Reader(rest.edges, Flushed(r[..2048]) + rest.bursts)
  }

  lemma {:induction false} TrimStartShrinks(run: Run)
    ensures |TrimStart(run)| <= |run|
  {
    if run != [] && run[0].kind != Pulse {
      TrimStartShrinks(run[1..]);
    }
  }

  /** Split at the separators, cut each stretch, strip and drop. */
  function CutBatch(tokens: seq<Token>): (r: Reader)
    decreases |tokens|
  {
    var i := FirstSeparator(tokens);
    var cut := Pieces(Raw(tokens[..i]));
    if i == |tokens| then cut
    else
      var rest := CutBatch(tokens[i + 1..]);
      Reader(rest.edges, cut.bursts + Flushed(cut.edges) + rest.bursts)
  }

  /** One more edge, as the reader collects it. */
  function Push(s: Reader, e: Edge): Reader {
    var edges := if s.edges == [] && e.kind != Pulse then [] else s.edges + [e];
    if MAX_BURST_EDGES <= |edges| then Reader([], s.bursts + Flushed(edges)) else Reader(edges, s.bursts)
  }

  lemma NoPieces()
    ensures Pieces([]) == IDLE
  {
  }

  /** The last piece grows by one edge and may be full now. */
  lemma PushToLast(run: Run, e: Edge)
    requires |TrimStart(run)| < MAX_BURST_EDGES
    ensures Pieces(run + [e]) == Push(Pieces(run), e)
  {
    TrimStartSnoc(run, e);
    var r := TrimStart(run + [e]);
    if |r| == MAX_BURST_EDGES {
      NoPieces();
      assert r[..MAX_BURST_EDGES] == r && r[MAX_BURST_EDGES..] == [];
      assert Flushed(r) + [] == Flushed(r) == [] + Flushed(r);
    }
  }

  lemma PushAfterBurst(s: Reader, bursts: seq<Run>, e: Edge)
    ensures Push(Reader(s.edges, bursts + s.bursts), e)
         == Reader(Push(s, e).edges, bursts + Push(s, e).bursts)
  {
    var edges := if s.edges == [] && e.kind != Pulse then [] else s.edges + [e];
    Regroup(bursts, s.bursts, Flushed(edges));
  }

  lemma {:induction false} PiecesSnoc(run: Run, e: Edge)
    ensures Pieces(run + [e]) == Push(Pieces(run), e)
    decreases |run|
  {
    var r := TrimStart(run);
    if |r| < MAX_BURST_EDGES {
      PushToLast(run, e);
    } else {
      TrimStartShrinks(run);
      TrimStartSnoc(run, e);
      var full, tail := r[..MAX_BURST_EDGES], r[MAX_BURST_EDGES..];
      assert (r + [e])[..MAX_BURST_EDGES] == full && (r + [e])[MAX_BURST_EDGES..] == tail + [e];
      PiecesSnoc(tail, e);
      PushAfterBurst(Pieces(tail), Flushed(full), e);
    }
  }

  /** Without a separator the reader collects what the cut stretch holds. */
  lemma {:induction false} FeedStretch(bursts: seq<Run>, tokens: seq<Token>)
    requires forall i :: 0 <= i < |tokens| ==> tokens[i] != Separator
    ensures var cut := Pieces(Raw(tokens)); Feed(Reader([], bursts), tokens) == Reader(cut.edges, bursts + cut.bursts)
  {
    if tokens == [] {
      NoPieces();
      assert bursts + [] == bursts;
    } else {
      var before, t := tokens[..|tokens| - 1], tokens[|tokens| - 1];
      FeedStretch(bursts, before);
      match t {
        case PulseOf(us) => FeedEdge(bursts, Raw(before), t, Edge(Pulse, us));
        case ShortSpace(us) => FeedEdge(bursts, Raw(before), t, Edge(Space, us));
        case Skipped => assert Raw(before) + [] == Raw(before);
      }
    }
  }

  lemma FeedEdge(bursts: seq<Run>, run: Run, t: Token, e: Edge)
    requires t == if e.kind == Pulse then PulseOf(e.us) else ShortSpace(e.us)
    ensures var cut, cut' := Pieces(run), Pieces(run + [e]);
            Step(Reader(cut.edges, bursts + cut.bursts), t) == Reader(cut'.edges, bursts + cut'.bursts)
  {
    PiecesSnoc(run, e);
    PushAfterBurst(Pieces(run), bursts, e);
    StepIsPush(Reader(Pieces(run).edges, bursts + Pieces(run).bursts), t, e);
  }

  lemma StepIsPush(s: Reader, t: Token, e: Edge)
    requires |s.edges| < MAX_BURST_EDGES && t == if e.kind == Pulse then PulseOf(e.us) else ShortSpace(e.us)
    ensures Step(s, t) == Push(s, e)
  {
  }

  lemma FeedSplit(s: Reader, tokens: seq<Token>, i: nat)
    requires i <= |tokens|
    ensures Feed(s, tokens) == Feed(Feed(s, tokens[..i]), tokens[i..])
  {
    FeedConcat(s, tokens[..i], tokens[i..]);
    assert tokens[..i] + tokens[i..] == tokens;
  }

  lemma Regroup(a: seq<Run>, b: seq<Run>, c: seq<Run>)
    ensures a + b + c == a + (b + c)
  {
  }

  /** A stretch and the separator behind it give the stretch's bursts. */
  lemma FeedOneStretch(bursts: seq<Run>, tokens: seq<Token>, i: nat)
    requires i < |tokens| && tokens[i] == Separator && forall j :: 0 <= j < i ==> tokens[j] != Separator
    ensures var cut := Pieces(Raw(tokens[..i]));
            Feed(Reader([], bursts), tokens[..i + 1]) == Reader([], bursts + (cut.bursts + Flushed(cut.edges)))
  {
    var cut := Pieces(Raw(tokens[..i]));
    FeedStretch(bursts, tokens[..i]);
    FeedOneMore(Reader([], bursts), tokens, i);
    Regroup(bursts, cut.bursts, Flushed(cut.edges));
  }

  ghost predicate FeedsAsBatch(bursts: seq<Run>, tokens: seq<Token>) {
    Feed(Reader([], bursts), tokens) == Reader(CutBatch(tokens).edges, bursts + CutBatch(tokens).bursts)
  }

  lemma LastStretch(bursts: seq<Run>, tokens: seq<Token>)
    requires FirstSeparator(tokens) == |tokens|
    ensures FeedsAsBatch(bursts, tokens)
  {
    assert tokens[..|tokens|] == tokens;
    FeedStretch(bursts, tokens);
  }

  lemma OneMoreStretch(bursts: seq<Run>, tokens: seq<Token>, i: nat, first: seq<Run>)
    requires i == FirstSeparator(tokens) < |tokens|
    requires var cut := Pieces(Raw(tokens[..i])); first == cut.bursts + Flushed(cut.edges)
    requires FeedsAsBatch(bursts + first, tokens[i + 1..])
    ensures FeedsAsBatch(bursts, tokens)
  {
    FeedOneStretch(bursts, tokens, i);
    FeedSplit(Reader([], bursts), tokens, i + 1);
    Regroup(bursts, first, CutBatch(tokens[i + 1..]).bursts);
  }

  lemma {:induction false} FeedIsBatch(bursts: seq<Run>, tokens: seq<Token>)
    ensures FeedsAsBatch(bursts, tokens)
    decreases |tokens|
  {
    var i := FirstSeparator(tokens);
    if i == |tokens| {
      LastStretch(bursts, tokens);
    } else {
      var cut := Pieces(Raw(tokens[..i]));
      var first := cut.bursts + Flushed(cut.edges);
      FeedIsBatch(bursts + first, tokens[i + 1..]);
      OneMoreStretch(bursts, tokens, i, first);
    }
  }

  /** For every stream: the reader splits at the separators, cuts what is too long,
      strips the spaces and drops what is empty. */
  lemma ReaderRefinesCutBatch(tokens: seq<Token>)
    ensures Feed(IDLE, tokens) == CutBatch(tokens)
  {
    FeedIsBatch([], tokens);
    assert [] + CutBatch(tokens).bursts == CutBatch(tokens).bursts;
  }

  lemma {:induction false} NothingToCut(tokens: seq<Token>)
    requires NeverFull(tokens)
    ensures CutBatch(tokens) == Batch(tokens)
    decreases |tokens|
  {
    var i := FirstSeparator(tokens);
    if i < |tokens| {
      NothingToCut(tokens[i + 1..]);
      var run := TrimStart(Raw(tokens[..i]));
      assert [] + Flushed(run) == Flushed(run);
    }
  }

  /** Below the guard nothing is cut: the simple batch specification. */
  lemma ReaderRefinesBatch(tokens: seq<Token>)
    requires NeverFull(tokens)
    ensures Feed(IDLE, tokens) == Batch(tokens)
  {
    ReaderRefinesCutBatch(tokens);
    NothingToCut(tokens);
  }

  // ---- from codes to events ----

  datatype Code = FrameCode(word: nat) | RepeatCode

  predicate Alternates(edges: Run) {
    forall i :: 0 <= i < |edges| ==> edges[i].kind == if i % 2 == 0 then Pulse else Space
  }

  /** An emission of a code, each edge anywhere in its band: header pulse, gap, the
      32 bits of a frame lowest first, and the pulse that ends the last space. */
  predicate Emits(edges: Run, code: Code) {
    && Alternates(edges) && 3 <= |edges| && IsHeader(edges[0]) && IsMark(edges[|edges| - 1].us)
    && match code
       case RepeatCode => |edges| == 3 && IsRepeatGap(edges[1].us)
       case FrameCode(w) =>
         |edges| == 67 && w < Pow2(32) && IsFrameGap(edges[1].us) &&
         forall j :: 0 <= j < 32 ==> EmitsBit(edges, j, Bits(w, 32)[j])
  }

  /** Pair j: a mark, then a short space for 0 and a long one for 1. */
  predicate EmitsBit(edges: Run, j: nat, bit: nat)
    requires 2 * j + 3 < |edges|
  {
    IsMark(edges[2 * j + 2].us) &&
    if bit == 0 then IsMark(edges[2 * j + 3].us) else IsOneGap(edges[2 * j + 3].us)
  }

  lemma EmittedBitIsRead(edges: Run, j: nat, bit: nat)
    requires Alternates(edges) && 2 * j + 3 < |edges| && bit <= 1 && EmitsBit(edges, j, bit)
    ensures PairAt(edges, j) == Some(bit)
    ensures edges[2 * j + 2].us < BURST_GAP_US && edges[2 * j + 3].us < BURST_GAP_US
  {
    assert edges[2 * j + 2].kind == Pulse && edges[2 * j + 3].kind == Space;
  }

  /** An emission and the word that ends it: a space of 15 ms or more, a timeout or
      an overflow. */
  datatype Sent = Sent(code: Code, edges: Run, end: nat) {
    predicate Valid() {
      Emits(edges, code) && Classify(end) == Separator
    }
  }

  function WordOf(e: Edge): nat {
    (if e.kind == Pulse then TYPE_UNIT else 0) + e.us
  }

  function WordsOf(edges: Run): (w: seq<nat>)
    ensures |w| == |edges|
  {
    seq(|edges|, i requires 0 <= i < |edges| => WordOf(edges[i]))
  }

  function Stream(sents: seq<Sent>): seq<nat> {
    if sents == [] then []
    else Stream(sents[..|sents| - 1]) + WordsOf(sents[|sents| - 1].edges) + [sents[|sents| - 1].end]
  }

  predicate Means(d: Option<Decoded>, code: Code) {
    match code
    case RepeatCode => d == Some(Repeat)
    case FrameCode(w) => d.Some? && d.value.Frame? && d.value.raw == w
  }

  lemma EmissionDecodes(edges: Run, code: Code)
    requires Emits(edges, code)
    ensures Means(Decode(edges), code)
  {
    if code.FrameCode? {
      forall j | 0 <= j < 32 ensures PairAt(edges, j) == Some(Bits(code.word, 32)[j]) {
        EmittedBitIsRead(edges, j, Bits(code.word, 32)[j]);
      }
      assert StartsFrame(edges);
      FrameIffCarries(edges, code.word);
    }
  }

  /** A frame as the protocol defines it, with the timings of the NEC format. */
  function NominalFrame(bits: seq<nat>): Run
    requires |bits| == 32
  {
    [Edge(Pulse, 9000), Edge(Space, 4500)] +
    seq(64, i requires 0 <= i < 64 =>
      if i % 2 == 0 then Edge(Pulse, 560) else Edge(Space, if bits[i / 2] == 0 then 560 else 1690)) +
    [Edge(Pulse, 560)]
  }

  function Nominal(code: Code): Run {
    match code
    case RepeatCode => [Edge(Pulse, 9000), Edge(Space, 2250), Edge(Pulse, 560)]
    case FrameCode(w) => NominalFrame(Bits(w, 32))
  }

  lemma NominalEdge(bits: seq<nat>, i: nat)
    requires |bits| == 32 && i < 64
    ensures var edges := NominalFrame(bits);
            |edges| == 67 && edges[i + 2] ==
              if i % 2 == 0 then Edge(Pulse, 560) else Edge(Space, if bits[i / 2] == 0 then 560 else 1690)
  {
  }

  lemma NominalAlternates(bits: seq<nat>)
    requires |bits| == 32
    ensures Alternates(NominalFrame(bits))
  {
    var edges := NominalFrame(bits);
    forall i | 0 <= i < |edges| ensures edges[i].kind == if i % 2 == 0 then Pulse else Space {
      if 2 <= i < 66 {
        NominalEdge(bits, i - 2);
      }
    }
  }

  lemma NominalBit(bits: seq<nat>, j: nat)
    requires |bits| == 32 && j < 32
    ensures |NominalFrame(bits)| == 67 && EmitsBit(NominalFrame(bits), j, bits[j])
  {
    NominalEdge(bits, 2 * j);
    NominalEdge(bits, 2 * j + 1);
  }

  lemma NominalEmits(w: nat)
    requires w < Pow2(32)
    ensures Emits(Nominal(FrameCode(w)), FrameCode(w))
  {
    var bits := Bits(w, 32);
    NominalAlternates(bits);
    forall j | 0 <= j < 32 ensures EmitsBit(NominalFrame(bits), j, bits[j]) {
      NominalBit(bits, j);
    }
  }

  /** The ideal encoder emits its code, and the decoder undoes it. */
  lemma NominalDecodes(code: Code)
    requires code.FrameCode? ==> code.word < Pow2(32)
    ensures Emits(Nominal(code), code) && Means(Decode(Nominal(code)), code)
  {
    if code.FrameCode? {
      NominalEmits(code.word);
    }
    EmissionDecodes(Nominal(code), code);
  }

  predicate Transmittable(edges: Run) {
    forall i :: 0 <= i < |edges| ==> edges[i].us < BURST_GAP_US
  }

  lemma EmissionIsTransmittable(edges: Run, code: Code)
    requires Emits(edges, code)
    ensures Transmittable(edges) && |edges| < MAX_BURST_EDGES
  {
    if code.FrameCode? {
      forall i | 2 <= i < 66 ensures edges[i].us < BURST_GAP_US {
        var j := i / 2 - 1;
        EmittedBitIsRead(edges, j, Bits(code.word, 32)[j]);
        assert i == 2 * j + 2 || i == 2 * j + 3;
      }
    }
  }

  lemma {:induction false} FeedEmission(bursts: seq<Run>, edges: Run)
    requires edges != [] ==> edges[0].kind == Pulse
    requires Transmittable(edges) && |edges| < MAX_BURST_EDGES
    ensures Feed(Reader([], bursts), Tokens(WordsOf(edges))) == Reader(edges, bursts)
  {
    if edges != [] {
      var front, e := edges[..|edges| - 1], edges[|edges| - 1];
      FeedEmission(bursts, front);
      var tokens := Tokens(WordsOf(edges));
      assert tokens[..|tokens| - 1] == Tokens(WordsOf(front));
      assert tokens[|tokens| - 1] == if e.kind == Pulse then PulseOf(e.us) else ShortSpace(e.us);
      assert front + [e] == edges;
    }
  }

  lemma TokensConcat(a: seq<nat>, b: seq<nat>)
    ensures Tokens(a + b) == Tokens(a) + Tokens(b)
  {
  }

  function EdgesOf(sents: seq<Sent>): (r: seq<Run>)
    ensures |r| == |sents|
  {
    seq(|sents|, i requires 0 <= i < |sents| => sents[i].edges)
  }

  lemma OneEmission(bursts: seq<Run>, s: Sent)
    requires s.Valid()
    ensures Feed(Reader([], bursts), Tokens(WordsOf(s.edges) + [s.end])) == Reader([], bursts + [s.edges])
  {
    EmissionIsTransmittable(s.edges, s.code);
    FeedEmission(bursts, s.edges);
    var words := WordsOf(s.edges) + [s.end];
    var n := |s.edges|;
    assert Tokens(words)[..n] == Tokens(WordsOf(s.edges));
    assert Tokens(words)[..n + 1] == Tokens(words);
    FeedOneMore(Reader([], bursts), Tokens(words), n);
    LastIsPulse(s.edges, s.code);
  }

  lemma LastIsPulse(edges: Run, code: Code)
    requires Emits(edges, code)
    ensures Flushed(edges) == [edges]
  {
    assert edges[|edges| - 1].kind == Pulse;
  }

  ghost predicate Cut(sents: seq<Sent>) {
    Feed(IDLE, Tokens(Stream(sents))) == Reader([], EdgesOf(sents))
  }

  lemma CutOneMore(before: seq<Sent>, s: Sent)
    requires Cut(before) && s.Valid()
    ensures Cut(before + [s])
  {
    var tail := WordsOf(s.edges) + [s.end];
    OneEmission(EdgesOf(before), s);
    TokensConcat(Stream(before), tail);
    FeedConcat(IDLE, Tokens(Stream(before)), Tokens(tail));
    StreamOneMore(before, s);
  }

  lemma StreamOneMore(before: seq<Sent>, s: Sent)
    ensures Stream(before + [s]) == Stream(before) + (WordsOf(s.edges) + [s.end])
    ensures EdgesOf(before + [s]) == EdgesOf(before) + [s.edges]
  {
    var sents := before + [s];
    assert sents[..|sents| - 1] == before;
  }

  lemma {:induction false} StreamIsCut(sents: seq<Sent>)
    requires forall i :: 0 <= i < |sents| ==> sents[i].Valid()
    ensures Cut(sents)
  {
    if sents == [] {
      assert Tokens([]) == [] && EdgesOf([]) == [];
    } else {
      var before, s := sents[..|sents| - 1], sents[|sents| - 1];
      StreamIsCut(before);
      CutOneMore(before, s);
      assert before + [s] == sents;
    }
  }

  /** End to end: any codes, emitted with any timing inside the bands, come out as
      one event each, in order, numbered from `first`, with the code decoded, and
      the buffer is empty again. */
  lemma CodesRoundTrip(first: nat, sents: seq<Sent>)
    requires forall i :: 0 <= i < |sents| ==> sents[i].Valid()
    ensures var s := Feed(IDLE, Tokens(Stream(sents)));
            var events := EventsOf(first, s.bursts);
            && s.edges == [] && |events| == |sents|
            && forall i :: 0 <= i < |events| ==> Reports(events[i], first + i, sents[i])
  {
    StreamIsCut(sents);
    var events := EventsOf(first, EdgesOf(sents));
    EventsAreMeasured(first, EdgesOf(sents));
    forall i | 0 <= i < |sents| ensures Reports(events[i], first + i, sents[i]) {
      assert sents[i].Valid();
      EmissionDecodes(sents[i].edges, sents[i].code);
    }
  }

  predicate Reports(e: Event, number: nat, s: Sent) {
    e.number == number && e.edges == s.edges && Measured(e) && Means(e.decoded, s.code)
  }

  // ---- the loop itself ----

  /** The reading loop on any words at all: every event is a well-shaped burst with
      its count, and no pulse is lost between the events and the buffer. */
  method ReceiveWords(reader: LircReader, words: seq<nat>) returns (edges: Run)
    modifies reader
    ensures old(reader.published) <= reader.published
    ensures |reader.published| - |old(reader.published)| == reader.sequence - old(reader.sequence)
    ensures forall i :: |old(reader.published)| <= i < |reader.published| ==>
              var e := reader.published[i];
              && WellShaped(e.edges) && Measured(e) && e.decoded == Decode(e.edges)
              && e.number == old(reader.sequence) + 1 + i - |old(reader.published)|
    ensures Collecting(edges) && |edges| < MAX_BURST_EDGES
    ensures PulsesOf(reader.published[|old(reader.published)|..]) + PulseTimes(edges) == TokenPulses(Tokens(words))
  {
    edges := reader.Run(words);
    ghost var bursts := Feed(IDLE, Tokens(words)).bursts;
    WordsGiveGoodBursts(words);
    PulsesConserved(Tokens(words));
    EventsHoldPulses(old(reader.sequence) + 1, bursts);
    EventsAreMeasured(old(reader.sequence) + 1, bursts);
    assert reader.published[|old(reader.published)|..] == EventsOf(old(reader.sequence) + 1, bursts);
  }

  /** The pulses that subscribers get to see. */
  function PulsesOf(events: seq<Event>): seq<nat> {
    if events == [] then [] else PulsesOf(events[..|events| - 1]) + PulseTimes(events[|events| - 1].edges)
  }

  lemma {:induction false} EventsHoldPulses(first: nat, bursts: seq<Run>)
    ensures PulsesOf(EventsOf(first, bursts)) == PulseTimes(Flat(bursts))
  {
    if bursts != [] {
      var front, last := bursts[..|bursts| - 1], bursts[|bursts| - 1];
      EventsHoldPulses(first, front);
      PulsesConcat(Flat(front), last);
      EventsBefore(first, bursts);
    }
  }

  lemma EventsBefore(first: nat, bursts: seq<Run>)
    requires bursts != []
    ensures var events := EventsOf(first, bursts);
            && events[..|events| - 1] == EventsOf(first, bursts[..|bursts| - 1])
            && events[|events| - 1].edges == bursts[|bursts| - 1]
  {
  }

  /** The round trip on the loop: fed the words of any emissions, it publishes one
      event for each, numbered on from the last, in order and decoded, and is left
      with nothing in its buffer. */
  method ReceiveCodes(reader: LircReader, ghost sents: seq<Sent>, words: seq<nat>) returns (edges: Run)
    requires words == Stream(sents) && forall i :: 0 <= i < |sents| ==> sents[i].Valid()
    modifies reader
    ensures edges == [] && reader.sequence == old(reader.sequence) + |sents|
    ensures old(reader.published) <= reader.published && |reader.published| == |old(reader.published)| + |sents|
    ensures forall i :: 0 <= i < |sents| ==>
              Reports(reader.published[|old(reader.published)| + i], old(reader.sequence) + 1 + i, sents[i])
  {
    edges := reader.Run(words);
    CodesRoundTrip(old(reader.sequence) + 1, sents);
  }
}
