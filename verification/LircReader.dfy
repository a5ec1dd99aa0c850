/** LircReader: cuts the mode2 words of /dev/lirc0 into bursts and decodes them. */
module LircReader {
  import opened Common
  import opened NecDecoder

  const BURST_GAP_US: nat := 15000
  const MAX_BURST_EDGES: nat := 2048

  /** A 32-bit word: record type in the top byte, microseconds below. */
  const TYPE_UNIT: nat := 0x100_0000

  /** What a word means to the reader. A long space, a timeout and an overflow all
      end a burst; frequency and unknown records are skipped. */
  datatype Token = PulseOf(us: nat) | ShortSpace(us: nat) | Separator | Skipped

  function Classify(word: nat): Token {
    var kind, us := word / TYPE_UNIT, word % TYPE_UNIT;
    if kind == 1 then PulseOf(us)
    else if kind == 0 then if BURST_GAP_US <= us then Separator else ShortSpace(us)
    else if kind == 3 || kind == 4 then Separator
    else Skipped
  }

  type Run = seq<Edge>

  /** A burst without the spaces at its end. */
  function TrimEnd(run: Run): (r: Run)
    ensures r <= run && (r != [] ==> r[|r| - 1].kind == Pulse)
  {
    if run != [] && run[|run| - 1].kind != Pulse then TrimEnd(run[..|run| - 1]) else run
  }

  function Flushed(run: Run): seq<Run> {
    if TrimEnd(run) == [] then [] else [TrimEnd(run)]
  }

  /** The edges collected so far and the bursts published so far. */
  datatype Reader = Reader(edges: Run, bursts: seq<Run>)

  function Collect(edges: Run, t: Token): Run {
    match t
    case PulseOf(us) => edges + [Edge(Pulse, us)]
    case ShortSpace(us) => if edges == [] then [] else edges + [Edge(Space, us)]
    case _ => edges
  }

  function Step(s: Reader, t: Token): Reader {
    var edges := Collect(s.edges, t);
    if t == Skipped then s
    else if t == Separator || MAX_BURST_EDGES <= |edges| then Reader([], s.bursts + Flushed(edges))
    else Reader(edges, s.bursts)
  }

  function Feed(s: Reader, tokens: seq<Token>): Reader {
    if tokens == [] then s else Step(Feed(s, tokens[..|tokens| - 1]), tokens[|tokens| - 1])
  }

  const IDLE := Reader([], [])

  function Tokens(words: seq<nat>): (t: seq<Token>)
    ensures |t| == |words|
  {
    seq(|words|, i requires 0 <= i < |words| => Classify(words[i]))
  }

  function Duration(edges: Run): nat {
    if edges == [] then 0 else Duration(edges[..|edges| - 1]) + edges[|edges| - 1].us
  }

  /** What subscribers get to see of a burst. */
  datatype Event = Burst(number: nat, edges: Run, count: nat, duration: nat, decoded: Option<Decoded>)

  function EventOf(number: nat, burst: Run): Event {
    Burst(number, burst, |burst|, Duration(burst), Decode(burst))
  }

  function EventsOf(first: nat, bursts: seq<Run>): (e: seq<Event>)
    ensures |e| == |bursts|
  {
    seq(|bursts|, i requires 0 <= i < |bursts| => EventOf(first + i, bursts[i]))
  }

  /** The counter and the published events after some more bursts. */
  ghost predicate Advanced(seq0: nat, events0: seq<Event>, bursts: seq<Run>, seq1: nat, events1: seq<Event>) {
    seq1 == seq0 + |bursts| && events1 == events0 + EventsOf(seq0 + 1, bursts)
  }

  lemma AdvancedTwice(seq0: nat, events0: seq<Event>, a: seq<Run>, seq1: nat, events1: seq<Event>,
                      b: seq<Run>, seq2: nat, events2: seq<Event>)
    requires Advanced(seq0, events0, a, seq1, events1) && Advanced(seq1, events1, b, seq2, events2)
    ensures Advanced(seq0, events0, a + b, seq2, events2)
  {
    assert EventsOf(seq0 + 1, a + b) == EventsOf(seq0 + 1, a) + EventsOf(seq1 + 1, b);
  }

  lemma AdvancedByNothing(seq0: nat, events0: seq<Event>)
    ensures Advanced(seq0, events0, [], seq0, events0)
  {
    assert EventsOf(seq0 + 1, []) == [];
  }

  /** The step function, case by case as the loop distinguishes them. */
  lemma StepOnWord(collected: Run, word: nat)
    ensures var kind, us := word / TYPE_UNIT, word % TYPE_UNIT;
            var full := (run: Run) => if MAX_BURST_EDGES <= |run| then Reader([], Flushed(run)) else Reader(run, []);
            Step(Reader(collected, []), Classify(word)) ==
            if kind == 1 then full(collected + [Edge(Pulse, us)])
            else if kind == 0 && us < BURST_GAP_US && collected != [] then full(collected + [Edge(Space, us)])
            else if kind == 0 && us < BURST_GAP_US then Reader([], [])
            else if kind == 0 || kind == 3 || kind == 4 then Reader([], Flushed(collected))
            else Reader(collected, [])
  {
    assert [] + Flushed(collected) == Flushed(collected);
    assert [] + Flushed(Collect(collected, Classify(word))) == Flushed(Collect(collected, Classify(word)));
  }

  class LircReader {
    var sequence: nat
    var published: seq<Event>

    constructor ()
      ensures sequence == 0 && published == []
    {
      sequence, published := 0, [];
    }

    /** _flush: pops the spaces at the end, then publishes what is left. */
    method Flush(edges: Run)
      modifies this
      ensures Advanced(old(sequence), old(published), Flushed(edges), sequence, published)
    {
      var rest := edges;
      while rest != [] && rest[|rest| - 1].kind == Space
        invariant TrimEnd(rest) == TrimEnd(edges)
        decreases |rest|
      {
        rest := rest[..|rest| - 1];
      }
      if rest == [] {
        AdvancedByNothing(sequence, published);
        return;
      }
      sequence := sequence + 1;
      var duration := 0;
      for i := 0 to |rest|
        invariant duration == Duration(rest[..i])
      {
        assert rest[..i + 1][..i] == rest[..i];
        duration := duration + rest[i].us;
      }
      assert rest[..|rest|] == rest;
      var decoded := DecodeNec(rest);
      published := published + [Burst(sequence, rest, |rest|, duration, decoded)];
    }

    /** The guard against a burst that never ends. */
    method FlushIfFull(collected: Run) returns (edges: Run)
      modifies this
      ensures edges == (if MAX_BURST_EDGES <= |collected| then [] else collected)
      ensures Advanced(old(sequence), old(published),
                       if MAX_BURST_EDGES <= |collected| then Flushed(collected) else [], sequence, published)
    {
      edges := collected;
      if MAX_BURST_EDGES <= |edges| {
        Flush(edges);
        edges := [];
      } else {
        AdvancedByNothing(sequence, published);
      }
    }

    /** One word: the body of the reading loop. */
    method TakeWord(word: nat, collected: Run) returns (edges: Run)
      modifies this
      ensures edges == Step(Reader(collected, []), Classify(word)).edges
      ensures Advanced(old(sequence), old(published),
                       Step(Reader(collected, []), Classify(word)).bursts, sequence, published)
    {
      var kind, duration := word / TYPE_UNIT, word % TYPE_UNIT;
      edges := collected;
      StepOnWord(collected, word);
      AdvancedByNothing(sequence, published);
      if kind == 1 {
        edges := FlushIfFull(edges + [Edge(Pulse, duration)]);
      } else if kind == 0 {
        if edges != [] && BURST_GAP_US <= duration {
          Flush(edges);
          edges := [];
        } else if edges != [] {
          edges := FlushIfFull(edges + [Edge(Space, duration)]);
        }
      } else if kind == 3 || kind == 4 {
        if edges != [] {
          Flush(edges);
          edges := [];
        }
      }
    }

    /** The reading loop on the words that have come in so far; `edges` is the
        burst still being collected. */
    method Run(words: seq<nat>) returns (edges: Run)
      modifies this
      ensures edges == Feed(IDLE, Tokens(words)).edges
      ensures Advanced(old(sequence), old(published), Feed(IDLE, Tokens(words)).bursts, sequence, published)
    {
      edges := [];
      AdvancedByNothing(sequence, published);
      for i := 0 to |words|
        invariant edges == Feed(IDLE, Tokens(words)[..i]).edges
        invariant Advanced(old(sequence), old(published), Feed(IDLE, Tokens(words)[..i]).bursts, sequence, published)
      {
        ghost var s, t := Feed(IDLE, Tokens(words)[..i]), Classify(words[i]);
        FeedOneMore(IDLE, Tokens(words), i);
        StepAppends(s, t);
        ghost var seq1, events1 := sequence, published;
        edges := TakeWord(words[i], edges);
        AdvancedTwice(old(sequence), old(published), s.bursts, seq1, events1,
                      Step(Reader(s.edges, []), t).bursts, sequence, published);
      }
      assert Tokens(words)[..|words|] == Tokens(words);
    }
  }

  lemma FeedOneMore(s: Reader, tokens: seq<Token>, i: nat)
    requires i < |tokens|
    ensures Feed(s, tokens[..i + 1]) == Step(Feed(s, tokens[..i]), tokens[i])
  {
    assert tokens[..i + 1][..i] == tokens[..i];
  }

  /** A step only appends to what has been published. */
  lemma StepAppends(s: Reader, t: Token)
    ensures var d := Step(Reader(s.edges, []), t);
            Step(s, t) == Reader(d.edges, s.bursts + d.bursts)
  {
  }
}
