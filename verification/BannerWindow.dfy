/** uart-term --catch: watching the serial output through a sliding window. */
module BannerWindow {
  const BANNERS := ["Bootrom start", "Fastboot 3.3.0"]
  const PROMPT := "fastboot#"
  const TOO_LATE := ["Starting kernel", "Uncompressing Linux"]

  const WINDOW: nat := 4096

  /** The longest pattern has 19 bytes, so a read may bring this many for the
      window to keep the 18 before it. */
  const SAFE_READ: nat := 4078

  predicate MatchAt(pattern: string, s: string, i: nat) {
    i + |pattern| <= |s| && s[i..i + |pattern|] == pattern
  }

  /** `pattern in s` */
  predicate Occurs(pattern: string, s: string) {
    exists i :: 0 <= i <= |s| && MatchAt(pattern, s, i)
  }

  predicate HasBanner(s: string) {
    Occurs(BANNERS[0], s) || Occurs(BANNERS[1], s)
  }

  predicate HasEnd(s: string) {
    Occurs(PROMPT, s) || Occurs(TOO_LATE[0], s) || Occurs(TOO_LATE[1], s)
  }

  /** s[-4096:] */
  function Recent(s: string): string {
    if WINDOW < |s| then s[|s| - WINDOW..] else s
  }

  /** The bytes since the last reset, after one more chunk. */
  function Since(history: string, chunk: string): string {
    if HasEnd(history + chunk) then "" else history + chunk
  }

  lemma OccursInLonger(pattern: string, s: string, front: string)
    requires Occurs(pattern, s)
    ensures Occurs(pattern, front + s)
  {
    var i :| 0 <= i <= |s| && MatchAt(pattern, s, i);
    assert MatchAt(pattern, front + s, |front| + i);
  }

  lemma OccursInFront(pattern: string, s: string, more: string)
    requires Occurs(pattern, s)
    ensures Occurs(pattern, s + more)
  {
    var i :| 0 <= i <= |s| && MatchAt(pattern, s, i);
    assert MatchAt(pattern, s + more, i);
  }

  /** A pattern that the chunk completes lies in the window. */
  lemma CompletedIsVisible(pattern: string, history: string, chunk: string)
    requires 1 <= |pattern| <= 19 && |chunk| <= SAFE_READ
    requires Occurs(pattern, history + chunk) && !Occurs(pattern, history)
    ensures Occurs(pattern, Recent(history + chunk))
  {
    var s := history + chunk;
    var i :| 0 <= i <= |s| && MatchAt(pattern, s, i);
    assert i + |pattern| <= |history| ==> MatchAt(pattern, history, i);
    if WINDOW < |s| {
      var d := |s| - WINDOW;
      assert MatchAt(pattern, Recent(s), i - d);
    }
  }

  /** And one that is not in the whole history is not in the window either. */
  lemma VisibleIsReal(pattern: string, s: string)
    requires Occurs(pattern, Recent(s))
    ensures Occurs(pattern, s)
  {
    if WINDOW < |s| {
      OccursInLonger(pattern, Recent(s), s[..|s| - WINDOW]);
      assert s[..|s| - WINDOW] + Recent(s) == s;
    }
  }

  /** The window after a chunk is the end of the history, whatever was cut before. */
  lemma RecentComposes(history: string, chunk: string)
    ensures Recent(Recent(history) + chunk) == Recent(history + chunk)
  {
  }

  lemma PatternSizes()
    ensures |BANNERS| == 2 && |BANNERS[0]| == 13 && |BANNERS[1]| == 14
    ensures |PROMPT| == 9 && |TOO_LATE| == 2 && |TOO_LATE[0]| == 15 && |TOO_LATE[1]| == 19
  {
  }

  lemma EndVisible(history: string, chunk: string)
    requires |chunk| <= SAFE_READ && !HasEnd(history)
    ensures HasEnd(Recent(history + chunk)) <==> HasEnd(history + chunk)
  {
    PatternSizes();
    forall pattern | pattern in {PROMPT, TOO_LATE[0], TOO_LATE[1]}
      ensures Occurs(pattern, Recent(history + chunk)) <==> Occurs(pattern, history + chunk)
    {
      if Occurs(pattern, history + chunk) {
        CompletedIsVisible(pattern, history, chunk);
      } else if Occurs(pattern, Recent(history + chunk)) {
        VisibleIsReal(pattern, history + chunk);
      }
    }
  }

  lemma BannerVisible(history: string, chunk: string)
    requires |chunk| <= SAFE_READ
    ensures HasBanner(history) || HasBanner(Recent(history + chunk)) <==> HasBanner(history + chunk)
  {
    PatternSizes();
    forall pattern | pattern in {BANNERS[0], BANNERS[1]}
      ensures Occurs(pattern, history) || Occurs(pattern, Recent(history + chunk)) <==> Occurs(pattern, history + chunk)
    {
      if Occurs(pattern, history) {
        OccursInFront(pattern, history, chunk);
      } else if Occurs(pattern, history + chunk) {
        CompletedIsVisible(pattern, history, chunk);
      } else if Occurs(pattern, Recent(history + chunk)) {
        VisibleIsReal(pattern, history + chunk);
      }
    }
  }

  // ---- the detector ----

  datatype Detector = Detector(window: string, armed: bool)

  const FRESH := Detector("", false)

  /** What one read does to the detector, whatever its size. */
  function Step(d: Detector, chunk: string): Detector {
    var window := Recent(d.window + chunk);
    if chunk == "" then d
    else if HasEnd(window) then FRESH
    else Detector(window, d.armed || HasBanner(window))
  }

  /** How many Ctrl+C go out because of it: 64 on arming, 8 on each turn while armed. */
  function Hammer(d: Detector, chunk: string): nat {
    (if chunk != "" && !d.armed && HasBanner(Recent(d.window + chunk)) then 64 else 0) +
    (if Step(d, chunk).armed then 8 else 0)
  }

  function Detect(chunks: seq<string>): Detector {
    if chunks == [] then FRESH else Step(Detect(chunks[..|chunks| - 1]), chunks[|chunks| - 1])
  }

  /** The bytes since the last reset, had no end pattern been missed. */
  function History(chunks: seq<string>): string {
    if chunks == [] then "" else Since(History(chunks[..|chunks| - 1]), chunks[|chunks| - 1])
  }

  /** The detector knows as much as if it had kept everything: it is armed exactly
      when a banner has come since the last reset. */
  predicate Agrees(d: Detector, history: string) {
    d.window == Recent(history) && !HasEnd(history) && (d.armed <==> HasBanner(history))
  }

  lemma NothingYet()
    ensures Agrees(FRESH, "")
  {
    PatternSizes();
  }

  /** A read that is not too long keeps the agreement: the detector resets exactly
      when the read completes a prompt or a sign that it is too late, and hammers
      for exactly the banners that come. */
  lemma StepAgrees(d: Detector, history: string, chunk: string)
    requires Agrees(d, history) && |chunk| <= SAFE_READ
    ensures Agrees(Step(d, chunk), Since(history, chunk))
    ensures Hammer(d, chunk) == (if !HasBanner(history) && HasBanner(history + chunk) then 64 else 0)
                              + (if HasBanner(Since(history, chunk)) then 8 else 0)
  {
    if chunk == "" {
      assert history + chunk == history;
    } else {
      EndVisible(history, chunk);
      BannerVisible(history, chunk);
      RecentComposes(history, chunk);
      NothingYet();
    }
  }

  predicate ReadsUpTo(chunks: seq<string>, n: nat) {
    forall i :: 0 <= i < |chunks| ==> |chunks[i]| <= n
  }

  lemma {:induction false} ShortReadsAgree(chunks: seq<string>)
    requires ReadsUpTo(chunks, SAFE_READ)
    ensures Agrees(Detect(chunks), History(chunks))
  {
    if chunks == [] {
      NothingYet();
    } else {
      ShortReadsAgree(chunks[..|chunks| - 1]);
      StepAgrees(Detect(chunks[..|chunks| - 1]), History(chunks[..|chunks| - 1]), chunks[|chunks| - 1]);
    }
  }

  class Catcher {
    var window: string
    var armed: bool

    /** How many Ctrl+C have gone out. */
    var hammered: nat

    /** Everything received since the last reset, had none been missed. */
    ghost var history: string

    function State(): Detector
      reads this
    {
      Detector(window, armed)
    }

    constructor ()
      ensures State() == FRESH && history == "" && hammered == 0
    {
      window, armed, hammered, history := "", false, 0, "";
    }

    /** One turn of the loop with what the port had to say. */
    method Turn(chunk: string)
      modifies this
      ensures State() == Step(old(State()), chunk) && history == Since(old(history), chunk)
      ensures hammered == old(hammered) + Hammer(old(State()), chunk)
      ensures old(Agrees(State(), history)) && |chunk| <= SAFE_READ ==>
                && Agrees(State(), history)
                && hammered == old(hammered)
                             + (if !old(armed) && HasBanner(old(history) + chunk) then 64 else 0)
                             + (if HasBanner(history) then 8 else 0)
    {
      if Agrees(State(), history) && |chunk| <= SAFE_READ {
        StepAgrees(State(), history, chunk);
      }
      history := Since(history, chunk);
      if chunk != "" {
        window := Recent(window + chunk);
        if !armed && HasBanner(window) {
          armed := true;
          hammered := hammered + 64;
        }
        if HasEnd(window) {
          armed := false;
          window := "";
        }
      }
      if armed {
        hammered := hammered + 8;
      }
    }
  }

  /** The loop over any reads; where none is too long, it ends armed exactly when a
      banner has come since the last end pattern. */
  method Watch(chunks: seq<string>) returns (armed: bool)
    ensures armed <==> Detect(chunks).armed
    ensures ReadsUpTo(chunks, SAFE_READ) ==> (armed <==> HasBanner(History(chunks)))
  {
    var c := new Catcher();
    for i := 0 to |chunks|
      invariant c.State() == Detect(chunks[..i])
    {
      assert chunks[..i + 1][..i] == chunks[..i];
      c.Turn(chunks[i]);
    }
    assert chunks[..|chunks|] == chunks;
    armed := c.armed;
    if ReadsUpTo(chunks, SAFE_READ) {
      ShortReadsAgree(chunks);
    }
  }

  // ---- longer reads ----

  lemma AbsentByte(pattern: string, j: nat, s: string)
    requires j < |pattern| && pattern[j] !in s
    ensures !Occurs(pattern, s)
  {
    forall i | 0 <= i <= |s| ensures !MatchAt(pattern, s, i) {
      if i + |pattern| <= |s| {
        assert s[i..i + |pattern|][j] == s[i + j];
      }
    }
  }

  /** A banner and all but the last byte of an end pattern; then, within the 4096
      bytes that a read asks for, that byte and noise. */
  function FirstRead(): string {
    "Bootrom startUncompressing Linu"
  }

  function LongRead(): (r: string)
    ensures |r| == SAFE_READ + 1 <= 4096
  {
    "x" + seq(SAFE_READ, _ => '.')
  }

  lemma FirstReadArms()
    ensures HasBanner(FirstRead()) && !HasEnd(FirstRead())
    ensures Step(FRESH, FirstRead()) == Detector(FirstRead(), true)
  {
    PatternSizes();
    assert MatchAt(BANNERS[0], FirstRead(), 0);
    NoEndInFirstRead();
    assert "" + FirstRead() == FirstRead();
  }

  lemma NoEndInFirstRead()
    ensures !HasEnd(FirstRead())
  {
    AbsentByte(PROMPT, 0, FirstRead());
    AbsentByte(TOO_LATE[0], 0, FirstRead());
    AbsentByte(TOO_LATE[1], 18, FirstRead());
  }

  /** The window has lost the start of the pattern that the read completes. */
  lemma LongReadHides()
    ensures HasEnd(FirstRead() + LongRead())
    ensures Step(Detector(FirstRead(), true), LongRead()).armed
  {
    var s := FirstRead() + LongRead();
    PatternSizes();
    assert MatchAt(TOO_LATE[1], s, 13);
    assert |s| == WINDOW + 14 && Recent(s) == s[14..];
    AbsentByte(PROMPT, 0, Recent(s));
    AbsentByte(TOO_LATE[0], 0, Recent(s));
    AbsentByte(TOO_LATE[1], 0, Recent(s));
  }

  /** With a read of 4079 bytes the detector stays armed past an end pattern. */
  lemma LongerReadsCanMiss()
    ensures var chunks := [FirstRead(), LongRead()];
            && ReadsUpTo(chunks, SAFE_READ + 1)
            && Detect(chunks).armed && History(chunks) == "" && !HasBanner(History(chunks))
  {
    var first, chunks := [FirstRead()], [FirstRead(), LongRead()];
    assert chunks[..1] == first && first[..0] == [];
    FirstReadArms();
    LongReadHides();
    assert Detect(first) == Detector(FirstRead(), true);
    assert "" + FirstRead() == FirstRead();
    assert History(first) == FirstRead();
    NothingYet();
  }

  /** The exact bound: the detector is right about every chunking into reads of up
      to n bytes if and only if n is at most 4078. */
  lemma AgreementIff(n: nat)
    ensures (forall chunks :: ReadsUpTo(chunks, n) ==> (Detect(chunks).armed <==> HasBanner(History(chunks))))
            <==> n <= 4078
  {
    if n <= SAFE_READ {
      forall chunks | ReadsUpTo(chunks, n) ensures Detect(chunks).armed <==> HasBanner(History(chunks)) {
        ShortReadsAgree(chunks);
      }
    } else {
      LongerReadsCanMiss();
      assert ReadsUpTo([FirstRead(), LongRead()], n);
    }
  }

  // ---- the patterns ----

  /** `pattern in s`, without positions. */
  lemma OccursIff(pattern: string, s: string)
    ensures Occurs(pattern, s) <==> exists front, back :: s == front + pattern + back
  {
    if Occurs(pattern, s) {
      var i :| 0 <= i <= |s| && MatchAt(pattern, s, i);
      assert s == s[..i] + pattern + s[i + |pattern|..];
    }
    if front, back :| s == front + pattern + back {
      assert MatchAt(pattern, s, |front|);
    }
  }

  /** Two texts are banners, and three end the watch. */
  lemma PatternsAre(s: string)
    ensures HasBanner(s) <==> Occurs("Bootrom start", s) || Occurs("Fastboot 3.3.0", s)
    ensures HasEnd(s) <==>
            Occurs("fastboot#", s) || Occurs("Starting kernel", s) || Occurs("Uncompressing Linux", s)
  {
  }

  /** Each of them counts by itself, even on the first read. */
  lemma EachPatternCounts(s: string)
    requires s != "" && |s| <= 4078
    ensures (Occurs("Bootrom start", s) || Occurs("Fastboot 3.3.0", s)) &&
            !Occurs("fastboot#", s) && !Occurs("Starting kernel", s) && !Occurs("Uncompressing Linux", s)
            <==> Step(FRESH, s).armed
  {
    PatternsAre(s);
    NothingYet();
    StepAgrees(FRESH, "", s);
    assert "" + s == s;
  }
}
