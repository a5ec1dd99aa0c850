/** The CPU PLL driver against hardware that walks to a new divider in its own
    time. */
module CpuPll {
  import opened CpuPllMath

  const EINVAL := 22
  const ETIMEDOUT := 110

  const TUNE_MODE: bv32 := 4
  const TUNE_EN: bv32 := 8

  /** readl_poll_timeout_atomic(..., 10, 100000): this many delays of 10 us. */
  const POLLS: nat := 10000

  /** What one read of TUNE_STAT tells the driver. */
  datatype Stat = Stat(fbdiv: nat, busy: bool)

  predicate Arrived(s: Stat, goal: nat) {
    !s.busy && s.fbdiv == goal
  }

  /** Some value on the way from `from` to `goal`, both included. */
  predicate OnTheWay(from: nat, v: nat, goal: nat) {
    from <= v <= goal || goal <= v <= from
  }

  function Distance(a: nat, b: nat): nat {
    if a < b then b - a else a - b
  }

  /** Reads of a PLL that takes at least one step between two polls and keeps the
      busy bit low once it is there. Before that the bit may do anything. */
  predicate Prompt(polls: seq<Stat>, goal: nat) {
    && (forall i :: 0 <= i < |polls| ==> polls[i].fbdiv <= FBDIV_MASK && (polls[i].fbdiv == goal ==> !polls[i].busy))
    && (forall i :: 0 <= i < |polls| - 1 && polls[i].fbdiv != goal ==>
          Distance(polls[i + 1].fbdiv, goal) < Distance(polls[i].fbdiv, goal))
  }

  lemma {:induction false} PromptComesCloser(polls: seq<Stat>, goal: nat, i: nat)
    requires Prompt(polls, goal) && goal <= FBDIV_MASK && i < |polls|
    ensures (exists j :: 0 <= j <= i && Arrived(polls[j], goal)) || Distance(polls[i].fbdiv, goal) + i <= FBDIV_MASK
  {
    if 0 < i {
      PromptComesCloser(polls, goal, i - 1);
    }
  }

  /** The poll budget is enough from any 12-bit start. */
  lemma BudgetSuffices(polls: seq<Stat>, goal: nat)
    requires Prompt(polls, goal) && goal <= FBDIV_MASK && |polls| == POLLS + 1
    ensures exists j :: 0 <= j <= FBDIV_MASK + 1 && Arrived(polls[j], goal)
  {
    PromptComesCloser(polls, goal, FBDIV_MASK + 1);
  }

  /** cpu_pll_div on the two configuration registers. */
  function Divider(cfg0: nat, cfg1: nat): (d: nat)
    ensures d <= DIV_MAX
  {
    var postdiv1, postdiv2, refdiv := cfg0 / 0x100_0000 % 8, cfg0 / 0x1000_0000 % 8, cfg1 / 0x1000 % 64;
    Times(postdiv1, 7, postdiv2);
    Times(postdiv2, 7, 7);
    Times(postdiv1 * postdiv2, 49, refdiv);
    Times(refdiv, 63, 49);
    postdiv1 * postdiv2 * refdiv
  }

  /** The feedback divider that the boot configuration holds. */
  function BootDivider(cfg1: nat): (b: nat)
    ensures b <= FBDIV_MASK
  {
    cfg1 % 4096
  }

  /** The first configuration word: postdiv1 in bits 26..24, postdiv2 in bits 30..28,
      and any other bits. */
  function Word0(bit31: nat, postdiv2: nat, bit27: nat, postdiv1: nat, low: nat): nat {
    bit31 * 0x8000_0000 + postdiv2 * 0x1000_0000 + bit27 * 0x800_0000 + postdiv1 * 0x100_0000 + low
  }

  /** The second: refdiv in bits 17..12, the boot divider in bits 11..0. */
  function Word1(high: nat, refdiv: nat, fbdiv: nat): nat {
    high * 0x4_0000 + refdiv * 0x1000 + fbdiv
  }

  lemma Field(high: nat, v: nat, low: nat, size: nat, unit: nat)
    requires v < size && low < unit
    ensures ((high * size + v) * unit + low) / unit % size == v
  {
    Times(0, high * size + v, unit);
    QuotientOf((high * size + v) * unit + low, high * size + v, unit, low);
    QuotientOf(high * size + v, high, size, v);
  }

  lemma QuotientOf(x: nat, q: nat, d: nat, r: nat)
    requires r < d && x == q * d + r
    ensures x / d == q && x % d == r
  {
    var p := x / d;
    assert x == p * d + x % d;
    if p < q {
      TimesLess(p, q, d);
    } else if q < p {
      TimesLess(q, p, d);
    }
  }

  /** Each field is read from its own place, whatever the other bits hold. */
  lemma FieldsAreRead(bit31: nat, postdiv2: nat, bit27: nat, postdiv1: nat, low: nat,
                      high: nat, refdiv: nat, fbdiv: nat)
    requires bit31 < 2 && postdiv2 < 8 && bit27 < 2 && postdiv1 < 8 && low < 0x100_0000
    requires refdiv < 64 && fbdiv < 4096
    ensures var cfg0, cfg1 := Word0(bit31, postdiv2, bit27, postdiv1, low), Word1(high, refdiv, fbdiv);
            && Divider(cfg0, cfg1) == postdiv1 * postdiv2 * refdiv
            && BootDivider(cfg1) == fbdiv
  {
    var cfg0, cfg1 := Word0(bit31, postdiv2, bit27, postdiv1, low), Word1(high, refdiv, fbdiv);
    Field(bit31 * 16 + postdiv2 * 2 + bit27, postdiv1, low, 8, 0x100_0000);
    Field(bit31, postdiv2, bit27 * 0x800_0000 + postdiv1 * 0x100_0000 + low, 8, 0x1000_0000);
    Field(high, refdiv, fbdiv, 64, 0x1000);
    QuotientOf(cfg1, high * 64 + refdiv, 4096, fbdiv);
  }

  /** The board's registers as documented: a divider product of 4, and 1.2 GHz at the
      live divider 200; the 266 in the configuration word does not count while there
      is a live one. */
  lemma BoardRegisters()
    ensures Divider(0x1200_0000, 0x210A) == 4 && BootDivider(0x210A) == 266
    ensures LiveRate(0x1200_0000, 0x210A, 200, 24_000_000) == 1_200_000_000
    ensures LiveRate(0x1200_0000, 0x210A, 0, 24_000_000) == 1_596_000_000
  {
  }

  /** The rate that a live divider stands for; with none, the one the boot
      configuration holds. */
  function LiveRate(cfg0: nat, cfg1: nat, live: nat, parent: nat): nat {
    var div := Divider(cfg0, cfg1);
    if div == 0 then 0
    else RateOf(if live == 0 then BootDivider(cfg1) else live, parent, div)
  }

  /** The dividers that a walk may pass. */
  predicate SafeDivider(div: nat, boot: nat, live: nat) {
    div == 0 || (if live == 0 then boot else live) <= 50 * div
  }

  /** They are the ones that stand for at most 1.2 GHz. */
  lemma SafeMeansBelowCeiling(cfg0: nat, cfg1: nat, live: nat)
    ensures SafeDivider(Divider(cfg0, cfg1), BootDivider(cfg1), live) <==> LiveRate(cfg0, cfg1, live, OSC) <= RATE_MAX
  {
    var div := Divider(cfg0, cfg1);
    if div != 0 {
      CeilingIsExact(if live == 0 then BootDivider(cfg1) else live, div);
    }
  }

  /** One step from a safe divider towards a safe goal is safe. */
  lemma StepIsSafe(div: nat, boot: nat, from: nat, v: nat, goal: nat)
    requires SafeDivider(div, boot, from) && 1 <= goal <= 50 * div && OnTheWay(from, v, goal)
    ensures SafeDivider(div, boot, v)
  {
  }

  class Pll {
    const cfg0: nat
    const cfg1: nat
    const div: nat
    const boot: nat
    var tuneInt: nat
    var tuneFrac: nat
    var stepInt: nat
    var stepFrac: nat
    var ctrl: bv32

    // The hardware's own state: the live divider, the busy bit, and the walk
    // that the last rising edge of the enable bit started.
    var live: nat
    var busy: bool
    var walking: bool
    var goal: nat

    /** Every divider the cores have run with, oldest first. */
    ghost var history: seq<nat>

    /** Every value that the driver has read from TUNE_STAT, oldest first. */
    ghost var samples: seq<Stat>

    ghost predicate Valid()
      reads this
    {
      && history != [] && history[|history| - 1] == live <= FBDIV_MASK && div <= DIV_MAX
      && (walking ==> 1 <= goal <= FBDIV_MASK)
    }

    /** At or below 1.2 GHz so far, and on the way to a divider that is. */
    ghost predicate Safe()
      reads this
    {
      (walking ==> goal <= 50 * div) && forall v :: v in history ==> SafeDivider(div, boot, v)
    }

    /** cpu_pll_div reads the configuration registers on each call; they never
        change after boot, so the model reads them once. */
    ghost predicate Configured() {
      div == Divider(cfg0, cfg1) && boot == BootDivider(cfg1)
    }

    /** Whatever the bootloader left, as long as it is at or below 1.2 GHz. */
    constructor (cfg0: nat, cfg1: nat, live: nat, ctrl: bv32)
      requires live <= FBDIV_MASK && LiveRate(cfg0, cfg1, live, OSC) <= RATE_MAX
      ensures Valid() && Safe() && Configured()
      ensures this.cfg0 == cfg0 && this.cfg1 == cfg1 && this.live == live && history == [live] && samples == []
    {
      this.cfg0, this.cfg1, this.ctrl, this.live := cfg0, cfg1, ctrl, live;
      this.div, this.boot := Divider(cfg0, cfg1), BootDivider(cfg1);
      tuneInt, tuneFrac, stepInt, stepFrac := 0, 0, 0, 0;
      busy, walking, goal, history, samples := false, false, 0, [live], [];
      SafeMeansBelowCeiling(cfg0, cfg1, live);
    }

    /** Time passes: the walk takes any number of steps of one, and the busy bit
        does what it likes. */
    method Hardware()
      requires Valid()
      modifies this`live, this`busy, this`history
      ensures Valid() && old(history) <= history && (old(Safe()) ==> Safe())
      ensures if walking then OnTheWay(old(live), live, goal) else live == old(live) && history == old(history)
    {
      var steps: nat := *;
      while 0 < steps && walking && live != goal
        invariant Valid() && old(history) <= history && (old(Safe()) ==> Safe())
        invariant if walking then OnTheWay(old(live), live, goal) else live == old(live) && history == old(history)
      {
        var next := if live < goal then live + 1 else live - 1;
        if SafeDivider(div, boot, live) && goal <= 50 * div {
          StepIsSafe(div, boot, live, next, goal);
        }
        live, history, steps := next, history + [next], steps - 1;
      }
      busy := *;
    }

    /** A rising enable bit in tune mode starts a walk to what TUNE_INT holds. */
    method WriteCtrl(v: bv32)
      requires Valid()
      requires ctrl & TUNE_EN == 0 && v & TUNE_EN != 0 ==> 1 <= tuneInt <= FBDIV_MASK
      modifies this`ctrl, this`walking, this`goal
      ensures Valid() && ctrl == v
      ensures old(Safe()) && tuneInt <= 50 * div ==> Safe()
      ensures if old(ctrl) & TUNE_EN == 0 && v & TUNE_EN != 0 && v & TUNE_MODE != 0
              then walking && goal == tuneInt
              else walking == old(walking) && goal == old(goal)
    {
      if ctrl & TUNE_EN == 0 && v & TUNE_EN != 0 && v & TUNE_MODE != 0 {
        walking, goal := true, tuneInt;
      }
      ctrl := v;
    }

    /** The rate reported is the one of the live divider: at most 1.2 GHz while all
        is safe, and once a walk for a request has arrived, the rate that was
        granted for it. */
    method RecalcRate(parent: nat) returns (rate: nat)
      requires Configured()
      ensures rate == LiveRate(cfg0, cfg1, live, parent)
      ensures Valid() && Safe() && parent == OSC ==> rate <= RATE_MAX
      ensures parent != 0 && div != 0 ==>
                forall r: nat :: live == FbDiv(r, parent, div) ==> rate == Pick(r, parent, div)
      ensures 1 <= live <= FBDIV_MASK && Usable(parent, div) && div < parent && RATE_MIN <= rate <= RATE_MAX ==>
                FbDiv(rate, parent, div) == live
    {
      SafeMeansBelowCeiling(cfg0, cfg1, live);
      if div == 0 {
        return 0;
      }
      var fbdiv := live;
      if fbdiv == 0 {
        fbdiv := boot;
      }
      rate := RateOf(fbdiv, parent, div);
      if 1 <= fbdiv <= FBDIV_MASK && Usable(parent, div) && div < parent && RATE_MIN <= rate <= RATE_MAX {
        RoundTripInRange(fbdiv, parent, div);
      }
    }

    /** A request is granted the rate of the divider nearest to it, at 24 MHz never
        above 1.2 GHz, and a granted rate is granted again; it is refused, and left
        as it was, only if there is no divider or no parent worth the name. */
    method DetermineRate(rate: nat, parent: nat) returns (ret: int, got: nat)
      requires Configured()
      ensures ret == 0 || (ret == -EINVAL && got == rate)
      ensures 863 <= parent ==> (ret == 0 <==> div != 0)
      ensures ret == 0 <==> 0 < Pick(rate, parent, div)
      ensures ret == 0 ==> got == Pick(rate, parent, div) && parent != 0 && div != 0
      ensures ret == 0 && parent == OSC ==> got <= RATE_MAX
      ensures ret == 0 && 863 <= parent ==>
                forall g :: 1 <= g <= FBDIV_MASK ==>
                  Off(rate, parent, div, FbDiv(rate, parent, div)) <= Off(rate, parent, div, g)
      ensures ret == 0 && 863 <= parent && div < parent ==>
                Pick(got, parent, div) == got && FbDiv(got, parent, div) == FbDiv(rate, parent, div)
    {
      got := Pick(rate, parent, div);
      GrantIsGood(rate, parent, div);
      if got == 0 {
        return -EINVAL, rate;
      }
      ret := 0;
    }

    method ReadStat() returns (stat: Stat)
      modifies this`samples
      ensures stat == Stat(live, busy) && samples == old(samples) + [stat]
    {
      stat := Stat(live, busy);
      samples := samples + [stat];
    }

    /** Poll TUNE_STAT until the divider has arrived or the time is up: `polls` is what
        was read. */
    method Poll(fbdiv: nat) returns (ret: int, ghost polls: seq<Stat>)
      requires Valid() && walking && goal == fbdiv
      modifies this`live, this`busy, this`history, this`samples
      ensures Valid() && old(history) <= history && (old(Safe()) ==> Safe())
      ensures samples == old(samples) + polls
      ensures ret == 0 || ret == -110
      ensures ret == 0 ==> live == fbdiv && !busy
      ensures ret != 0 ==>
                |polls| == 10001 && forall i :: 0 <= i < |polls| ==> polls[i].busy || polls[i].fbdiv != fbdiv
    {
      polls := [];
      var left: nat := POLLS;
      while true
        invariant Valid() && old(history) <= history && (old(Safe()) ==> Safe())
        invariant left <= POLLS && |polls| == POLLS - left && samples == old(samples) + polls
        invariant forall i :: 0 <= i < |polls| ==> !Arrived(polls[i], fbdiv)
        decreases left
      {
        Hardware();
        var stat := ReadStat();
        polls := polls + [stat];
        if Arrived(stat, fbdiv) {
          return 0, polls;
        }
        if left == 0 {
          return -ETIMEDOUT, polls;
        }
        left := left - 1;
      }
    }

    /** The target and a step of one. */
    method WriteTarget(fbdiv: nat)
      requires Valid()
      modifies this`tuneInt, this`tuneFrac, this`stepInt, this`stepFrac, this`live, this`busy, this`history
      ensures Valid() && old(history) <= history && (old(Safe()) ==> Safe())
      ensures (tuneInt, tuneFrac, stepInt, stepFrac) == (fbdiv, 0, 1, 0)
    {
      tuneInt := fbdiv;
      Hardware();
      tuneFrac := 0;
      Hardware();
      stepInt := 1;
      Hardware();
      stepFrac := 0;
      Hardware();
    }

    /** Tune mode on, enable low, enable high: always a rising edge, whatever the
        bit was before. */
    method Strobe()
      requires Valid() && 1 <= tuneInt <= FBDIV_MASK
      modifies this`ctrl, this`walking, this`goal, this`live, this`busy, this`history
      ensures Valid() && old(history) <= history && (old(Safe()) && tuneInt <= 50 * div ==> Safe())
      ensures ctrl == old(ctrl) | 0xC && walking && goal == tuneInt
    {
      EnableBits(ctrl);
      var c := ctrl | TUNE_MODE;
      WriteCtrl(c);
      Hardware();
      WriteCtrl(c & !TUNE_EN);
      Hardware();
      WriteCtrl(c | TUNE_EN);
    }

    /** The whole register sequence, with the hardware free to act between any two
        accesses. Success means that the divider has arrived, and failure that the
        hardware did not keep pace. */
    method SetRate(rate: nat, parent: nat) returns (ret: int, ghost polls: seq<Stat>)
      requires Valid()
      modifies this
      ensures Valid() && old(history) <= history
      ensures old(Safe()) && (parent == OSC || ret == -EINVAL) ==> Safe()
      ensures ret in {0, -22, -110}
      ensures ret == -EINVAL <==> Pick(rate, parent, div) == 0
      ensures 863 <= parent ==> (ret == -EINVAL <==> div == 0)
      ensures ret == -EINVAL ==>
                history == old(history) && tuneInt == old(tuneInt) && ctrl == old(ctrl) && live == old(live)
      ensures ret != -EINVAL ==>
                && (tuneInt, tuneFrac, stepInt, stepFrac) == (FbDiv(rate, parent, div), 0, 1, 0)
                && ctrl == old(ctrl) | 0xC
                && walking && goal == tuneInt
      ensures samples == old(samples) + polls
      ensures ret == 0 ==> live == goal && !busy
      ensures ret == -ETIMEDOUT ==> !Prompt(polls, goal)
    {
      polls := [];
      if Pick(rate, parent, div) == 0 {
        if Usable(parent, div) {
          PickIsPositive(rate, parent, div);
        }
        return -EINVAL, polls;
      }
      var fbdiv := FbDiv(rate, parent, div);
      if parent == OSC {
        RequestsStayBelowCeiling(rate, div);
      }
      WriteTarget(fbdiv);
      Strobe();
      ret, polls := Poll(fbdiv);
      if ret != 0 && Prompt(polls, goal) {
        BudgetSuffices(polls, goal);
      }
    }
  }

  /** One request as the clock framework makes it, and what came of it. */
  datatype Change = Change(ret: int, promised: nat, observed: nat)

  /** Any sequence of requests, failed and unfinished walks included: the cores
      never ran above 1.2 GHz, not even between two steps of a walk, and each
      request that reported success runs at the rate that was promised for it, for
      as long as no other request is made. */
  method ServeRequests(pll: Pll, requests: seq<nat>) returns (changes: seq<Change>)
    requires pll.Valid() && pll.Safe() && pll.Configured()
    modifies pll
    ensures pll.Valid() && pll.Safe() && old(pll.history) <= pll.history
    ensures forall v :: v in pll.history ==> LiveRate(pll.cfg0, pll.cfg1, v, OSC) <= RATE_MAX
    ensures |changes| == |requests|
    ensures forall i :: 0 <= i < |changes| && changes[i].ret == 0 ==>
              changes[i].observed == changes[i].promised == Pick(requests[i], OSC, pll.div)
  {
    changes := [];
    for i := 0 to |requests|
      invariant pll.Valid() && pll.Safe() && old(pll.history) <= pll.history && |changes| == i
      invariant forall j :: 0 <= j < i && changes[j].ret == 0 ==>
                  changes[j].observed == changes[j].promised == Pick(requests[j], OSC, pll.div)
    {
      var change := ServeOne(pll, requests[i]);
      changes := changes + [change];
    }
    forall v | v in pll.history ensures LiveRate(pll.cfg0, pll.cfg1, v, OSC) <= RATE_MAX {
      SafeMeansBelowCeiling(pll.cfg0, pll.cfg1, v);
    }
  }

  method ServeOne(pll: Pll, request: nat) returns (change: Change)
    requires pll.Valid() && pll.Safe() && pll.Configured()
    modifies pll
    ensures pll.Valid() && pll.Safe() && old(pll.history) <= pll.history
    ensures change.ret == 0 ==> change.observed == change.promised == Pick(request, OSC, pll.div)
  {
    var ret, promised := pll.DetermineRate(request, OSC);
    if ret == 0 {
      ghost var polls;
      ret, polls := pll.SetRate(promised, OSC);
    }
    pll.Hardware();
    var observed := pll.RecalcRate(OSC);
    if ret == 0 {
      PickIsIdempotent(request, OSC, pll.div);
    }
    change := Change(ret, promised, observed);
  }

  lemma EnableBits(ctrl: bv32)
    ensures var c := ctrl | TUNE_MODE;
            && c & TUNE_EN == ctrl & TUNE_EN
            && (c & !TUNE_EN) & TUNE_EN == 0
            && (c | TUNE_EN) & TUNE_EN != 0 && (c | TUNE_EN) & TUNE_MODE != 0 && c | TUNE_EN == ctrl | 0xC
  {
  }

  lemma GrantIsGood(rate: nat, parent: nat, div: nat)
    requires div <= DIV_MAX
    ensures Usable(parent, div) ==>
              && 0 < Pick(rate, parent, div)
              && forall g :: 1 <= g <= FBDIV_MASK ==>
                   Off(rate, parent, div, FbDiv(rate, parent, div)) <= Off(rate, parent, div, g)
    ensures Usable(parent, div) && div < parent ==>
              && Pick(Pick(rate, parent, div), parent, div) == Pick(rate, parent, div)
              && FbDiv(Pick(rate, parent, div), parent, div) == FbDiv(rate, parent, div)
    ensures div != 0 ==> Pick(rate, OSC, div) <= RATE_MAX
  {
    if Usable(parent, div) {
      PickIsPositive(rate, parent, div);
      forall g | 1 <= g <= FBDIV_MASK
        ensures Off(rate, parent, div, FbDiv(rate, parent, div)) <= Off(rate, parent, div, g)
      {
        PickIsNearest(rate, parent, div, g);
      }
      if div < parent {
        PickIsIdempotent(rate, parent, div);
      }
    }
    if div != 0 {
      RequestsStayBelowCeiling(rate, div);
    }
  }
}
