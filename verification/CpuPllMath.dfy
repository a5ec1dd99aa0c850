/** Rounding arithmetic of the CPU PLL: which feedback divider a rate request
    gets, and which rate that divider gives. */
module CpuPllMath {
  const RATE_MIN: nat := 400_000_000
  const RATE_MAX: nat := 1_200_000_000
  const FBDIV_MASK: nat := 4095
  const U32: nat := 0x1_0000_0000

  /** clk_osc, the only parent the PLL is registered with. */
  const OSC: nat := 24_000_000

  /** postdiv1 * postdiv2 * refdiv: two fields of three bits and one of six. */
  const DIV_MAX: nat := 7 * 7 * 63

  /** DIV_ROUND_CLOSEST_ULL */
  function DivRoundClosest(x: nat, d: nat): nat
    requires 0 < d
  {
    (x + d / 2) / d
  }

  function Clamp(v: nat, lo: nat, hi: nat): nat {
    if v < lo then lo else if hi < v then hi else v
  }

  function ClampRate(rate: nat): nat {
    Clamp(rate, RATE_MIN, RATE_MAX)
  }

  /** The divider before it is narrowed to u32 and clamped. */
  function Ideal(rate: nat, parent: nat, div: nat): nat
    requires 0 < parent
  {
    DivRoundClosest(ClampRate(rate) * div, parent)
  }

  function FbDiv(rate: nat, parent: nat, div: nat): (f: nat)
    requires 0 < parent
    ensures 1 <= f <= FBDIV_MASK
  {
    Clamp(Ideal(rate, parent, div) % U32, 1, FBDIV_MASK)
  }

  function RateOf(fbdiv: nat, parent: nat, div: nat): nat
    requires 0 < div
  {
    DivRoundClosest(parent * fbdiv, div)
  }

  /** cpu_pll_pick: the rate the request will really get; 0 when there is none. */
  function Pick(rate: nat, parent: nat, div: nat): nat {
    if div == 0 || parent == 0 then 0 else RateOf(FbDiv(rate, parent, div), parent, div)
  }

  /** Parents for which the u32 narrowing never loses bits, with any dividers. */
  predicate Usable(parent: nat, div: nat) {
    863 <= parent && 1 <= div <= DIV_MAX
  }

  // ---- division facts ----

  lemma Rounds(x: nat, d: nat)
    requires 0 < d
    ensures var q := DivRoundClosest(x, d); q * d <= x + d / 2 < q * d + d
  {
  }

  lemma RoundsTo(x: nat, d: nat, q: nat)
    requires 0 < d && q * d <= x + d / 2 < q * d + d
    ensures DivRoundClosest(x, d) == q
  {
    var r := DivRoundClosest(x, d);
    Rounds(x, d);
    if r < q {
      TimesLess(r, q, d);
    } else if q < r {
      TimesLess(q, r, d);
    }
  }

  lemma Times(a: nat, b: nat, d: nat)
    requires a <= b
    ensures a * d <= b * d
  {
  }

  lemma TimesLess(a: nat, b: nat, d: nat)
    requires a < b
    ensures a * d + d <= b * d
  {
    Times(a + 1, b, d);
    assert (a + 1) * d == a * d + d;
  }

  lemma RoundingIsMonotone(x: nat, y: nat, d: nat)
    requires 0 < d && x <= y
    ensures DivRoundClosest(x, d) <= DivRoundClosest(y, d)
  {
    var q, r := DivRoundClosest(x, d), DivRoundClosest(y, d);
    Rounds(x, d);
    Rounds(y, d);
    if r < q {
      TimesLess(r, q, d);
    }
  }

  lemma FitsU32(x: nat, p: nat, q: nat)
    requires x <= RATE_MAX * DIV_MAX && 863 <= p && q * p <= x + p / 2
    ensures q < U32
  {
    if U32 <= q {
      Times(U32, q, p);
    }
  }

  lemma Narrowing(rate: nat, parent: nat, div: nat)
    requires Usable(parent, div)
    ensures Ideal(rate, parent, div) < U32
    ensures FbDiv(rate, parent, div) == Clamp(Ideal(rate, parent, div), 1, FBDIV_MASK)
  {
    var c := ClampRate(rate);
    Times(c, RATE_MAX, div);
    Times(div, DIV_MAX, RATE_MAX);
    Rounds(c * div, parent);
    FitsU32(c * div, parent, Ideal(rate, parent, div));
  }

  // ---- what the arithmetic promises ----

  function Abs(x: int): nat {
    if x < 0 then -x else x
  }

  /** Stepping down a whole parent period from a point not above x + p/2, or up
      from one not below x - p/2, only leads away from x. */
  lemma StepsLeadAway(x: nat, p: nat, fp: nat, gp: nat)
    requires (gp + p <= fp && fp <= x + p / 2) || (fp + p <= gp && x + p / 2 < fp + p)
    ensures Abs(fp - x) <= Abs(gp - x)
  {
  }

  lemma NearestToIdeal(x: nat, p: nat, q: nat, f: nat, g: nat)
    requires q * p <= x + p / 2 < q * p + p
    requires g < f ==> f <= q
    requires f < g ==> q <= f
    ensures Abs(f * p - x) <= Abs(g * p - x)
  {
    var fp, gp, qp := f * p, g * p, q * p;
    if g < f {
      TimesLess(g, f, p);
      Times(f, q, p);
      assert gp + p <= fp <= qp;
      StepsLeadAway(x, p, fp, gp);
    } else if f < g {
      TimesLess(f, g, p);
      Times(q, f, p);
      assert qp <= fp && fp + p <= gp;
      StepsLeadAway(x, p, fp, gp);
    }
  }

  /** How far a divider is from the clamped request, in units of 1/div hertz. */
  function Off(rate: nat, parent: nat, div: nat, f: nat): nat {
    Abs(f * parent - ClampRate(rate) * div)
  }

  /** No divider the PLL has comes closer to the clamped request. */
  lemma PickIsNearest(rate: nat, parent: nat, div: nat, g: nat)
    requires Usable(parent, div) && 1 <= g <= FBDIV_MASK
    ensures Off(rate, parent, div, FbDiv(rate, parent, div)) <= Off(rate, parent, div, g)
  {
    var x, q := ClampRate(rate) * div, Ideal(rate, parent, div);
    Narrowing(rate, parent, div);
    Rounds(x, parent);
    NearestClamped(x, parent, q, g);
  }

  lemma NearestClamped(x: nat, p: nat, q: nat, g: nat)
    requires q * p <= x + p / 2 < q * p + p && 1 <= g <= FBDIV_MASK
    ensures Abs(Clamp(q, 1, FBDIV_MASK) * p - x) <= Abs(g * p - x)
  {
    NearestToIdeal(x, p, q, Clamp(q, 1, FBDIV_MASK), g);
  }

  /** Away from the ends of the divider range the result is within half a divider
      step, plus half a hertz of rounding, of the clamped request. */
  lemma PickIsClose(rate: nat, parent: nat, div: nat)
    requires Usable(parent, div) && 1 <= Ideal(rate, parent, div) <= FBDIV_MASK
    ensures 2 * Abs(Pick(rate, parent, div) * div - ClampRate(rate) * div) <= parent + div
  {
    var f := FbDiv(rate, parent, div);
    Narrowing(rate, parent, div);
    Rounds(ClampRate(rate) * div, parent);
    Rounds(parent * f, div);
    assert parent * f == f * parent;
    RoundedTwice(ClampRate(rate) * div, parent, parent * f, div, Pick(rate, parent, div) * div);
  }

  lemma RoundedTwice(x: nat, p: nat, fp: nat, d: nat, y: nat)
    requires fp <= x + p / 2 < fp + p && y <= fp + d / 2 < y + d
    ensures 2 * Abs(y - x) <= p + d
  {
  }

  lemma FbDivIsMonotone(r: nat, s: nat, parent: nat, div: nat)
    requires Usable(parent, div) && r <= s
    ensures FbDiv(r, parent, div) <= FbDiv(s, parent, div)
  {
    Narrowing(r, parent, div);
    Narrowing(s, parent, div);
    Times(ClampRate(r), ClampRate(s), div);
    RoundingIsMonotone(ClampRate(r) * div, ClampRate(s) * div, parent);
  }

  /** A higher request never gets a lower rate. */
  lemma PickIsMonotone(r: nat, s: nat, parent: nat, div: nat)
    requires Usable(parent, div) && r <= s
    ensures Pick(r, parent, div) <= Pick(s, parent, div)
  {
    FbDivIsMonotone(r, s, parent, div);
    Times(FbDiv(r, parent, div), FbDiv(s, parent, div), parent);
    RoundingIsMonotone(parent * FbDiv(r, parent, div), parent * FbDiv(s, parent, div), div);
  }

  /** Inside the limits, rounding the rate back finds the divider again. */
  lemma RoundTripInRange(f: nat, parent: nat, div: nat)
    requires Usable(parent, div) && div < parent && 1 <= f <= FBDIV_MASK
    requires RATE_MIN <= RateOf(f, parent, div) <= RATE_MAX
    ensures FbDiv(RateOf(f, parent, div), parent, div) == f
  {
    var r := RateOf(f, parent, div);
    Rounds(parent * f, div);
    RoundsTo(r * div, parent, f);
    Narrowing(r, parent, div);
  }

  /** A divider above the one for the lower limit is not below the limit. */
  lemma AboveMin(f: nat, parent: nat, div: nat)
    requires Usable(parent, div) && FbDiv(RATE_MIN, parent, div) < f <= FBDIV_MASK
    ensures RATE_MIN <= RateOf(f, parent, div)
  {
    var q := Ideal(RATE_MIN, parent, div);
    Narrowing(RATE_MIN, parent, div);
    Rounds(RATE_MIN * div, parent);
    TimesLess(q, f, parent);
    RateAtLeast(f, parent, div, RATE_MIN);
  }

  lemma RateAtLeast(f: nat, parent: nat, div: nat, r: nat)
    requires 0 < div && r * div <= parent * f
    ensures r <= RateOf(f, parent, div)
  {
    Rounds(parent * f, div);
    var got := RateOf(f, parent, div);
    if got < r {
      TimesLess(got, r, div);
    }
  }

  lemma RateAtMost(f: nat, parent: nat, div: nat, r: nat)
    requires 0 < div && parent * f <= r * div
    ensures RateOf(f, parent, div) <= r
  {
    Rounds(parent * f, div);
    var got := RateOf(f, parent, div);
    if r < got {
      TimesLess(r, got, div);
    }
  }

  lemma BelowMax(f: nat, parent: nat, div: nat)
    requires Usable(parent, div) && 1 <= f < FbDiv(RATE_MAX, parent, div)
    ensures RateOf(f, parent, div) <= RATE_MAX
  {
    var q := Ideal(RATE_MAX, parent, div);
    Narrowing(RATE_MAX, parent, div);
    Rounds(RATE_MAX * div, parent);
    TimesLess(f, q, parent);
    RateAtMost(f, parent, div, RATE_MAX);
  }

  /** Asking for a rate that was the answer to a request gives that rate again,
      even where rounding put it outside the limits the request was clamped to.
      The clock framework relies on it: it passes determine_rate's answer to
      set_rate. */
  lemma PickIsIdempotent(rate: nat, parent: nat, div: nat)
    requires Usable(parent, div) && div < parent
    ensures FbDiv(Pick(rate, parent, div), parent, div) == FbDiv(rate, parent, div)
    ensures Pick(Pick(rate, parent, div), parent, div) == Pick(rate, parent, div)
  {
    var f := FbDiv(rate, parent, div);
    var r := RateOf(f, parent, div);
    if r < RATE_MIN {
      FbDivIsMonotone(RATE_MIN, ClampRate(rate), parent, div);
      if FbDiv(RATE_MIN, parent, div) < f {
        AboveMin(f, parent, div);
      }
    } else if RATE_MAX < r {
      FbDivIsMonotone(ClampRate(rate), RATE_MAX, parent, div);
      if f < FbDiv(RATE_MAX, parent, div) {
        BelowMax(f, parent, div);
      }
    } else {
      RoundTripInRange(f, parent, div);
    }
  }

  // ---- the 24 MHz oscillator ----

  /** The dividers that keep the cores at or below 1.2 GHz are exactly those up to
      50 * div, and no request gets another one. */
  lemma CeilingIsExact(f: nat, div: nat)
    requires 1 <= div <= DIV_MAX
    ensures RateOf(f, OSC, div) <= RATE_MAX <==> f <= 50 * div
  {
    if f <= 50 * div {
      RateAtMost(f, OSC, div, RATE_MAX);
    } else {
      RateAtLeast(f, OSC, div, RATE_MAX + 1);
    }
  }

  lemma RequestsStayBelowCeiling(rate: nat, div: nat)
    requires 1 <= div <= DIV_MAX
    ensures FbDiv(rate, OSC, div) <= 50 * div
    ensures Pick(rate, OSC, div) <= RATE_MAX
  {
    var c, q := ClampRate(rate), Ideal(rate, OSC, div);
    Narrowing(rate, OSC, div);
    Rounds(c * div, OSC);
    Times(c, RATE_MAX, div);
    CeilingIsExact(FbDiv(rate, OSC, div), div);
  }

  /** From 863 Hz on, the test `!cpu_pll_pick(...)` fails only for a missing divider. */
  lemma PickIsPositive(rate: nat, parent: nat, div: nat)
    requires Usable(parent, div)
    ensures 0 < Pick(rate, parent, div)
  {
    if div <= parent {
      PositiveProduct(parent, FbDiv(rate, parent, div), div);
    } else {
      SlowParentTopsOut(rate, parent, div);
    }
    RateAtLeast(FbDiv(rate, parent, div), parent, div, 1);
  }

  lemma PositiveProduct(p: nat, f: nat, d: nat)
    requires d <= p && 1 <= f
    ensures d <= p * f
  {
    Times(1, f, p);
  }

  /** With a parent below the divider product the largest divider is taken. */
  lemma SlowParentTopsOut(rate: nat, parent: nat, div: nat)
    requires Usable(parent, div) && parent < div
    ensures FbDiv(rate, parent, div) == FBDIV_MASK
  {
    var c := ClampRate(rate);
    Narrowing(rate, parent, div);
    Rounds(c * div, parent);
    Times(parent, div, c);
    Times(RATE_MIN, c, parent);
    LargeQuotient(c * div, parent, Ideal(rate, parent, div));
  }

  lemma LargeQuotient(x: nat, p: nat, q: nat)
    requires 0 < p && RATE_MIN * p <= x < q * p + p
    ensures FBDIV_MASK <= q
  {
    if q < FBDIV_MASK {
      TimesLess(q, FBDIV_MASK, p);
    }
  }

  /** On the board, where the divider product is 4, a request gets the nearest multiple
      of 6 MHz to what the limits leave of it. */
  lemma BoardPicks(rate: nat)
    ensures var c := if rate < 400_000_000 then 400_000_000 else if 1_200_000_000 < rate then 1_200_000_000 else rate;
            && FbDiv(rate, 24_000_000, 4) == (c + 3_000_000) / 6_000_000
            && Pick(rate, 24_000_000, 4) == 6_000_000 * ((c + 3_000_000) / 6_000_000)
            && 67 <= FbDiv(rate, 24_000_000, 4) <= 200
  {
    Narrowing(rate, 24_000_000, 4);
  }

  /** With the dividers the bootloader leaves (product 4) the rates that a request
      gets exactly are the multiples of 6 MHz within the limits, and no others. */
  lemma FixedPointsOfProductFour(rate: nat)
    ensures Pick(rate, OSC, 4) == rate <==> 400_000_000 <= rate <= 1_200_000_000 && rate % 6_000_000 == 0
  {
    Narrowing(rate, OSC, 4);
  }
}
