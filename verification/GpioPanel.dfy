/** The panel's GPIO requests, down to the PL061 registers behind them. */
module GpioPanel {
  import opened Common

  const BANKS: nat := 10
  const GPIODIR: bv16 := 0x400

  /** 1 << pin */
  function Bit(pin: nat): (m: bv8)
    requires pin < 8
    ensures m != 0
  {
    match pin
    case 0 => 0x01 case 1 => 0x02 case 2 => 0x04 case 3 => 0x08
    case 4 => 0x10 case 5 => 0x20 case 6 => 0x40 case _ => 0x80
  }

  predicate IsSet(v: bv8, pin: nat)
    requires pin < 8
  {
    v & Bit(pin) != 0
  }

  /** The masks are the source's `1 << pin`. */
  lemma BitIsShift(pin: nat)
    requires pin < 8
    ensures Bit(pin) == (1 as bv8) << pin
  {
    match pin
    case 0 => case 1 => case 2 => case 3 => case 4 => case 5 => case 6 => case _ =>
  }

  /** One bank: which pins are outputs, and the levels they are driven to. */
  datatype Bank = Bank(dir: bv8, data: bv8)

  /** A data write to the selected pins; only an output takes a level. */
  function WriteData(b: Bank, pins: bv8, value: bv8): Bank {
    b.(data := (b.data & !(pins & b.dir)) | (value & (pins & b.dir)))
  }

  /** Address bits [9:2] of a data access select its pins. */
  function Write(b: Bank, offset: bv16, value: bv8): Bank {
    if offset < 0x400 then WriteData(b, ((offset >> 2) & 0xFF) as bv8, value)
    else if offset == GPIODIR then b.(dir := value)
    else b
  }

  lemma AddressSelects(b: Bank, pins: bv8, value: bv8)
    ensures Write(b, (pins as bv16) << 2, value) == WriteData(b, pins, value)
  {
  }

  type Banks = s: seq<Bank> | |s| == BANKS witness seq(BANKS, _ => Bank(0, 0))

  /** How a helper call goes: it works, or it fails before or after the registers
      were written (a helper that is killed late has had its effect). */
  datatype Fate = Works | FailsBefore | FailsAfter

  datatype Command =
    | Dir(bank: nat, pin: nat, mode: string)
    | Set(bank: nat, pin: nat, level: string)
    | Restore(bank: nat, mask: bv8)

  predicate Accepted(c: Command) {
    match c
    case Dir(bank, pin, mode) => bank < BANKS && pin < 8 && mode in {"in", "out"}
    case Set(bank, pin, level) => bank < BANKS && pin < 8 && level in {"0", "1"}
    case Restore(bank, _) => bank < BANKS
  }

  function LevelValue(level: string): bv8 {
    if level == "1" then 0xFF else 0x00
  }

  /** cmd_dir, cmd_set and cmd_restore on their bank. */
  function Effect(b: Bank, c: Command): Bank
    requires Accepted(c)
  {
    match c
    case Dir(_, pin, mode) => Write(b, GPIODIR, if mode == "out" then b.dir | Bit(pin) else b.dir & !Bit(pin))
    case Set(_, pin, level) => Write(b, (Bit(pin) as bv16) << 2, LevelValue(level))
    case Restore(_, mask) => Write(b, GPIODIR, mask)
  }

  /** A helper call: the banks afterwards, and whether it raised. */
  function Call(s: Banks, c: Command, fate: Fate): (Banks, bool) {
    if !Accepted(c) || fate == FailsBefore then (s, true)
    else (s[c.bank := Effect(s[c.bank], c)], fate == FailsAfter)
  }

  lemma BitsAreDisjoint(pin: nat, other: nat)
    requires pin < 8 && other < 8
    ensures Bit(pin) & Bit(other) == if pin == other then Bit(pin) else 0
  {
  }

  lemma BitOrNothing(v: bv8, pin: nat)
    requires pin < 8
    ensures v & Bit(pin) in {0, Bit(pin)}
  {
  }

  lemma OtherBitsKept(b: Bank, v: bv8, m: bv8, o: bv8)
    requires m & o == 0
    ensures WriteData(b, m, v).data & o == b.data & o
  {
  }

  lemma PinsTake(d: bv8, v: bv8, pins: bv8)
    ensures (d & !0) | (v & 0) == d && ((d & !pins) | (v & pins)) & pins == v & pins
  {
  }

  lemma MasksCommute(m: bv8, d: bv8)
    ensures m & d == d & m
  {
  }

  lemma OwnBitTakes(b: Bank, v: bv8, m: bv8)
    requires b.dir & m in {0, m} && v in {0, 0xFF}
    ensures WriteData(b, m, v).data & m == if b.dir & m == 0 then b.data & m else v & m
  {
    MasksCommute(m, b.dir);
    var pins := m & b.dir;
    assert WriteData(b, m, v).data == (b.data & !pins) | (v & pins);
    PinsTake(b.data, v, pins);
  }

  lemma OwnMaskLevel(b: Bank, v: bv8, m: bv8)
    requires b.dir & m in {0, m} && m != 0 && v in {0, 0xFF}
    ensures WriteData(b, m, v).data & m != 0 <==> if b.dir & m != 0 then v == 0xFF else b.data & m != 0
  {
    OwnBitTakes(b, v, m);
    LevelBits(m);
  }

  lemma OwnLevel(b: Bank, v: bv8, pin: nat)
    requires pin < 8 && v in {0, 0xFF}
    ensures IsSet(WriteData(b, Bit(pin), v).data, pin) <==> if IsSet(b.dir, pin) then v == 0xFF else IsSet(b.data, pin)
  {
    BitOrNothing(b.dir, pin);
    OwnMaskLevel(b, v, Bit(pin));
  }

  lemma LevelBits(m: bv8)
    ensures 0 & m == 0 && 0xFF & m == m
  {
  }

  lemma OtherLevel(b: Bank, v: bv8, pin: nat, other: nat)
    requires pin < 8 && other < 8 && pin != other
    ensures IsSet(WriteData(b, Bit(pin), v).data, other) <==> IsSet(b.data, other)
  {
    BitsAreDisjoint(pin, other);
    OtherBitsKept(b, v, Bit(pin), Bit(other));
  }

  lemma SetIsMaskedWrite(b: Bank, c: Command)
    requires c.Set? && Accepted(c)
    ensures Effect(b, c) == WriteData(b, Bit(c.pin), LevelValue(c.level))
  {
    AddressSelects(b, Bit(c.pin), LevelValue(c.level));
  }

  /** What a masked write of one pin does: that pin takes the level if it is an
      output, and nothing else changes. */
  lemma SetSelects(b: Bank, c: Command, other: nat)
    requires c.Set? && Accepted(c) && other < 8
    ensures var b' := Effect(b, c);
            && b'.dir == b.dir
            && (IsSet(b'.data, other) <==>
                  if other == c.pin && IsSet(b.dir, c.pin) then c.level == "1" else IsSet(b.data, other))
  {
    SetIsMaskedWrite(b, c);
    if other == c.pin {
      OwnLevel(b, LevelValue(c.level), c.pin);
    } else {
      OtherLevel(b, LevelValue(c.level), c.pin, other);
    }
  }

  lemma OwnDirection(v: bv8, pin: nat)
    requires pin < 8
    ensures IsSet(v | Bit(pin), pin) && !IsSet(v & !Bit(pin), pin)
  {
    OwnMask(v, Bit(pin));
  }

  lemma OwnMask(v: bv8, m: bv8)
    ensures (v | m) & m == m && (v & !m) & m == 0
  {
  }

  lemma OtherDirection(v: bv8, pin: nat, other: nat)
    requires pin < 8 && other < 8 && pin != other
    ensures (v | Bit(pin)) & Bit(other) == v & Bit(other) && (v & !Bit(pin)) & Bit(other) == v & Bit(other)
  {
    BitsAreDisjoint(pin, other);
    OtherMask(v, Bit(pin), Bit(other));
  }

  lemma OtherMask(v: bv8, m: bv8, o: bv8)
    requires m & o == 0
    ensures (v | m) & o == v & o && (v & !m) & o == v & o
  {
  }

  lemma DirSelects(b: Bank, c: Command, other: nat)
    requires c.Dir? && Accepted(c) && other < 8
    ensures var b' := Effect(b, c);
            && b'.data == b.data
            && (IsSet(b'.dir, other) <==> if other == c.pin then c.mode == "out" else IsSet(b.dir, other))
  {
    if other == c.pin {
      OwnDirection(b.dir, c.pin);
    } else {
      OtherDirection(b.dir, c.pin, other);
    }
  }

  // ---- one request ----

  /** How the five helper calls of a pulse go. */
  datatype Fates = Fates(dump: bool, out: Fate, on: Fate, off: Fate, restore: Fate)

  /** gpio_pulse: remember the bank's directions, drive the pin, and in any case
      set it low and put the directions back. A cleanup call that raises ends the
      cleanup. */
  function AfterPulse(s: Banks, bank: nat, pin: nat, f: Fates): Banks {
    if !f.dump || BANKS <= bank then s
    else
      var original := s[bank].dir;
      var (s1, raised) := Call(s, Dir(bank, pin, "out"), f.out);
      var s2 := if raised then s1 else Call(s1, Set(bank, pin, "1"), f.on).0;
      var (s3, stuck) := Call(s2, Set(bank, pin, "0"), f.off);
      if stuck then s3 else Call(s3, Restore(bank, original), f.restore).0
  }

  function AfterDrive(s: Banks, bank: nat, pin: nat, direction: Option<string>, level: Option<string>,
                      f1: Fate, f2: Fate): Banks {
    var (s1, raised) := if direction.Some? then Call(s, Dir(bank, pin, direction.value), f1) else (s, false);
    if raised || level.None? then s1 else Call(s1, Set(bank, pin, level.value), f2).0
  }

  /** Lines that a kernel driver has claimed. */
  predicate Reserved(bank: nat, pin: nat) {
    bank == 5 && pin in {0, 2}
  }

  datatype Request =
    | Pulse(bank: nat, pin: nat, fates: Fates)
    | Drive(bank: nat, pin: nat, direction: Option<string>, level: Option<string>, f1: Fate, f2: Fate)

  function AfterRequest(s: Banks, r: Request): Banks {
    if Reserved(r.bank, r.pin) then s
    else match r
      case Pulse(bank, pin, f) => AfterPulse(s, bank, pin, f)
      case Drive(bank, pin, direction, level, f1, f2) => AfterDrive(s, bank, pin, direction, level, f1, f2)
  }

  function AfterAll(s: Banks, requests: seq<Request>): Banks {
    if requests == [] then s
    else AfterRequest(AfterAll(s, requests[..|requests| - 1]), requests[|requests| - 1])
  }

  /** The two states agree on a pin: direction and driven level. */
  predicate SamePin(s: Banks, t: Banks, bank: nat, pin: nat)
    requires bank < BANKS && pin < 8
  {
    && (IsSet(s[bank].dir, pin) <==> IsSet(t[bank].dir, pin))
    && (IsSet(s[bank].data, pin) <==> IsSet(t[bank].data, pin))
  }

  predicate OthersSame(s: Banks, t: Banks, bank: nat, pin: nat) {
    forall b, p :: 0 <= b < BANKS && 0 <= p < 8 && (b, p) != (bank, pin) ==> SamePin(s, t, b, p)
  }

  lemma CallTouchesOnePin(s: Banks, c: Command, fate: Fate)
    requires !c.Restore?
    ensures OthersSame(s, Call(s, c, fate).0, c.bank, c.pin)
  {
    var t := Call(s, c, fate).0;
    forall b, p | 0 <= b < BANKS && 0 <= p < 8 && (b, p) != (c.bank, c.pin) ensures SamePin(s, t, b, p) {
      if Accepted(c) && c.Dir? {
        DirSelects(s[c.bank], c, p);
      } else if Accepted(c) {
        SetSelects(s[c.bank], c, p);
      }
    }
  }

  /** What a call that reaches the registers is for: a direction, a level that only
      an output takes, or all directions of a bank; and nothing else. */
  predicate AsTold(s: Banks, t: Banks, c: Command)
    requires Accepted(c)
  {
    match c
    case Dir(bank, pin, mode) =>
      OthersSame(s, t, bank, pin) && t[bank].data == s[bank].data && (IsSet(t[bank].dir, pin) <==> mode == "out")
    case Set(bank, pin, level) =>
      && OthersSame(s, t, bank, pin) && t[bank].dir == s[bank].dir
      && (IsSet(t[bank].data, pin) <==> if IsSet(s[bank].dir, pin) then level == "1" else IsSet(s[bank].data, pin))
    case Restore(bank, mask) =>
      t[bank] == Bank(mask, s[bank].data) && forall b :: 0 <= b < BANKS && b != bank ==> t[b] == s[b]
  }

  lemma CallDoesAsTold(s: Banks, c: Command, fate: Fate)
    requires Accepted(c) && fate != FailsBefore
    ensures AsTold(s, Call(s, c, fate).0, c)
  {
    if !c.Restore? {
      CallTouchesOnePin(s, c, fate);
      if c.Dir? {
        DirSelects(s[c.bank], c, c.pin);
      } else {
        SetSelects(s[c.bank], c, c.pin);
      }
    }
  }

  lemma OthersSameTwice(s: Banks, t: Banks, u: Banks, bank: nat, pin: nat)
    requires OthersSame(s, t, bank, pin) && OthersSame(t, u, bank, pin)
    ensures OthersSame(s, u, bank, pin)
  {
    forall b, p | 0 <= b < BANKS && 0 <= p < 8 && (b, p) != (bank, pin) ensures SamePin(s, u, b, p) {
      assert SamePin(s, t, b, p) && SamePin(t, u, b, p);
    }
  }

  /** The banks when the pulse's own work is over and the cleanup begins. */
  function Driven(s: Banks, bank: nat, pin: nat, f: Fates): Banks {
    var (s1, raised) := Call(s, Dir(bank, pin, "out"), f.out);
    if raised then s1 else Call(s1, Set(bank, pin, "1"), f.on).0
  }

  lemma DrivenTouchesOnePin(s: Banks, bank: nat, pin: nat, f: Fates)
    ensures OthersSame(s, Driven(s, bank, pin, f), bank, pin)
  {
    var (s1, raised) := Call(s, Dir(bank, pin, "out"), f.out);
    CallTouchesOnePin(s, Dir(bank, pin, "out"), f.out);
    if !raised {
      CallTouchesOnePin(s1, Set(bank, pin, "1"), f.on);
      OthersSameTwice(s, s1, Driven(s, bank, pin, f), bank, pin);
    }
  }

  /** Putting the old directions back changes at most the pulsed pin as well. */
  lemma RestoreTouchesOnePin(s: Banks, t: Banks, bank: nat, pin: nat, fate: Fate)
    requires bank < BANKS && OthersSame(s, t, bank, pin)
    ensures OthersSame(s, Call(t, Restore(bank, s[bank].dir), fate).0, bank, pin)
  {
    var u := Call(t, Restore(bank, s[bank].dir), fate).0;
    forall b, p | 0 <= b < BANKS && 0 <= p < 8 && (b, p) != (bank, pin) ensures SamePin(s, u, b, p) {
      assert SamePin(s, t, b, p);
    }
  }

  /** However the helper calls go, a pulse changes no other pin of the box. */
  lemma PulseTouchesOnePin(s: Banks, bank: nat, pin: nat, f: Fates)
    ensures OthersSame(s, AfterPulse(s, bank, pin, f), bank, pin)
  {
    if f.dump && bank < BANKS {
      var s2 := Driven(s, bank, pin, f);
      var (s3, stuck) := Call(s2, Set(bank, pin, "0"), f.off);
      DrivenTouchesOnePin(s, bank, pin, f);
      CallTouchesOnePin(s2, Set(bank, pin, "0"), f.off);
      OthersSameTwice(s, s2, s3, bank, pin);
      RestoreTouchesOnePin(s, s3, bank, pin, f.restore);
    }
  }

  lemma DriveTouchesOnePin(s: Banks, r: Request)
    requires r.Drive?
    ensures OthersSame(s, AfterDrive(s, r.bank, r.pin, r.direction, r.level, r.f1, r.f2), r.bank, r.pin)
  {
    var (s1, raised) := if r.direction.Some? then Call(s, Dir(r.bank, r.pin, r.direction.value), r.f1) else (s, false);
    if r.direction.Some? {
      CallTouchesOnePin(s, Dir(r.bank, r.pin, r.direction.value), r.f1);
    }
    if !raised && r.level.Some? {
      CallTouchesOnePin(s1, Set(r.bank, r.pin, r.level.value), r.f2);
      OthersSameTwice(s, s1, Call(s1, Set(r.bank, r.pin, r.level.value), r.f2).0, r.bank, r.pin);
    }
  }

  /** Over any sequence of requests, with any helper call failing anyhow, the lines
      of the kernel's LED driver keep their direction and their level. */
  lemma {:induction false} ReservedLinesKept(s: Banks, requests: seq<Request>, pin: nat)
    requires pin < 8 && Reserved(5, pin)
    ensures SamePin(s, AfterAll(s, requests), 5, pin)
  {
    if requests != [] {
      var before, r := AfterAll(s, requests[..|requests| - 1]), requests[|requests| - 1];
      ReservedLinesKept(s, requests[..|requests| - 1], pin);
      if !Reserved(r.bank, r.pin) {
        match r {
          case Pulse(bank, p, f) => PulseTouchesOnePin(before, bank, p, f);
          case Drive(_, _, _, _, _, _) => DriveTouchesOnePin(before, r);
        }
        assert SamePin(before, AfterRequest(before, r), 5, pin);
      }
    }
  }

  // ---- what a direct request does ----

  /** The direction call is asked for and good. */
  predicate TurnsTo(r: Request, mode: string)
    requires r.Drive?
  {
    r.direction == Some(mode) && mode in {"in", "out"} && r.f1 != FailsBefore
  }

  /** No direction call, or one that says it worked. */
  predicate GetsToLevel(r: Request)
    requires r.Drive?
  {
    r.direction.Some? ==> r.direction.value in {"in", "out"} && r.f1 == Works
  }

  /** The level call is made, is good, and has its effect. */
  predicate SetsTo(r: Request, level: string)
    requires r.Drive?
  {
    GetsToLevel(r) && r.level == Some(level) && level in {"0", "1"} && r.f2 != FailsBefore
  }

  /** What a direct request for an existing pin comes to: the direction asked for, and
      then the level asked for if the pin is an output by now; what was not asked for,
      or did not get through, stays. */
  predicate AsRequested(s: Banks, t: Banks, r: Request)
    requires r.Drive? && r.bank < BANKS && r.pin < 8
  {
    var b, b' := s[r.bank], t[r.bank];
    && (IsSet(b'.dir, r.pin) <==>
          TurnsTo(r, "out") || (!TurnsTo(r, "in") && IsSet(b.dir, r.pin)))
    && (IsSet(b'.data, r.pin) <==>
          if IsSet(b'.dir, r.pin) && (SetsTo(r, "0") || SetsTo(r, "1")) then SetsTo(r, "1") else IsSet(b.data, r.pin))
  }

  lemma CallIsAsTold(s: Banks, c: Command, fate: Fate)
    ensures var (t, raised) := Call(s, c, fate);
            && (raised <==> !Accepted(c) || fate != Works)
            && (if Accepted(c) && fate != FailsBefore then AsTold(s, t, c) else t == s)
  {
    if Accepted(c) && fate != FailsBefore {
      CallDoesAsTold(s, c, fate);
    }
  }

  lemma DirectionCall(s: Banks, r: Request)
    requires r.Drive? && r.bank < BANKS && r.pin < 8 && r.direction.Some?
    ensures var (s1, raised) := Call(s, Dir(r.bank, r.pin, r.direction.value), r.f1);
            && (raised <==> !GetsToLevel(r))
            && (IsSet(s1[r.bank].dir, r.pin) <==>
                  TurnsTo(r, "out") || (!TurnsTo(r, "in") && IsSet(s[r.bank].dir, r.pin)))
            && s1[r.bank].data == s[r.bank].data
  {
    CallIsAsTold(s, Dir(r.bank, r.pin, r.direction.value), r.f1);
  }

  lemma LevelCall(s: Banks, r: Request)
    requires r.Drive? && r.bank < BANKS && r.pin < 8 && r.level.Some? && GetsToLevel(r)
    ensures var t := Call(s, Set(r.bank, r.pin, r.level.value), r.f2).0;
            && t[r.bank].dir == s[r.bank].dir
            && (IsSet(t[r.bank].data, r.pin) <==>
                  if IsSet(s[r.bank].dir, r.pin) && (SetsTo(r, "0") || SetsTo(r, "1")) then SetsTo(r, "1")
                  else IsSet(s[r.bank].data, r.pin))
  {
    CallIsAsTold(s, Set(r.bank, r.pin, r.level.value), r.f2);
  }

  lemma DriveDoesAsRequested(s: Banks, r: Request)
    requires r.Drive? && r.bank < BANKS && r.pin < 8
    ensures AsRequested(s, AfterDrive(s, r.bank, r.pin, r.direction, r.level, r.f1, r.f2), r)
  {
    var s1 := s;
    if r.direction.Some? {
      s1 := Call(s, Dir(r.bank, r.pin, r.direction.value), r.f1).0;
      DirectionCall(s, r);
    }
    if r.level.Some? && GetsToLevel(r) {
      LevelCall(s1, r);
    }
  }

  /** Every call asked for is good and works. */
  predicate Succeeds(r: Request) {
    match r
    case Drive(bank, pin, direction, level, f1, f2) =>
      && (direction.Some? ==> bank < 10 && pin < 8 && direction.value in {"in", "out"} && f1 == Works)
      && (level.Some? ==> bank < 10 && pin < 8 && level.value in {"0", "1"} && f2 == Works)
    case Pulse(bank, pin, f) =>
      bank < 10 && pin < 8 && f.dump && f.out == Works && f.on == Works && f.off == Works && f.restore == Works
  }

  // ---- what a pulse leaves behind ----

  /** Both cleanup calls do their work, and the first one says so. */
  predicate CleansUp(f: Fates) {
    f.off == Works && f.restore != FailsBefore
  }

  predicate SameDirections(s: Banks, t: Banks) {
    forall b :: 0 <= b < BANKS ==> s[b].dir == t[b].dir
  }

  /** The pin is an output when the cleanup starts. */
  predicate Drives(s: Banks, bank: nat, pin: nat, f: Fates)
    requires bank < BANKS && pin < 8
  {
    f.out != FailsBefore || IsSet(s[bank].dir, pin)
  }

  lemma DrivenDirections(s: Banks, bank: nat, pin: nat, f: Fates)
    requires bank < BANKS && pin < 8
    ensures var t := Driven(s, bank, pin, f);
            && (forall b :: 0 <= b < BANKS && b != bank ==> t[b] == s[b])
            && t[bank].dir == (if f.out == FailsBefore then s[bank].dir else s[bank].dir | Bit(pin))
  {
  }

  /** The cleanup on its own. */
  function Cleaned(t: Banks, bank: nat, pin: nat, original: bv8, f: Fates): Banks {
    var (s3, stuck) := Call(t, Set(bank, pin, "0"), f.off);
    if stuck then s3 else Call(s3, Restore(bank, original), f.restore).0
  }

  lemma CleanedDirections(t: Banks, bank: nat, pin: nat, original: bv8, f: Fates)
    requires bank < BANKS && pin < 8
    ensures var u := Cleaned(t, bank, pin, original, f);
            && (forall b :: 0 <= b < BANKS && b != bank ==> u[b] == t[b])
            && u[bank].dir == if CleansUp(f) then original else t[bank].dir
  {
    SetKeepsDirections(t, bank, pin, f.off);
  }

  lemma SetKeepsDirections(t: Banks, bank: nat, pin: nat, fate: Fate)
    requires bank < BANKS && pin < 8
    ensures var (u, raised) := Call(t, Set(bank, pin, "0"), fate);
            && (raised <==> fate != Works)
            && u[bank].dir == t[bank].dir && forall b :: 0 <= b < BANKS && b != bank ==> u[b] == t[b]
  {
    SetIsMaskedWrite(t[bank], Set(bank, pin, "0"));
  }

  lemma PulseIsTwoPhases(s: Banks, bank: nat, pin: nat, f: Fates)
    requires f.dump && bank < BANKS
    ensures AfterPulse(s, bank, pin, f) == Cleaned(Driven(s, bank, pin, f), bank, pin, s[bank].dir, f)
  {
  }

  /** The pulse puts all 80 directions back, whatever its own calls did, exactly
      when the cleanup gets through or there was nothing to put back. */
  lemma DirectionsRestored(s: Banks, bank: nat, pin: nat, f: Fates)
    requires f.dump && bank < BANKS && pin < 8
    ensures SameDirections(s, AfterPulse(s, bank, pin, f)) <==>
            CleansUp(f) || f.out == FailsBefore || IsSet(s[bank].dir, pin)
  {
    PulseIsTwoPhases(s, bank, pin, f);
    DrivenDirections(s, bank, pin, f);
    CleanedDirections(Driven(s, bank, pin, f), bank, pin, s[bank].dir, f);
    OrIsAbsorbed(s[bank].dir, pin);
  }

  /** A request for a pin or bank that does not exist, or one whose first dump
      fails, changes nothing. */
  lemma BadPulseDoesNothing(s: Banks, bank: nat, pin: nat, f: Fates)
    requires !f.dump || BANKS <= bank || 8 <= pin
    ensures AfterPulse(s, bank, pin, f) == s
  {
  }

  lemma OrIsAbsorbed(v: bv8, pin: nat)
    requires pin < 8
    ensures v | Bit(pin) == v <==> IsSet(v, pin)
  {
  }

  lemma DrivenIsOutput(s: Banks, bank: nat, pin: nat, f: Fates)
    requires bank < BANKS && pin < 8
    ensures IsSet(Driven(s, bank, pin, f)[bank].dir, pin) <==> Drives(s, bank, pin, f)
    ensures !Drives(s, bank, pin, f) ==> Driven(s, bank, pin, f) == s
  {
    DrivenDirections(s, bank, pin, f);
    OwnDirection(s[bank].dir, pin);
  }

  /** In between, while the pulse lasts: the pin is an output and high if both calls
      worked; a pin that could not be made an output is not set. */
  lemma DrivenHigh(s: Banks, bank: nat, pin: nat, f: Fates)
    requires bank < BANKS && pin < 8
    ensures f.out == Works && f.on != FailsBefore ==>
              IsSet(Driven(s, bank, pin, f)[bank].dir, pin) && IsSet(Driven(s, bank, pin, f)[bank].data, pin)
    ensures f.out != Works || f.on == FailsBefore ==>
              (IsSet(Driven(s, bank, pin, f)[bank].data, pin) <==> IsSet(s[bank].data, pin))
  {
    var s1 := Call(s, Dir(bank, pin, "out"), f.out).0;
    CallIsAsTold(s, Dir(bank, pin, "out"), f.out);
    CallIsAsTold(s1, Set(bank, pin, "1"), f.on);
  }

  lemma CleanedLevel(t: Banks, bank: nat, pin: nat, original: bv8, f: Fates)
    requires bank < BANKS && pin < 8 && CleansUp(f)
    ensures IsSet(Cleaned(t, bank, pin, original, f)[bank].data, pin) <==>
            IsSet(t[bank].data, pin) && !IsSet(t[bank].dir, pin)
  {
    SetSelects(t[bank], Set(bank, pin, "0"), pin);
  }

  /** After a pulse the pin is driven low if it was an output at all; only a pin
      that was never driven keeps its level. */
  lemma PulseLeavesLow(s: Banks, bank: nat, pin: nat, f: Fates)
    requires f.dump && bank < BANKS && pin < 8 && CleansUp(f)
    ensures IsSet(AfterPulse(s, bank, pin, f)[bank].data, pin) <==>
            IsSet(s[bank].data, pin) && !Drives(s, bank, pin, f)
  {
    PulseIsTwoPhases(s, bank, pin, f);
    DrivenIsOutput(s, bank, pin, f);
    CleanedLevel(Driven(s, bank, pin, f), bank, pin, s[bank].dir, f);
  }

  /** "Put it back the way it was" holds exactly for a pin whose level bit was clear
      or that the pulse never drove; a bit that was set is left clear, be it of an
      output or a left-over at an input. */
  lemma PulseIsUndone(s: Banks, bank: nat, pin: nat, f: Fates)
    requires f.dump && bank < BANKS && pin < 8 && CleansUp(f)
    ensures SamePin(s, AfterPulse(s, bank, pin, f), bank, pin) && OthersSame(s, AfterPulse(s, bank, pin, f), bank, pin)
            <==> !IsSet(s[bank].data, pin) || !Drives(s, bank, pin, f)
  {
    PulseTouchesOnePin(s, bank, pin, f);
    DirectionsRestored(s, bank, pin, f);
    PulseLeavesLow(s, bank, pin, f);
  }

  /** Any sequence of pulses whose cleanups get through leaves all directions as it
      found them. */
  lemma {:induction false} PulsesKeepDirections(s: Banks, requests: seq<Request>)
    requires forall i :: 0 <= i < |requests| ==> requests[i].Pulse? && CleansUp(requests[i].fates)
    ensures SameDirections(s, AfterAll(s, requests))
  {
    if requests != [] {
      var before, r := requests[..|requests| - 1], requests[|requests| - 1];
      PulsesKeepDirections(s, before);
      var t := AfterAll(s, before);
      if !Reserved(r.bank, r.pin) {
        if r.fates.dump && r.bank < BANKS && r.pin < 8 {
          DirectionsRestored(t, r.bank, r.pin, r.fates);
        } else {
          BadPulseDoesNothing(t, r.bank, r.pin, r.fates);
        }
      }
    }
  }

  // ---- the requests as the panel carries them out ----

  /** During a pulse its pin is a high output, and the rest is as before. */
  predicate Holds(s: Banks, t: Banks, bank: nat, pin: nat)
    requires bank < BANKS && pin < 8
  {
    IsSet(t[bank].dir, pin) && IsSet(t[bank].data, pin) && OthersSame(s, t, bank, pin)
  }

  datatype Reply = Done | HelperFailed | Refused | NoSuchBank

  class Panel {
    var banks: Banks

    /** The banks during each pulse that came about, oldest first. */
    ghost var held: seq<Banks>

    constructor (banks: Banks)
      ensures this.banks == banks && held == []
    {
      this.banks, held := banks, [];
    }

    /** time.sleep in the middle of a pulse. */
    method Sleep()
      modifies this`held
      ensures held == old(held) + [banks]
    {
      held := held + [banks];
    }

    /** One run of the privileged helper. Bad arguments are told by an error and
        change nothing; an error for good ones does not tell whether the effect,
        which is then all of it and nothing else, has happened. */
    method Helper(c: Command, fate: Fate) returns (raised: bool)
      modifies this`banks
      ensures (banks, raised) == Call(old(banks), c, fate)
      ensures raised <==> !Accepted(c) || fate != Works
      ensures !Accepted(c) || fate == FailsBefore ==> banks == old(banks)
      ensures Accepted(c) && fate != FailsBefore ==> AsTold(old(banks), banks, c)
    {
      if !Accepted(c) || fate == FailsBefore {
        return true;
      }
      CallDoesAsTold(banks, c, fate);
      banks := banks[c.bank := Effect(banks[c.bank], c)];
      raised := fate == FailsAfter;
    }

    /** A pulse, with its cleanup in any case. Where both calls work the pin is held
        high, and no other pin is touched. */
    method GpioPulse(bank: nat, pin: nat, f: Fates) returns (reply: Reply)
      modifies this
      ensures banks == AfterPulse(old(banks), bank, pin, f)
      ensures reply == Done <==> Succeeds(Pulse(bank, pin, f))
      ensures reply == NoSuchBank <==> f.dump && 10 <= bank
      ensures reply != Refused
      ensures if f.dump && bank < 10 && pin < 8 && f.out == Works && f.on == Works
              then |held| == |old(held)| + 1 && old(held) < held && Holds(old(banks), held[|old(held)|], bank, pin)
              else held == old(held)
    {
      if !f.dump {
        return HelperFailed;
      }
      if BANKS <= bank {
        return NoSuchBank;
      }
      var original := banks[bank].dir;
      var raised := Helper(Dir(bank, pin, "out"), f.out);
      if !raised {
        raised := Helper(Set(bank, pin, "1"), f.on);
        if !raised {
          DrivenTouchesOnePin(old(banks), bank, pin, f);
          DrivenHigh(old(banks), bank, pin, f);
          Sleep();
        }
      }
      var stuck := Helper(Set(bank, pin, "0"), f.off);
      if stuck {
        return HelperFailed;
      }
      stuck := Helper(Restore(bank, original), f.restore);
      return if raised || stuck then HelperFailed else Done;
    }

    /** One request: refused for the two lines of the LED driver, otherwise carried out
        call by call, up to the first that raises. */
    method HandleGpio(r: Request) returns (reply: Reply)
      modifies this
      ensures banks == AfterRequest(old(banks), r)
      ensures reply == Refused <==> r.bank == 5 && r.pin in {0, 2}
      ensures reply == Refused || 10 <= r.bank || 8 <= r.pin ==> banks == old(banks)
      ensures reply != Refused && r.Drive? && r.bank < 10 && r.pin < 8 ==>
                && AsRequested(old(banks), banks, r)
                && OthersSame(old(banks), banks, r.bank, r.pin)
      ensures reply == Done <==> !(r.bank == 5 && r.pin in {0, 2}) && Succeeds(r)
    {
      if Reserved(r.bank, r.pin) {
        return Refused;
      }
      match r
      case Pulse(bank, pin, f) => reply := GpioPulse(bank, pin, f);
      case Drive(bank, pin, direction, level, f1, f2) =>
        DriveTouchesOnePin(banks, r);
        if bank < BANKS && pin < 8 {
          DriveDoesAsRequested(banks, r);
        }
        var raised := false;
        if direction.Some? {
          raised := Helper(Dir(bank, pin, direction.value), f1);
          if raised {
            return HelperFailed;
          }
        }
        if level.Some? {
          raised := Helper(Set(bank, pin, level.value), f2);
        }
        reply := if raised then HelperFailed else Done;
    }

    /** Requests one at a time. */
    method Serve(requests: seq<Request>)
      modifies this
      ensures banks == AfterAll(old(banks), requests)
      ensures SamePin(old(banks), banks, 5, 0) && SamePin(old(banks), banks, 5, 2)
    {
      for i := 0 to |requests|
        invariant banks == AfterAll(old(banks), requests[..i])
      {
        assert requests[..i + 1][..i] == requests[..i];
        var _ := HandleGpio(requests[i]);
      }
      assert requests[..|requests|] == requests;
      ReservedLinesKept(old(banks), requests, 0);
      ReservedLinesKept(old(banks), requests, 2);
    }
  }
}
