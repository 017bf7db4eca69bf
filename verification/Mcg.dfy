/** The mode transitions of mcg.c on the control registers and a status register that follows them. */
module Mcg {
  import opened Common
  import opened McgRegs

  datatype Mode = BLPI | FBI | FEI | FEE | FBE | BLPE | PBE | PEE

  /** The frequency that a transition returns, or its error code. */
  datatype Result = Hz(freq: int) | Err(code: int)

  /** MCG_S: each field reports what the hardware has done so far about the control registers. */
  datatype Status = Status(clkst: int, irefst: bool, pllst: bool, ircst: bool, oscinit: bool, lock: bool)

  datatype Test = ClkstIs(v: int) | IrefstIs(b: bool) | PllstIs(b: bool) | IrcstIs(b: bool) | OscinitSet | LockSet

  predicate Holds(t: Test, s: Status) {
    match t
    case ClkstIs(v) => s.clkst == v
    case IrefstIs(b) => s.irefst == b
    case PllstIs(b) => s.pllst == b
    case IrcstIs(b) => s.ircst == b
    case OscinitSet => s.oscinit
    case LockSet => s.lock
  }

  /** The CLKST value that the control registers ask for; 3 stands for the PLL. */
  function WantedClkst(r: Regs): int {
    if r.c1.clks == 0 then (if r.c6.plls then 3 else 0) else if r.c1.clks == 1 then 1 else 2
  }

  /** Between two reads each field either stays or becomes what the control registers ask for; the
      reserved CLKS value 3 asks for nothing in particular, and OSCINIT and LOCK come and go. */
  predicate Drifts(r: Regs, s: Status, t: Status) {
    && (t.clkst == s.clkst || t.clkst == WantedClkst(r) || r.c1.clks == 3)
    && (t.irefst == s.irefst || t.irefst == r.c1.irefs)
    && (t.pllst == s.pllst || t.pllst == r.c6.plls)
    && (t.ircst == s.ircst || t.ircst == r.c2.ircs)
  }

  /** The control registers ask for this status; nobody asks for OSCINIT and LOCK. */
  predicate Asked(t: Test, r: Regs) {
    match t
    case ClkstIs(v) => r.c1.clks != 3 && v == WantedClkst(r)
    case IrefstIs(b) => b == r.c1.irefs
    case PllstIs(b) => b == r.c6.plls
    case IrcstIs(b) => b == r.c2.ircs
    case _ => false
  }

  lemma AskedStays(t: Test, r: Regs, s: Status, s': Status)
    requires Drifts(r, s, s')
    ensures Asked(t, r) && Holds(t, s) ==> Holds(t, s')
  {
  }

  /** An internal reference is selected: the clock monitor must be off. */
  predicate Internal(c1: C1Reg) { c1.irefs || c1.clks == 1 }

  predicate IsInternal(m: Mode) { m == FEI || m == FBI || m == BLPI }

  predicate IsLowPower(m: Mode) { m == BLPI || m == BLPE }

  /** The mode checks of FEI, FEE and PEE do not look at the LP bit. */
  predicate TestsLp(m: Mode) { m != FEI && m != FEE && m != PEE }

  function ModeClkst(m: Mode): int {
    match m
    case FEI => 0
    case FEE => 0
    case FBI => 1
    case BLPI => 1
    case PEE => 3
    case FBE => 2
    case PBE => 2
    case BLPE => 2
  }

  /** What the source's check for mode `m` finds once the status fields are the ones asked for. */
  predicate Shows(m: Mode, r: Regs) {
    && WantedClkst(r) == ModeClkst(m)
    && r.c1.irefs == IsInternal(m)
    && (m != BLPE ==> r.c6.plls == (m == PBE || m == PEE))
    && (TestsLp(m) ==> r.c2.lp == IsLowPower(m))
  }

  /** The hardware has caught up with the control registers. */
  predicate Steady(r: Regs, s: Status) {
    r.c1.clks != 3 && s.clkst == WantedClkst(r) && s.irefst == r.c1.irefs && s.pllst == r.c6.plls
  }

  predicate SameMode(s: Status, t: Status) { t.clkst == s.clkst && t.irefst == s.irefst && t.pllst == s.pllst }

  predicate Settled(m: Mode, r: Regs, s: Status) {
    Steady(r, s) && Shows(m, r) && r.c2.lp == IsLowPower(m)
  }

  /** Codes for a wrong mode or for arguments out of range. */
  predicate Rejection(code: int) {
    code < 0x10 || code == 0x21 || code == 0x22 || code == 0x31 || code == 0x32
    || code == 0x41 || code == 0x42 || code == 0x43 || code == 0x45
  }

  /** No transition touches C4 or SC, and a call that is rejected leaves every control register alone. */
  predicate Kept(before: Regs, after: Regs, r: Result) {
    && after.c4 == before.c4 && after.sc == before.sc
    && (r.Err? && Rejection(r.code) ==> after == before)
  }

  /** The status that a time-out code says was not reached. */
  function Awaited(code: int): Option<Test> {
    if code == 0x11 then Some(IrefstIs(false)) else if code == 0x12 then Some(IrefstIs(true))
    else if code == 0x13 then Some(IrcstIs(false)) else if code == 0x14 then Some(IrcstIs(true))
    else if code == 0x15 then Some(PllstIs(false)) else if code == 0x16 then Some(PllstIs(true))
    else if code == 0x18 then Some(ClkstIs(0)) else if code == 0x19 then Some(ClkstIs(1))
    else if code == 0x1A then Some(ClkstIs(2)) else if code == 0x1B then Some(ClkstIs(3))
    else if code == 0x23 then Some(OscinitSet) else if code == 0x44 then Some(LockSet)
    else None
  }

  /** A time-out code is the truth about the status that was read last. */
  predicate TimedOut(code: int, s: Status) {
    Awaited(code).Some? && !Holds(Awaited(code).value, s)
  }

  predicate FllError(code: int) { 0x33 <= code <= 0x3B }

  function ModeError(m: Mode): int {
    match m
    case FEI => 1
    case FEE => 2
    case FBI => 3
    case FBE => 4
    case BLPI => 5
    case BLPE => 6
    case PBE => 7
    case PEE => 8
  }

  /** The mode numbers of mcg.h. */
  function ModeCode(m: Mode): int {
    match m
    case BLPI => 1
    case FBI => 2
    case FEI => 3
    case FEE => 4
    case FBE => 5
    case BLPE => 6
    case PBE => 7
    case PEE => 8
  }

  function ShownMode(r: Regs): int {
    if Shows(FEI, r) then 3 else if Shows(PEE, r) then 8 else if Shows(PBE, r) then 7
    else if Shows(FBE, r) then 5 else if Shows(BLPE, r) then 6 else if Shows(BLPI, r) then 1
    else if Shows(FBI, r) then 2 else if Shows(FEE, r) then 4 else 0
  }

  /** The mode checks are mutually exclusive on a settled generator, so the first that succeeds names
      the mode. */
  lemma OneMode(m: Mode, n: Mode, r: Regs, s: Status)
    requires Settled(m, r, s)
    ensures (Shows(n, r) <==> m == n) && ShownMode(r) == ModeCode(m)
  {
  }

  class Generator {
    const clk: Board
    var C1: C1Reg
    var C2: C2Reg
    var C4: C4Reg
    var C5: C5Reg
    var C6: C6Reg
    var SC: ScReg
    var S: Status
    var coreClock: int
    /** How often the status register has been read. */
    ghost var polls: nat

    function R(): Regs
      reads `C1, `C2, `C4, `C5, `C6, `SC
    {
      Regs(C1, C2, C4, C5, C6, SC)
    }

    /** The monitor is enabled only while an external reference is selected, and then the hardware has
        left the internal reference. */
    ghost predicate Safe()
      reads this
    {
      C6.cme ==> !Internal(C1) && !S.irefst
    }

    ghost predicate At(m: Mode)
      reads this
    {
      && Settled(m, R(), S)
      && (!IsInternal(m) ==> TunedTo(R(), clk.xtal))
      && (m == PBE || m == PEE ==> RefCheck(clk.xtal, PrDiv(C5), VDiv(C6)) == 0)
    }

    /** What every transition from mode `src` to mode `dst` keeps and achieves; `check` is the code for
        its arguments, or 0.  A settled generator rejects the call exactly for the wrong mode or for
        the arguments, with the right code and without a write; a time-out code tells the truth; if the
        call succeeds, on whatever arguments, then the generator is settled in mode `dst`; and if they
        match the clocks of the board then the result is the output frequency. */
    twostate predicate Moves(src: Mode, dst: Mode, check: int, matching: bool, r: Result)
      reads this
    {
      && Safe()
      && Kept(old(R()), R(), r)
      && (r.Err? ==> Rejection(r.code) || r.code == check || TimedOut(r.code, S) || (dst == FEE && FllError(r.code)))
      && (old(Steady(R(), S)) ==>
            if !old(Shows(src, R())) then r == Err(ModeError(src))
            else if check != 0 then r == Err(check) && R() == old(R())
            else r.Err? ==> !Rejection(r.code))
      && (old(Settled(src, R(), S)) && r.Hz? ==> Settled(dst, R(), S))
      && (old(At(src)) && matching ==> Ends(dst, r))
    }

    /** A successful call ends in mode `m` and returned the frequency that the registers stand for. */
    ghost predicate Ends(m: Mode, r: Result)
      reads this
    {
      r.Hz? ==> At(m) && r.freq == McgOut(R(), clk) && 0 <= r.freq < TWO_32
    }

    constructor (clk: Board, r: Regs, s: Status)
      requires Settled(FEI, r, s) && !r.c6.cme
      ensures this.clk == clk && R() == r && S == s && Safe() && At(FEI)
    {
      this.clk, S, coreClock, polls := clk, s, 0, 0;
      C1, C2, C4, C5, C6, SC := r.c1, r.c2, r.c4, r.c5, r.c6, r.sc;
    }

    // ---------- Register access ----------

    method ReadS() returns (s: Status)
      requires Safe()
      modifies this`S, this`polls
      ensures s == S && Safe() && Drifts(R(), old(S), S) && polls == old(polls) + 1
    {
      var clkst: bool, irefst: bool, pllst: bool, ircst: bool := *, *, *, *;
      var oscinit: bool, lock: bool, any: int := *, *, *;
      S := Status(if C1.clks == 3 then any else if clkst then WantedClkst(R()) else S.clkst,
                  if irefst then C1.irefs else S.irefst,
                  if pllst then C6.plls else S.pllst,
                  if ircst then C2.ircs else S.ircst,
                  oscinit, lock);
      s, polls := S, polls + 1;
    }

    /** Every write to C1 or C6 keeps the monitor off while an internal reference is selected. */
    method WriteC1(v: C1Reg)
      requires Safe() && (C6.cme ==> !Internal(v))
      modifies this`C1
      ensures Safe() && C1 == v
    {
      C1 := v;
    }

    method WriteC6(v: C6Reg)
      requires Safe() && (v.cme ==> !Internal(C1) && !S.irefst)
      modifies this`C6
      ensures Safe() && C6 == v
    {
      C6 := v;
    }

    method Sees(t: Test) returns (ok: bool)
      requires Safe()
      modifies this`S, this`polls
      ensures Safe() && Drifts(R(), old(S), S) && ok == Holds(t, S) && polls == old(polls) + 1
      ensures old(Steady(R(), S)) ==> Steady(R(), S) && SameMode(old(S), S)
    {
      var s := ReadS();
      ok := Holds(t, s);
    }

    /** The bounded polling loop. */
    method Poll(t: Test, limit: nat) returns (seen: bool)
      requires Safe()
      modifies this`S, this`polls
      ensures Safe() && Drifts(R(), old(S), S)
      ensures if seen then Holds(t, S) else polls == old(polls) + limit
    {
      var i := 0;
      while i < limit
        invariant 0 <= i <= limit && polls == old(polls) + i
        invariant Safe() && Drifts(R(), old(S), S)
      {
        seen := Sees(t);
        if seen { return; }
        i := i + 1;
      }
      return false;
    }

    /** The loop and the check behind it: a poll for what the control registers ask for fails only after
        `limit` reads and one more. */
    method Await(t: Test, limit: nat) returns (ok: bool)
      requires Safe()
      modifies this`S, this`polls
      ensures Safe() && Drifts(R(), old(S), S) && ok == Holds(t, S)
      ensures !ok && Asked(t, R()) ==> polls == old(polls) + limit + 1
    {
      var seen := Poll(t, limit);
      ghost var s := S;
      ok := Sees(t);
      AskedStays(t, R(), s, S);
    }

    /** The mode check at the head of each transition: one read of MCG_S for each field it tests. */
    method InMode(m: Mode) returns (ok: bool)
      requires Safe()
      modifies this`S, this`polls
      ensures Safe() && Drifts(R(), old(S), S)
      ensures old(Steady(R(), S)) ==> Steady(R(), S) && ok == Shows(m, R())
      ensures ok && IsInternal(m) ==> !C6.cme
      ensures ok && TestsLp(m) ==> C2.lp == IsLowPower(m)
    {
      ok := Sees(ClkstIs(ModeClkst(m)));
      if ok {
        ok := Sees(IrefstIs(IsInternal(m)));
      }
      if ok && m != BLPE {
        ok := Sees(PllstIs(m == PBE || m == PEE));
      }
      if ok && TestsLp(m) {
        ok := C2.lp == IsLowPower(m);
      }
    }

    // ---------- Parts that several transitions share ----------

    /** Wait for the oscillator, if there is one, and for the FLL reference to become external. */
    method AwaitExternal(erefs: bv8, limit: nat) returns (code: int)
      requires Safe()
      modifies this`S, this`polls
      ensures Safe() && Drifts(R(), old(S), S)
      ensures code == 0 || code == 0x23 || code == 0x11
      ensures if code == 0 then !S.irefst else TimedOut(code, S)
    {
      if erefs != 0 {
        var ok := Await(OscinitSet, limit);
        if !ok { return 0x23; }
      }
      var ok := Await(IrefstIs(false), 2000);
      return if ok then 0 else 0x11;
    }

    method AwaitIrc(fast: bool) returns (code: int)
      requires Safe()
      modifies this`S, this`polls
      ensures Safe() && Drifts(R(), old(S), S)
      ensures code == 0 || (code == (if fast then 0x14 else 0x13) && TimedOut(code, S))
    {
      var ok := Await(IrcstIs(fast), 2000);
      return if ok then 0 else if fast then 0x14 else 0x13;
    }

    /** The PLL is selected and has locked. */
    method AwaitPll(limit: nat) returns (code: int)
      requires Safe()
      modifies this`S, this`polls
      ensures Safe() && Drifts(R(), old(S), S)
      ensures code == 0 || ((code == 0x16 || code == 0x44) && TimedOut(code, S))
      ensures code == 0 && C6.plls ==> S.pllst
    {
      var ok := Await(PllstIs(true), 2000);
      if !ok { return 0x16; }
      ok := Await(LockSet, limit);
      return if ok then 0 else 0x44;
    }

    /** Configure the PLL dividers, select the PLL behind the external clock, and let it lock. */
    method StartPll(prdiv: int, vdiv: int, limit: nat) returns (code: int)
      requires Safe() && 1 <= prdiv <= 25 && 24 <= vdiv <= 50
      modifies this`C5, this`C6, this`S, this`polls
      ensures Safe() && R() == FbePbeRegs(old(R()), prdiv, vdiv) && Drifts(R(), old(S), S)
      ensures code == 0 || ((code == 0x16 || code == 0x44) && TimedOut(code, S))
      ensures code == 0 ==> S.pllst
    {
      C5 := PrdivC5(C5, prdiv);
      WriteC6(VdivC6(C6, vdiv));
      code := AwaitPll(limit);
    }

    /** Clear CLKS and wait for the PLL output. */
    method EngagePll() returns (ok: bool)
      requires Safe()
      modifies this`C1, this`S, this`polls
      ensures Safe() && R() == PbePeeRegs(old(R())) && Drifts(R(), old(S), S)
      ensures ok <==> S.clkst == 3
    {
      WriteC1(C1.(clks := 0));
      ok := Await(ClkstIs(3), 2000);
    }

    /** From the external clock to a freshly configured PLL. */
    method PllToOutput(prdiv: int, vdiv: int) returns (code: int)
      requires Safe() && 1 <= prdiv <= 25 && 24 <= vdiv <= 50
      modifies this`C1, this`C5, this`C6, this`S, this`polls
      ensures Safe() && C1.irefs == old(C1).irefs
      ensures code == 0 || ((code == 0x16 || code == 0x44 || code == 0x1B) && TimedOut(code, S))
      ensures R() == PllStage(old(R()), prdiv, vdiv, code)
      ensures code == 0 ==> S.pllst && S.clkst == 3 && (S.irefst == old(S).irefst || S.irefst == C1.irefs)
    {
      code := StartPll(prdiv, vdiv, 4000);
      if code != 0 { return; }
      var ok := EngagePll();
      if !ok { return 0x1B; }
    }

    /** Derive the FLL reference from the external clock, set CLKS and wait for CLKST if asked to, and
        then turn the clock monitor on. */
    method SwitchExternal(clks: bv2, frdiv: Field3, erefs: bv8, limit: nat, poll: bool) returns (code: int)
      requires Safe() && !C6.cme && (clks == 0 || clks == 2)
      modifies this`C1, this`C6, this`S, this`polls
      ensures Safe() && (S.pllst == old(S).pllst || S.pllst == C6.plls)
      ensures code == 0 || ((code == 0x23 || code == 0x11 || (poll && code == 0x18 + clks as int)) && TimedOut(code, S))
      ensures C1 == ExtC1(old(C1), clks, frdiv) && C6 == if code == 0 then old(C6).(cme := true) else old(C6)
      ensures code == 0 ==> !S.irefst && (if poll then S.clkst == clks as int
                                          else S.clkst == old(S).clkst || S.clkst == WantedClkst(R()))
    {
      WriteC1(ExtC1(C1, clks, frdiv));
      code := AwaitExternal(erefs, limit);
      if code != 0 { return; }
      if poll {
        var ok := Await(ClkstIs(clks as int), 2000);
        if !ok { return 0x18 + clks as int; }
      }
      WriteC6(C6.(cme := true));
    }

    /** Set up the oscillator, switch to the external clock (CLKS = 2) with the FLL reference derived
        from it, and then turn the clock monitor on. */
    method EnterExternal(range: bv2, crystal: int, hgo: bv8, erefs: bv8, limit: nat) returns (code: int)
      requires Safe() && !C6.cme
      modifies this`C1, this`C2, this`C6, this`S, this`polls
      ensures Safe() && C6.plls == old(C6).plls && (S.pllst == old(S).pllst || S.pllst == C6.plls)
      ensures code == 0 || ((code == 0x23 || code == 0x11 || code == 0x1A) && TimedOut(code, S))
      ensures R() == ExternalStage(old(R()), 2, range, crystal, hgo, erefs, code)
      ensures code == 0 ==> !S.irefst && S.clkst == 2
    {
      C2 := OscC2(C2, range, hgo, erefs);
      code := SwitchExternal(2, FrdivFor(crystal), erefs, limit, true);
    }

    function IrcHz(irc: int, fast: bool): int
      reads `SC
    {
      if fast then CDiv(irc, Divisor(SC.fcrdiv)) else irc
    }

    predicate MatchingIrc(irc: int, fast: bool) {
      irc == if fast then clk.fast else clk.slow
    }

    /** `what_mcg_mode`, which tests the modes in this order; 0 if none fits. */
    method WhatMode() returns (mode: int)
      requires Safe()
      modifies this`S, this`polls
      ensures Safe() && (old(Steady(R(), S)) ==> Steady(R(), S) && mode == ShownMode(R()))
    {
      var ok := InMode(FEI);
      if ok { return 3; }
      ok := InMode(PEE);
      if ok { return 8; }
      ok := InMode(PBE);
      if ok { return 7; }
      ok := InMode(FBE);
      if ok { return 5; }
      ok := InMode(BLPE);
      if ok { return 6; }
      ok := InMode(BLPI);
      if ok { return 1; }
      ok := InMode(FBI);
      if ok { return 2; }
      ok := InMode(FEE);
      if ok { return 4; }
      return 0;
    }

    // ---------- PLL modes ----------

    method PeePbe(crystal: int) returns (r: Result)
      requires Safe()
      modifies this`C1, this`S, this`polls
      ensures Moves(PEE, PBE, 0, crystal == clk.xtal, r)
      ensures r.Hz? || !Rejection(r.code) ==> R() == old(R()).(c1 := old(C1).(clks := old(C1).clks | 2))
    {
      var ok := InMode(PEE);
      if !ok { return Err(0x8); }
      WriteC1(C1.(clks := C1.clks | 2));
      ok := Await(ClkstIs(2), 2000);
      if !ok { return Err(0x1A); }
      return Hz(crystal);
    }

    method LockThenEngage() returns (code: int)
      requires Safe()
      modifies this`C1, this`S, this`polls
      ensures Safe() && R() == if code == 0x44 then old(R()) else PbePeeRegs(old(R()))
      ensures code == 0 || ((code == 0x44 || code == 0x1B) && TimedOut(code, S))
      ensures code == 0 ==> S.clkst == 3 && (S.irefst == old(S).irefst || S.irefst == C1.irefs)
                            && (S.pllst == old(S).pllst || S.pllst == C6.plls)
    {
      var ok := Await(LockSet, 2000);
      if !ok { return 0x44; }
      ok := EngagePll();
      return if ok then 0 else 0x1B;
    }

    method PbePee(crystal: int) returns (r: Result)
      requires Safe()
      modifies this`C1, this`S, this`polls
      ensures Moves(PBE, PEE, 0, crystal == clk.xtal, r)
      ensures r == Err(0x44) ==> R() == old(R())
      ensures r.Hz? || r == Err(0x1B) ==> R() == PbePeeRegs(old(R()))
      ensures r.Hz? ==> r.freq == PllHz(crystal, PrDiv(C5), VDiv(C6))
    {
      var ok := InMode(PBE);
      if !ok { return Err(0x7); }
      var prdiv, vdiv := PrDiv(C5), VDiv(C6);
      var code := LockThenEngage();
      if code != 0 { return Err(code); }
      return Hz(PllHz(crystal, prdiv, vdiv));
    }

    method PbeFbe(crystal: int) returns (r: Result)
      requires Safe()
      modifies this`C6, this`S, this`polls
      ensures Moves(PBE, FBE, 0, crystal == clk.xtal, r)
      ensures r.Hz? || !Rejection(r.code) ==> R() == old(R()).(c6 := old(C6).(plls := false))
    {
      var ok := InMode(PBE);
      if !ok { return Err(0x7); }
      WriteC6(C6.(plls := false));
      ok := Await(PllstIs(false), 2000);
      if !ok { return Err(0x15); }
      return Hz(crystal);
    }

    method FbePbe(crystal: int, prdiv: int, vdiv: int) returns (r: Result)
      requires Safe()
      modifies this`C5, this`C6, this`S, this`polls
      ensures Moves(FBE, PBE, PllCheck(crystal, prdiv, vdiv), crystal == clk.xtal, r)
      ensures r.Hz? || !Rejection(r.code) ==>
                PllCheck(crystal, prdiv, vdiv) == 0 && R() == FbePbeRegs(old(R()), prdiv, vdiv)
    {
      var ok := InMode(FBE);
      if !ok { return Err(0x4); }
      var code := PllCheck(crystal, prdiv, vdiv);
      if code != 0 { return Err(code); }
      code := StartPll(prdiv, vdiv, 2000);
      if code != 0 { return Err(code); }
      return Hz(crystal);
    }

    method PbeBlpe(crystal: int) returns (r: Result)
      requires Safe()
      modifies this`C2, this`S, this`polls
      ensures Moves(PBE, BLPE, 0, crystal == clk.xtal, r)
      ensures r.Hz? ==> R() == old(R()).(c2 := old(C2).(lp := true))
      ensures r.Err? ==> r == Err(0x7)
    {
      var ok := InMode(PBE);
      if !ok { return Err(0x7); }
      C2 := C2.(lp := true);
      return Hz(crystal);
    }

    method BlpePbe(crystal: int, prdiv: int, vdiv: int) returns (r: Result)
      requires Safe()
      modifies this`C2, this`C5, this`C6, this`S, this`polls
      ensures Moves(BLPE, PBE, RefCheck(crystal, prdiv, vdiv), crystal == clk.xtal, r)
      ensures r.Hz? || !Rejection(r.code) ==>
                && RefCheck(crystal, prdiv, vdiv) == 0
                && R() == FbePbeRegs(old(R()), prdiv, vdiv).(c2 := old(C2).(lp := false))
    {
      var ok := InMode(BLPE);
      if !ok { return Err(0x6); }
      var code := RefCheck(crystal, prdiv, vdiv);
      if code != 0 { return Err(code); }
      C5 := PrdivC5(C5, prdiv);
      WriteC6(VdivC6(C6, vdiv));
      C2 := C2.(lp := false);
      code := AwaitPll(2000);
      if code != 0 { return Err(code); }
      return Hz(crystal);
    }

    method BlpeFbe(crystal: int) returns (r: Result)
      requires Safe()
      modifies this`C2, this`C6, this`S, this`polls
      ensures Moves(BLPE, FBE, 0, crystal == clk.xtal, r)
      ensures r.Hz? || !Rejection(r.code) ==>
                R() == old(R()).(c6 := old(C6).(plls := false), c2 := old(C2).(lp := false))
    {
      var ok := InMode(BLPE);
      if !ok { return Err(0x6); }
      WriteC6(C6.(plls := false));
      C2 := C2.(lp := false);
      ok := Await(PllstIs(false), 2000);
      if !ok { return Err(0x15); }
      return Hz(crystal);
    }

    method FbeBlpe(crystal: int) returns (r: Result)
      requires Safe()
      modifies this`C2, this`S, this`polls
      ensures Moves(FBE, BLPE, 0, crystal == clk.xtal, r)
      ensures r.Hz? ==> R() == old(R()).(c2 := old(C2).(lp := true))
      ensures r.Err? ==> r == Err(0x4)
    {
      var ok := InMode(FBE);
      if !ok { return Err(0x4); }
      C2 := C2.(lp := true);
      return Hz(crystal);
    }

    /** From the internal reference to the PLL. */
    method ExternalPll(range: bv2, crystal: int, hgo: bv8, erefs: bv8, prdiv: int, vdiv: int) returns (code: int)
      requires Safe() && !C6.cme && 1 <= prdiv <= 25 && 24 <= vdiv <= 50
      requires range == if crystal <= 8000000 then 1 else 2
      modifies this`C1, this`C2, this`C5, this`C6, this`S, this`polls
      ensures Safe() && R() == PllInitStage(old(R()), crystal, hgo, erefs, prdiv, vdiv, code)
      ensures code == 0 || (!Rejection(code) && TimedOut(code, S))
      ensures code == 0 ==> S.pllst && S.clkst == 3 && !S.irefst
    {
      code := EnterExternal(range, crystal, hgo, erefs, 20000);
      if code != 0 { return; }
      code := PllToOutput(prdiv, vdiv);
    }

    /** Fall back to the external clock, then to the PLL with new dividers. */
    method RestartPll(prdiv: int, vdiv: int) returns (code: int)
      requires Safe() && 1 <= prdiv <= 25 && 24 <= vdiv <= 50 && (C6.cme ==> C1.clks | 2 != 1)
      modifies this`C1, this`C5, this`C6, this`S, this`polls
      ensures Safe() && R() == NewPllStage(old(R()), prdiv, vdiv, code)
      ensures code == 0 || ((code == 0x1A || code == 0x16 || code == 0x44 || code == 0x1B) && TimedOut(code, S))
      ensures code == 0 ==> S.pllst && S.clkst == 3 && (S.irefst == old(S).irefst || S.irefst == C1.irefs)
    {
      WriteC1(C1.(clks := C1.clks | 2));
      var ok := Await(ClkstIs(2), 2000);
      if !ok { return 0x1A; }
      code := PllToOutput(prdiv, vdiv);
    }

    /** `mcgoutSelect`, which is documented to leave the PLL unused when it is 0, is not read: whatever it is, a
        successful call ends in PEE with the PLL as the output. */
    method PllInit(crystal: int, hgo: bv8, erefs: bv8, prdiv: int, vdiv: int, mcgoutSelect: bv8) returns (r: Result)
      requires Safe()
      modifies this`C1, this`C2, this`C5, this`C6, this`S, this`polls
      ensures Moves(FEI, PEE, PllInitCheck(crystal, erefs, prdiv, vdiv), crystal == clk.xtal, r)
      ensures r.Hz? || !Rejection(r.code) ==>
                && PllInitCheck(crystal, erefs, prdiv, vdiv) == 0
                && R() == PllInitStage(old(R()), crystal, hgo, erefs, prdiv, vdiv, if r.Hz? then 0 else r.code)
      ensures r.Hz? ==> r.freq == PllHz(crystal, PrDiv(C5), VDiv(C6))
      ensures old(Steady(R(), S) && Shows(FEI, R())) ==> PllInitVerdict(crystal, erefs, prdiv, vdiv, r, S)
    {
      PllInitAccepts(crystal, erefs, prdiv, vdiv);
      var ok := InMode(FEI);
      if !ok { return Err(0x1); }
      var code := PllOscCheck(crystal, erefs);
      if code == 0 { code := PllCheck(crystal, prdiv, vdiv); }
      if code != 0 { return Err(code); }
      code := ExternalPll(if crystal <= 8000000 then 1 else 2, crystal, hgo, erefs, prdiv, vdiv);
      if code != 0 { return Err(code); }
      PllInitArrives(old(R()), crystal, hgo, erefs, prdiv, vdiv, clk, S);
      return Hz(PllHz(crystal, PrDiv(C5), VDiv(C6)));
    }

    method NewPllFreq(crystal: int, prdiv: int, vdiv: int) returns (r: Result)
      requires Safe()
      modifies this`C1, this`C5, this`C6, this`S, this`polls
      ensures Moves(PEE, PEE, PllCheck(crystal, prdiv, vdiv), crystal == clk.xtal, r)
      ensures r.Hz? || !Rejection(r.code) ==>
                && PllCheck(crystal, prdiv, vdiv) == 0
                && R() == NewPllStage(old(R()), prdiv, vdiv, if r.Hz? then 0 else r.code)
      ensures r.Hz? ==> r.freq == PllHz(crystal, PrDiv(C5), VDiv(C6))
    {
      var ok := InMode(PEE);
      if !ok { return Err(0x8); }
      var code := PllCheck(crystal, prdiv, vdiv);
      if code != 0 { return Err(code); }
      code := RestartPll(prdiv, vdiv);
      if code != 0 { return Err(code); }
      return Hz(PllHz(crystal, PrDiv(C5), VDiv(C6)));
    }

    // ---------- FLL and internal modes ----------

    method FeiFbe(crystal: int, hgo: bv8, erefs: bv8) returns (r: Result)
      requires Safe()
      modifies this`C1, this`C2, this`C6, this`S, this`polls
      ensures Moves(FEI, FBE, OscCheck(crystal, erefs), crystal == clk.xtal, r)
      ensures r.Err? && !Rejection(r.code) ==>
                R() == ExternalStage(old(R()), 2, RangeFor(crystal), crystal, hgo, erefs, r.code)
      ensures r.Hz? ==> OscCheck(crystal, erefs) == 0 && r.freq == crystal
                        && R() == ToExternalRegs(old(R()), 2, RangeFor(crystal), crystal, hgo, erefs)
    {
      var ok := InMode(FEI);
      if !ok { return Err(0x1); }
      var code := OscCheck(crystal, erefs);
      if code != 0 { return Err(code); }
      code := EnterExternal(RangeFor(crystal), crystal, hgo, erefs, 10000);
      if code != 0 { return Err(code); }
      return Hz(crystal);
    }

    method FbiFbe(crystal: int, hgo: bv8, erefs: bv8) returns (r: Result)
      requires Safe()
      modifies this`C1, this`C2, this`C6, this`S, this`polls
      ensures Moves(FBI, FBE, OscCheck(crystal, erefs), crystal == clk.xtal, r)
      ensures r.Err? && !Rejection(r.code) ==>
                R() == ExternalStage(old(R()), 2, RangeFor(crystal), crystal, hgo, erefs, r.code)
      ensures r.Hz? ==> OscCheck(crystal, erefs) == 0 && r.freq == crystal
                        && R() == ToExternalRegs(old(R()), 2, RangeFor(crystal), crystal, hgo, erefs)
    {
      var ok := InMode(FBI);
      if !ok { return Err(0x3); }
      var code := OscCheck(crystal, erefs);
      if code != 0 { return Err(code); }
      code := EnterExternal(RangeFor(crystal), crystal, hgo, erefs, 10000);
      if code != 0 { return Err(code); }
      return Hz(crystal);
    }

    /** The FLL frequency for the crystal and the RANGE that C2 now holds. */
    method FeeFrequency(crystal: int, ghost c2: C2Reg, ghost hgo: bv8, ghost erefs: bv8) returns (r: Result)
      requires C2 == OscC2(c2, RangeFor(crystal), hgo, erefs)
      ensures FeeVerdict(C4, crystal, erefs, r)
      ensures if r.Err? then FllError(r.code)
              else r.freq == FllFreq(C4, ExternalRef(crystal, C2.range, FrdivFor(crystal))) && r.freq >= 0x3C
    {
      var frdiv := FrdivFor(crystal);
      var ref := if C2.range > 0 then CDiv(crystal, 32 * Divisor(frdiv)) else CDiv(crystal, Divisor(frdiv));
      var mcgOut := FllFreq(C4, ref);
      FllFreqCodes(C4, ref);
      FeeAccepts(c2, C4, crystal, hgo, erefs);
      return if mcgOut < 0x3C then Err(mcgOut) else Hz(mcgOut);
    }

    /** The FLL with an external reference: RANGE and FRDIV give the reference, and the resulting FLL
        frequency is checked after C2 has been written. */
    method EnterFee(crystal: int, hgo: bv8, erefs: bv8, limit: nat, pollClkst: bool) returns (r: Result)
      requires Safe() && !C6.cme
      modifies this`C1, this`C2, this`C6, this`S, this`polls
      ensures Safe() && C6.plls == old(C6).plls && (S.pllst == old(S).pllst || S.pllst == C6.plls)
      ensures r.Err? ==> R() == FeeStage(old(R()), crystal, hgo, erefs, r.code) && !Rejection(r.code)
                         && if Awaited(r.code).Some? then TimedOut(r.code, S) else FllError(r.code)
      ensures r.Hz? ==> R() == ToExternalRegs(old(R()), 0, RangeFor(crystal), crystal, hgo, erefs)
                        && !S.irefst
                        && (if pollClkst then S.clkst == 0 else S.clkst == old(S).clkst || S.clkst == WantedClkst(R()))
                        && r.freq == FllFreq(C4, ExternalRef(crystal, C2.range, FrdivFor(crystal))) && r.freq >= 0x3C
      ensures FeeVerdict(C4, crystal, erefs, r)
    {
      C2 := OscC2(C2, RangeFor(crystal), hgo, erefs);
      r := FeeFrequency(crystal, old(C2), hgo, erefs);
      if r.Err? { return; }
      var code := SwitchExternal(0, FrdivFor(crystal), erefs, limit, pollClkst);
      if code != 0 { return Err(code); }
    }

    method FeiFee(crystal: int, hgo: bv8, erefs: bv8) returns (r: Result)
      requires Safe()
      modifies this`C1, this`C2, this`C6, this`S, this`polls
      ensures Moves(FEI, FEE, OscCheck(crystal, erefs), crystal == clk.xtal, r)
      ensures FeeVerdict(C4, crystal, erefs, r)
      ensures r.Err? && !Rejection(r.code) ==> R() == FeeStage(old(R()), crystal, hgo, erefs, r.code)
      ensures r.Hz? ==> OscCheck(crystal, erefs) == 0
                        && R() == ToExternalRegs(old(R()), 0, RangeFor(crystal), crystal, hgo, erefs)
    {
      var ok := InMode(FEI);
      if !ok { return Err(0x1); }
      var code := OscCheck(crystal, erefs);
      if code != 0 { return Err(code); }
      r := EnterFee(crystal, hgo, erefs, 20000000, false);
      if r.Hz? { FeeArrives(old(R()), crystal, hgo, erefs); }
    }

    method FbiFee(crystal: int, hgo: bv8, erefs: bv8) returns (r: Result)
      requires Safe()
      modifies this`C1, this`C2, this`C6, this`S, this`polls
      ensures Moves(FBI, FEE, OscCheck(crystal, erefs), crystal == clk.xtal, r)
      ensures FeeVerdict(C4, crystal, erefs, r)
      ensures r.Err? && !Rejection(r.code) ==> R() == FeeStage(old(R()), crystal, hgo, erefs, r.code)
      ensures r.Hz? ==> OscCheck(crystal, erefs) == 0
                        && R() == ToExternalRegs(old(R()), 0, RangeFor(crystal), crystal, hgo, erefs)
    {
      var ok := InMode(FBI);
      if !ok { return Err(0x3); }
      var code := OscCheck(crystal, erefs);
      if code != 0 { return Err(code); }
      r := EnterFee(crystal, hgo, erefs, 10000, true);
      if r.Hz? { FeeArrives(old(R()), crystal, hgo, erefs); }
    }

    method FbeFee(crystal: int) returns (r: Result)
      requires Safe()
      modifies this`C1, this`S, this`polls
      ensures Moves(FBE, FEE, FbeFeeCheck(old(R()), crystal), crystal == clk.xtal, r)
      ensures r.Hz? || Awaited(r.code).Some? ==> R() == old(R()).(c1 := old(C1).(clks := 0))
    {
      var ok := InMode(FBE);
      if !ok { return Err(0x4); }
      // the reference is kept in a 16-bit variable, and without RANGE the shift count is RANGE itself
      var ref := Int16(if C2.range > 0 then CDiv(crystal, 32 * Divisor(C1.frdiv)) else CDiv(crystal, 1));
      var mcgOut := FllFreq(C4, ref);
      if mcgOut < 0x3C {
        FllFreqCodes(C4, ref);
        return Err(mcgOut);
      }
      ghost var r0 := R();
      WriteC1(C1.(clks := 0));
      ok := Await(ClkstIs(0), 2000);
      if !ok { return Err(0x18); }
      FbeFeeFrequency(r0, crystal);
      return Hz(mcgOut);
    }

    method FeeFbe(crystal: int) returns (r: Result)
      requires Safe()
      modifies this`C1, this`S, this`polls
      ensures Moves(FEE, FBE, 0, crystal == clk.xtal, r)
      ensures r.Hz? || !Rejection(r.code) ==> R() == old(R()).(c1 := old(C1).(clks := old(C1).clks | 2))
    {
      var ok := InMode(FEE);
      if !ok { return Err(0x2); }
      WriteC1(C1.(clks := C1.clks | 2));
      ok := Await(ClkstIs(2), 2000);
      if !ok { return Err(0x1A); }
      return Hz(crystal);
    }

    /** Wait for the internal reference, and for the FLL output if asked to. */
    method AwaitInternal(poll: bool) returns (code: int)
      requires Safe()
      modifies this`S, this`polls
      ensures Safe() && Drifts(R(), old(S), S)
      ensures code == 0 || ((code == 0x12 || (poll && code == 0x18)) && TimedOut(code, S))
      ensures code == 0 && C1.irefs ==> S.irefst && (poll ==> S.clkst == 0)
    {
      var ok := Await(IrefstIs(true), 2000);
      if !ok { return 0x12; }
      if poll {
        ok := Await(ClkstIs(0), 2000);
        if !ok { return 0x18; }
      }
      return 0;
    }

    /** Check the FLL output for the slow internal reference. */
    method SlowFll(slow: int) returns (r: Result)
      ensures r == SlowFllResult(C4, slow)
    {
      if slow < 31250 || slow > 39063 { return Err(0x31); }
      var mcgOut := FllFreq(C4, slow);
      if mcgOut < 0x3C { return Err(mcgOut); }
      return Hz(mcgOut);
    }

    /** How the transitions to FEI begin. */
    method StartFei(m: Mode, slow: int) returns (r: Result)
      requires Safe()
      modifies this`S, this`polls
      ensures Safe() && Drifts(R(), old(S), S)
      ensures r == Err(ModeError(m)) || r == SlowFllResult(C4, slow)
      ensures old(Steady(R(), S)) ==>
                Steady(R(), S) && r == if Shows(m, R()) then SlowFllResult(C4, slow) else Err(ModeError(m))
      ensures r.Hz? ==> r.freq == slow * Multiplier(C4) && (IsInternal(m) ==> !C6.cme)
    {
      var ok := InMode(m);
      if !ok { return Err(ModeError(m)); }
      r := SlowFll(slow);
      SlowFllAccepts(C4, slow);
    }

    /** How those that come from an external reference end: the monitor goes off before the reference
        changes. */
    method ExternalToFei(c1: C1Reg, poll: bool) returns (code: int)
      requires Safe() && c1.irefs
      modifies this`C1, this`C6, this`S, this`polls
      ensures Safe() && R() == old(R()).(c1 := c1, c6 := old(C6).(cme := false))
      ensures Drifts(R(), old(S), S)
      ensures code == 0 || ((code == 0x12 || (poll && code == 0x18)) && TimedOut(code, S))
      ensures code == 0 ==> S.irefst && (poll ==> S.clkst == 0)
    {
      WriteC6(C6.(cme := false));
      WriteC1(c1);
      code := AwaitInternal(poll);
    }

    method FbeFei(slow: int) returns (r: Result)
      requires Safe()
      modifies this`C1, this`C6, this`S, this`polls
      ensures Moves(FBE, FEI, SlowFllCheck(C4, slow), slow == clk.slow, r)
      ensures r.Hz? || Awaited(r.code).Some? ==>
                R() == old(R()).(c1 := old(C1).(clks := 0, irefs := true), c6 := old(C6).(cme := false))
    {
      r := StartFei(FBE, slow);
      if r.Err? { return; }
      var code := ExternalToFei(C1.(clks := 0, irefs := true), true);
      if code != 0 { return Err(code); }
    }

    method FbiFei(slow: int) returns (r: Result)
      requires Safe()
      modifies this`C1, this`S, this`polls
      ensures Moves(FBI, FEI, SlowFllCheck(C4, slow), slow == clk.slow, r)
      ensures r.Hz? || Awaited(r.code).Some? ==> R() == old(R()).(c1 := old(C1).(clks := 0, irefs := true))
    {
      r := StartFei(FBI, slow);
      if r.Err? { return; }
      WriteC1(C1.(clks := 0, irefs := true));
      var code := AwaitInternal(true);
      if code != 0 { return Err(code); }
    }

    method FeeFei(slow: int) returns (r: Result)
      requires Safe()
      modifies this`C1, this`C6, this`S, this`polls
      ensures Moves(FEE, FEI, SlowFllCheck(C4, slow), slow == clk.slow, r)
      ensures r.Hz? || Awaited(r.code).Some? ==>
                R() == old(R()).(c1 := old(C1).(irefs := true), c6 := old(C6).(cme := false))
    {
      r := StartFei(FEE, slow);
      if r.Err? { return; }
      var code := ExternalToFei(C1.(irefs := true), false);
      if code != 0 { return Err(code); }
    }

    /** Select an internal reference as the output (C1 := `c1`) and wait for it. */
    method EnterFbi(c1: C1Reg, fast: bool) returns (code: int)
      requires Safe() && !C6.cme
      modifies this`C1, this`S, this`polls
      ensures Safe() && C1 == c1 && Drifts(R(), old(S), S)
      ensures code == 0 || ((code == 0x13 || code == 0x14 || code == 0x19) && TimedOut(code, S))
      ensures code == 0 ==> S.clkst == 1
    {
      WriteC1(c1);
      code := AwaitIrc(fast);
      if code != 0 { return; }
      var ok := Await(ClkstIs(1), 2000);
      return if ok then 0 else 0x19;
    }

    /** From an external clock: the monitor goes off before the internal reference is selected. */
    method ExternalToFbi(c1: C1Reg, fast: bool) returns (code: int)
      requires Safe() && c1.irefs
      modifies this`C1, this`C2, this`C6, this`S, this`polls
      ensures Safe() && C6.plls == old(C6).plls && (S.pllst == old(S).pllst || S.pllst == C6.plls)
      ensures code == 0 || ((code == 0x13 || code == 0x14 || code == 0x19 || code == 0x12) && TimedOut(code, S))
      ensures R() == old(R()).(c1 := c1, c2 := old(C2).(ircs := fast), c6 := old(C6).(cme := false))
      ensures code == 0 ==> S.irefst && (c1.clks == 1 ==> S.clkst == 1)
    {
      C2 := C2.(ircs := fast);
      WriteC6(C6.(cme := false));
      code := EnterFbi(c1, fast);
      if code != 0 { return; }
      var ok := Await(IrefstIs(true), 2000);
      return if ok then 0 else 0x12;
    }

    method FeiFbi(irc: int, fast: bool) returns (r: Result)
      requires Safe()
      modifies this`C1, this`C2, this`S, this`polls
      ensures Moves(FEI, FBI, IrcCheck(irc, fast), MatchingIrc(irc, fast), r)
      ensures r.Hz? || !Rejection(r.code) ==> R() == old(R()).(c1 := old(C1).(clks := 1), c2 := old(C2).(ircs := fast))
    {
      var ok := InMode(FEI);
      if !ok { return Err(0x1); }
      var code := IrcCheck(irc, fast);
      if code != 0 { return Err(code); }
      C2 := C2.(ircs := fast);
      code := EnterFbi(C1.(clks := 1), fast);
      if code != 0 { return Err(code); }
      return Hz(IrcHz(irc, fast));
    }

    method FbeFbi(irc: int, fast: bool) returns (r: Result)
      requires Safe()
      modifies this`C1, this`C2, this`C6, this`S, this`polls
      ensures Moves(FBE, FBI, IrcCheck(irc, fast), MatchingIrc(irc, fast), r)
      ensures r.Hz? || !Rejection(r.code) ==>
                R() == old(R()).(c1 := old(C1).(clks := 1, irefs := true), c2 := old(C2).(ircs := fast),
                                 c6 := old(C6).(cme := false))
    {
      var ok := InMode(FBE);
      if !ok { return Err(0x4); }
      var code := IrcCheck(irc, fast);
      if code != 0 { return Err(code); }
      code := ExternalToFbi(C1.(clks := 1, irefs := true), fast);
      if code != 0 { return Err(code); }
      return Hz(IrcHz(irc, fast));
    }

    method FeeFbi(irc: int, fast: bool) returns (r: Result)
      requires Safe()
      modifies this`C1, this`C2, this`C6, this`S, this`polls
      ensures Moves(FEE, FBI, IrcCheck(irc, fast), MatchingIrc(irc, fast), r)
      ensures r.Hz? || !Rejection(r.code) ==>
                R() == old(R()).(c1 := old(C1).(clks := old(C1).clks | 1, irefs := true), c2 := old(C2).(ircs := fast),
                                 c6 := old(C6).(cme := false))
    {
      var ok := InMode(FEE);
      if !ok { return Err(0x2); }
      var code := IrcCheck(irc, fast);
      if code != 0 { return Err(code); }
      code := ExternalToFbi(C1.(clks := C1.clks | 1, irefs := true), fast);
      if code != 0 { return Err(code); }
      return Hz(IrcHz(irc, fast));
    }

    /** These two neither check `irc` nor compare `fast` with IRCS: the result is the output frequency
        only if they agree. */
    method FbiBlpi(irc: int, fast: bool) returns (r: Result)
      requires Safe()
      modifies this`C2, this`S, this`polls
      ensures Moves(FBI, BLPI, 0, MatchingIrc(irc, fast) && fast == C2.ircs, r)
      ensures old(At(FBI)) && MatchingIrc(irc, fast) && r.Hz? ==>
                (r.freq == McgOut(R(), clk) <==> fast == C2.ircs || clk.slow == clk.fast / Divisor(SC.fcrdiv))
      ensures r.Hz? ==> R() == old(R()).(c2 := old(C2).(lp := true)) && r.freq == IrcHz(irc, fast)
      ensures r.Err? ==> r == Err(0x3)
    {
      var ok := InMode(FBI);
      if !ok { return Err(0x3); }
      C2 := C2.(lp := true);
      return Hz(IrcHz(irc, fast));
    }

    method BlpiFbi(irc: int, fast: bool) returns (r: Result)
      requires Safe()
      modifies this`C2, this`S, this`polls
      ensures Moves(BLPI, FBI, 0, MatchingIrc(irc, fast) && fast == C2.ircs, r)
      ensures old(At(BLPI)) && MatchingIrc(irc, fast) && r.Hz? ==>
                (r.freq == McgOut(R(), clk) <==> fast == C2.ircs || clk.slow == clk.fast / Divisor(SC.fcrdiv))
      ensures r.Hz? ==> R() == old(R()).(c2 := old(C2).(lp := false)) && r.freq == IrcHz(irc, fast)
      ensures r.Err? ==> r == Err(0x5)
    {
      var ok := InMode(BLPI);
      if !ok { return Err(0x5); }
      C2 := C2.(lp := false);
      return Hz(IrcHz(irc, fast));
    }
  }

  function SlowFllResult(c4: C4Reg, slow: int): Result {
    if slow < 31250 || slow > 39063 then Err(0x31)
    else if FllFreq(c4, slow) < 0x3C then Err(FllFreq(c4, slow)) else Hz(FllFreq(c4, slow))
  }

  lemma FllFreqCodes(c4: C4Reg, ref: int)
    ensures FllFreq(c4, ref) < 0x3C ==> FllError(FllFreq(c4, ref))
  {
  }

  lemma SlowFllAccepts(c4: C4Reg, slow: int)
    ensures SlowFllResult(c4, slow).Hz? ==> SlowFllResult(c4, slow).freq == slow * Multiplier(c4)
  {
    if 31250 <= slow <= 39063 { FllFreqAccepts(c4, slow); }
  }

  predicate SlowFits(c4: C4Reg, slow: int) {
    c4.drs <= 1 && 31250 <= slow <= if c4.dmx32 then 34153 else 39062
  }

  /** The slow references with which the transitions into FEI find the FLL in range: 39063 Hz, which their
      own check lets pass, is never one. */
  lemma SlowFllAcceptsIff(c4: C4Reg, slow: int)
    ensures SlowFllCheck(c4, slow) == 0 <==> SlowFits(c4, slow)
    ensures SlowFllCheck(c4, slow) == 0 || SlowFllCheck(c4, slow) == 0x31 || FllError(SlowFllCheck(c4, slow))
  {
    if 31250 <= slow <= 39063 {
      FllFreqAccepts(c4, slow);
      FllFreqCodes(c4, slow);
      MultiplierSteps(c4);
    }
  }

  /** The FLL reference that the transitions into FEE compute. */
  function ExternalRef(crystal: int, range: bv2, frdiv: Field3): int {
    if range > 0 then CDiv(crystal, 32 * Divisor(frdiv)) else CDiv(crystal, Divisor(frdiv))
  }

  /** The crystals from which FRDIV makes the reference that the FLL is specified for. */
  predicate FllCrystal(x: int) {
    || 31250 <= x <= 39062 || 1000000 <= x <= 1250000 || 2000000 <= x <= 2500000 || 4000000 <= x <= 5000000
    || 8000000 <= x <= 10000000 || 16000000 <= x <= 20000000 || 32000000 <= x < 40000512
  }

  lemma FllCrystalRef(x: int)
    requires x <= 50000000
    ensures FllCrystal(x) <==> 31250 <= ExternalRef(x, RangeFor(x), FrdivFor(x)) <= 39062
    ensures RangeFor(x) == 0 <==> x <= 40000
  {
  }

  /** DMX32 is clear, and `erefs` does not spill into RANGE where that matters. */
  predicate Plain(c4: C4Reg, crystal: int, erefs: bv8) {
    0 <= crystal <= 50000000 && !c4.dmx32 && (crystal > 40000 || erefs & 0x0C == 0)
  }

  /** Then the transitions into FEE find the FLL in range for exactly these crystals. */
  lemma FeeAccepts(c2: C2Reg, c4: C4Reg, crystal: int, hgo: bv8, erefs: bv8)
    ensures var ref := ExternalRef(crystal, OscC2(c2, RangeFor(crystal), hgo, erefs).range, FrdivFor(crystal));
            Plain(c4, crystal, erefs) ==> (FllFreq(c4, ref) >= 0x3C <==> FllCrystal(crystal) && c4.drs <= 1)
  {
    if Plain(c4, crystal, erefs) {
      FllCrystalRef(crystal);
      var range := OscC2(c2, RangeFor(crystal), hgo, erefs).range;
      RangeKept(RangeFor(crystal), erefs);
      var ref := ExternalRef(crystal, RangeFor(crystal), FrdivFor(crystal));
      assert ExternalRef(crystal, range, FrdivFor(crystal)) == ref;
      FllFreqAccepts(c4, ref);
      MultiplierSteps(c4);
    }
  }

  /** What that makes of a call: no such crystal is refused for its FLL frequency, and no other is accepted. */
  predicate FeeVerdict(c4: C4Reg, crystal: int, erefs: bv8, r: Result) {
    Plain(c4, crystal, erefs) ==>
      if r.Hz? then FllCrystal(crystal) && c4.drs <= 1
      else FllError(r.code) ==> !(FllCrystal(crystal) && c4.drs <= 1)
  }

  lemma RangeKept(range: bv2, erefs: bv8)
    ensures var r := range | (if erefs & 0x08 != 0 then 2 else 0) | (if erefs & 0x04 != 0 then 1 else 0);
            (range != 0 ==> r != 0) && (erefs & 0x0C == 0 ==> r == range)
  {
  }

  lemma FeeArrives(r: Regs, crystal: int, hgo: bv8, erefs: bv8)
    requires OscCheck(crystal, erefs) == 0
    ensures var r' := ToExternalRegs(r, 0, RangeFor(crystal), crystal, hgo, erefs);
            crystal > 0 ==>
              && TunedTo(r', crystal)
              && forall slow, fast :: var clk := Clocks(crystal, slow, fast);
                   && FllRef(r', clk) == ExternalRef(crystal, r'.c2.range, FrdivFor(crystal))
                   && (FllFreq(r.c4, FllRef(r', clk)) >= 0x3C ==>
                         FllFreq(r.c4, FllRef(r', clk)) == FllRef(r', clk) * Multiplier(r.c4))
  {
    var r' := ToExternalRegs(r, 0, RangeFor(crystal), crystal, hgo, erefs);
    if crystal > 0 {
      forall slow, fast
        ensures var clk := Clocks(crystal, slow, fast);
                && FllRef(r', clk) == ExternalRef(crystal, r'.c2.range, FrdivFor(crystal))
                && (FllFreq(r.c4, FllRef(r', clk)) >= 0x3C ==>
                      FllFreq(r.c4, FllRef(r', clk)) == FllRef(r', clk) * Multiplier(r.c4))
      {
        TunedRef(r', Clocks(crystal, slow, fast));
        FllFreqAccepts(r.c4, FllRef(r', Clocks(crystal, slow, fast)));
      }
    }
  }

  /** Neither the 16-bit reference nor the wrong shift count of `fbe_fee` matters to a generator whose
      dividers were set for this crystal. */
  lemma FbeFeeFrequency(r: Regs, crystal: int)
    ensures var ref := FbeFeeRef(r, crystal);
            !r.c1.irefs && TunedTo(r, crystal) && FllFreq(r.c4, ref) >= 0x3C ==>
              forall slow, fast :: FllFreq(r.c4, ref) == FllRef(r, Clocks(crystal, slow, fast)) * Multiplier(r.c4)
  {
    var q := if r.c2.range > 0 then CDiv(crystal, 32 * Divisor(r.c1.frdiv)) else CDiv(crystal, 1);
    if !r.c1.irefs && TunedTo(r, crystal) && FllFreq(r.c4, Int16(q)) >= 0x3C {
      TunedRef(r, Clocks(crystal, 1, 1));
      assert q == FllRef(r, Clocks(crystal, 1, 1));
      if q >= 0x8000 {
        assert Int16(q) < 0;
        NegativeRef(r.c4, Int16(q));
      }
      FllFreqAccepts(r.c4, q);
    }
  }

  /** What it does matter to is the acceptance: a reference of 32768 Hz or more is taken for a negative one
      and refused, although `fei_fee` accepts it. */
  lemma FbeFeeAcceptsIff(r: Regs, clk: Clocks)
    requires !r.c1.irefs && TunedTo(r, clk.xtal)
    ensures FbeFeeCheck(r, clk.xtal) == 0 <==> FllFreq(r.c4, FllRef(r, clk)) >= 0x3C && FllRef(r, clk) < 0x8000
  {
    var q := FllRef(r, clk);
    TunedRef(r, clk);
    assert FbeFeeRef(r, clk.xtal) == Int16(q);
    if q >= 0x8000 {
      assert Int16(q) < 0;
      NegativeRef(r.c4, Int16(q));
    }
  }

  /** A 10 MHz crystal with the divider set for it. */
  lemma FbeFeeRefuses(r: Regs, clk: Clocks)
    requires !r.c1.irefs && clk.xtal == 10000000 && TunedTo(r, 10000000) && !r.c4.dmx32 && r.c4.drs == 0
    ensures FbeFeeCheck(r, clk.xtal) != 0 && FllFreq(r.c4, FllRef(r, clk)) == 24999680
  {
    assert FllRef(r, clk) == 39062;
    FbeFeeAcceptsIff(r, clk);
  }

  lemma NegativeRef(c4: C4Reg, ref: int)
    requires -0x8000 <= ref < 0
    ensures FllFreq(c4, ref) < 0x3C
  {
    var m := Multiplier(c4);
    if c4.drs <= 1 {
      assert m == 640 || m == 732 || m == 1280 || m == 1464;
      assert -0x8000 * 1464 <= ref * m < 0;
    }
  }

  function PbePeeRegs(r: Regs): Regs {
    r.(c1 := r.c1.(clks := 0))
  }

  function FbePbeRegs(r: Regs, prdiv: int, vdiv: int): Regs
    requires 1 <= prdiv <= 25 && 24 <= vdiv <= 50
  {
    r.(c5 := PrdivC5(r.c5, prdiv), c6 := VdivC6(r.c6, vdiv))
  }

  function ToExternalRegs(r: Regs, clks: bv2, range: bv2, crystal: int, hgo: bv8, erefs: bv8): Regs
  {
    r.(c1 := ExtC1(r.c1, clks, FrdivFor(crystal)), c2 := OscC2(r.c2, range, hgo, erefs), c6 := r.c6.(cme := true))
  }

  /** What has been written when these parts end with `code`: everything after success (0), and what
      came before the poll that failed otherwise. */
  function PllStage(r: Regs, prdiv: int, vdiv: int, code: int): Regs
    requires 1 <= prdiv <= 25 && 24 <= vdiv <= 50
  {
    if code == 0 || code == 0x1B then PbePeeRegs(FbePbeRegs(r, prdiv, vdiv)) else FbePbeRegs(r, prdiv, vdiv)
  }

  function NewPllStage(r: Regs, prdiv: int, vdiv: int, code: int): Regs
    requires 1 <= prdiv <= 25 && 24 <= vdiv <= 50
  {
    var r' := r.(c1 := r.c1.(clks := r.c1.clks | 2));
    if code == 0x1A then r' else PllStage(r', prdiv, vdiv, code)
  }

  function ExternalStage(r: Regs, clks: bv2, range: bv2, crystal: int, hgo: bv8, erefs: bv8, code: int): Regs {
    var r' := ToExternalRegs(r, clks, range, crystal, hgo, erefs);
    if code == 0 then r' else r'.(c6 := r.c6)
  }

  /** In the transitions into FEE the FLL check comes between the writes to C2 and to C1. */
  function FeeStage(r: Regs, crystal: int, hgo: bv8, erefs: bv8, code: int): Regs {
    if Awaited(code).None? then r.(c2 := OscC2(r.c2, RangeFor(crystal), hgo, erefs))
    else ExternalStage(r, 0, RangeFor(crystal), crystal, hgo, erefs, code)
  }

  function PllInitStage(r: Regs, crystal: int, hgo: bv8, erefs: bv8, prdiv: int, vdiv: int, code: int): Regs
    requires 1 <= prdiv <= 25 && 24 <= vdiv <= 50
  {
    var range: bv2 := if crystal <= 8000000 then 1 else 2;
    if code == 0x23 || code == 0x11 || code == 0x1A then ExternalStage(r, 2, range, crystal, hgo, erefs, code)
    else PllStage(ExternalStage(r, 2, range, crystal, hgo, erefs, 0), prdiv, vdiv, code)
  }

  function PllInitCheck(crystal: int, erefs: bv8, prdiv: int, vdiv: int): int {
    if PllOscCheck(crystal, erefs) != 0 then PllOscCheck(crystal, erefs) else PllCheck(crystal, prdiv, vdiv)
  }

  /** `pll_init` accepts exactly the arguments within these ranges; otherwise the code is the lowest one
      that tells what is wrong. */
  lemma PllInitAccepts(crystal: int, erefs: bv8, prdiv: int, vdiv: int)
    ensures PllInitCheck(crystal, erefs, prdiv, vdiv) == 0 <==> PllArguments(crystal, erefs, prdiv, vdiv)
    ensures Lowest(PllInitCheck(crystal, erefs, prdiv, vdiv), 0x21, 0x45, crystal, erefs, prdiv, vdiv)
  {
    PllCheckAccepts(crystal, erefs, prdiv, vdiv);
    var code := PllCheck(crystal, prdiv, vdiv);
    if PllOscCheck(crystal, erefs) == 0 { LowestOfAll(code, crystal, erefs, prdiv, vdiv); }
  }

  /** From a settled FEI `pll_init` rejects nothing that is allowed, and says what is wrong otherwise. */
  predicate PllInitVerdict(crystal: int, erefs: bv8, prdiv: int, vdiv: int, r: Result, s: Status) {
    if PllArguments(crystal, erefs, prdiv, vdiv) then r.Err? ==> TimedOut(r.code, s)
    else r.Err? && Wrong(r.code, crystal, erefs, prdiv, vdiv)
  }

  function FbeFeeRef(r: Regs, crystal: int): int {
    Int16(if r.c2.range > 0 then CDiv(crystal, 32 * Divisor(r.c1.frdiv)) else CDiv(crystal, 1))
  }

  function FbeFeeCheck(r: Regs, crystal: int): int {
    var hz := FllFreq(r.c4, FbeFeeRef(r, crystal));
    if hz < 0x3C then hz else 0
  }

  function SlowFllCheck(c4: C4Reg, slow: int): int {
    if SlowFllResult(c4, slow).Err? then SlowFllResult(c4, slow).code else 0
  }

  lemma PllInitArrives(r: Regs, crystal: int, hgo: bv8, erefs: bv8, prdiv: int, vdiv: int, clk: Board, s: Status)
    requires PllCheck(crystal, prdiv, vdiv) == 0 && crystal <= 50000000
    requires !s.irefst && s.pllst && s.clkst == 3
    ensures var r' := PllInitStage(r, crystal, hgo, erefs, prdiv, vdiv, 0);
            && PrDiv(r'.c5) == prdiv && VDiv(r'.c6) == vdiv && !Internal(r'.c1)
            && TunedTo(r', crystal)
            && (!r.c2.lp ==> Settled(PEE, r', s))
            && (crystal == clk.xtal ==> McgOut(r', clk) == PllHz(crystal, prdiv, vdiv) && 0 <= McgOut(r', clk) < TWO_32)
  {
    BlpePbeRange(crystal, prdiv, vdiv);
  }
}
