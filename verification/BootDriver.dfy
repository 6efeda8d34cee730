/** SystemInit, SetSysClock and SystemCoreClockUpdate as the imperative code they are, on
    the packed register words, against hardware that sets its own status bits before every
    access. The boot is proved to follow the machine of module Boot, and to finish.
 */
module BootDriver {
  import opened Words
  import opened ClockTree
  import opened Iteration
  import opened Boot
  import opened BootSafety
  import opened BootProgress
  import opened BootSwitch
  import opened ClockRegisters
  import opened BootReadBack
  import opened BusClocks

  // ---------- The hardware's bits ----------

  /** What the hardware puts in its status bits before one access: RCC_CR, RCC_CFGR and
      the power controller's PWR_CSR. */
  datatype Hw = Hw(cr: bv32, cfgr: bv32, pwrcsr: bv32)

  function FlagsOf(cr: bv32, cfgr: bv32, pwrcsr: bv32): Flags {
    Flags(Has(cr, CR_HSERDY), Has(cr, CR_PLLRDY),
          Has(pwrcsr, CSR_ODRDY), Has(pwrcsr, CSR_ODSWRDY),
          SourceOf(cfgr))
  }

  function FlagStream(hw: nat -> Hw): nat -> Flags {
    (t: nat) => FlagsOf(hw(t).cr, hw(t).cfgr, hw(t).pwrcsr)
  }

  function Settled(r: Registers, w: Hw): Registers {
    r.(cr := Mix(r.cr, w.cr, CR_STATUS), cfgr := Mix(r.cfgr, w.cfgr, CFGR_SWS))
  }

  lemma SettledKeepsFields(r: Registers, w: Hw)
    ensures Unpack(Settled(r, w)) == Unpack(r)
  {
    hide Unpack, Mix;
    var r' := r.(cr := Mix(r.cr, w.cr, CR_STATUS));
    UnpackSettled(r, CR, w.cr);
    UnpackSettled(r', CFGR, w.cfgr);
    assert Settled(r, w) == r'.(cfgr := Mix(r'.cfgr, w.cfgr, CFGR_SWS));
  }

  lemma SourceIsHardwares(cfgr: bv32, hw: bv32)
    ensures SourceOf(Mix(cfgr, hw, CFGR_SWS)) == SourceOf(hw)
  {
    hide Mix, Field;
    CfgrSoftwareBits(cfgr, hw);
  }

  lemma SettledShowsFlags(r: Registers, w: Hw)
    ensures FlagsOf(Settled(r, w).cr, Settled(r, w).cfgr, w.pwrcsr) == FlagsOf(w.cr, w.cfgr, w.pwrcsr)
  {
    hide Has, Mix, SourceOf;
    CrSoftwareBits(r.cr, w.cr);
    SourceIsHardwares(r.cfgr, w.cfgr);
  }

  lemma SettledSpares(before: Registers, pc: nat, r: Registers, w: Hw)
    requires Spared(before, pc, r)
    ensures Spared(before, pc, Settled(r, w))
  {
    hide Others, Mix;
    var r' := Stored(r, CR, Mix(r.cr, w.cr, CR_STATUS));
    assert Settled(r, w) == Stored(r', CFGR, Mix(r'.cfgr, w.cfgr, CFGR_SWS));
    forall q: Register
      ensures Others(Settled(r, w), q) == Others(r, q)
    {
      OthersSettled(r, CR, w.cr, q);
      OthersSettled(r', CFGR, w.cfgr, q);
    }
  }

  // ---------- The flags by bit number ----------

  /** HSERDY and PLLRDY are bits 17 and 25 of RCC_CR, the over-drive flags bits 16 and 17 of
      PWR_CSR, and the clock in use bits 3..2 of RCC_CFGR. */
  lemma FlagsByBits(cr: bv32, cfgr: bv32, pwrcsr: bv32)
    ensures var f := FlagsOf(cr, cfgr, pwrcsr);
            && (f.hserdy <==> cr & 0x0002_0000 != 0) && (f.pllrdy <==> cr & 0x0200_0000 != 0)
            && (f.odrdy <==> pwrcsr & 0x0001_0000 != 0) && (f.odswrdy <==> pwrcsr & 0x0002_0000 != 0)
            && f.source == (cfgr >> 2) & 3
  {
    SourceBits(cfgr);
  }

  lemma SourceBits(cfgr: bv32)
    ensures SourceOf(cfgr) == (cfgr >> 2) & 3
    ensures SourceOf(cfgr) == SW_PLL <==> cfgr & 0xC == 0x8
  {
  }

  lemma ReadyBits(cr: bv32, pwrcsr: bv32)
    ensures Has(cr, CR_HSERDY) <==> cr & 0x0002_0000 != 0
    ensures Has(cr, CR_PLLRDY) <==> cr & 0x0200_0000 != 0
    ensures Has(pwrcsr, CSR_ODRDY) <==> pwrcsr & 0x0001_0000 != 0
    ensures Has(pwrcsr, CSR_ODSWRDY) <==> pwrcsr & 0x0002_0000 != 0
  {
  }

  // ---------- The machine behind the code ----------

  /** m is the machine k statements into a boot that began with clock c at time t. */
  ghost predicate Follows(b: Board, c: Clock, flags: nat -> Flags, t: nat, k: nat, m: Machine) {
    m == Run(b, Start(c), flags, t, k) && PathInv(b, m)
  }

  lemma FollowsStart(b: Board, c: Clock, flags: nat -> Flags, t: nat)
    ensures Follows(b, c, flags, t, 0, Start(c))
  {
  }

  /** The machine after the next statement. */
  lemma NextMachine(b: Board, c: Clock, flags: nat -> Flags, t: nat, k: nat, m: Machine) returns (m': Machine)
    requires Follows(b, c, flags, t, k, m)
    ensures Follows(b, c, flags, t, k + 1, m')
    ensures m'.pc == NextPc(b, m.pc, m.counter, flags(t + k))
    ensures m'.clock == Held(m.clock, Execute(b, m.pc, m.clock), flags(t + k).source)
    ensures m.pc == HSE_ON ==> m'.counter == 0
    ensures m.pc == POLL_HSE ==> m'.counter == Polled(m.counter)
  {
    m' := Step(b, m, flags(t + k));
    RunOneMore(b, Start(c), flags, t, k);
    StepKeepsPath(b, m, flags(t + k));
  }

  /** Statements that are always followed by the next one. */
  predicate Straight(pc: nat) {
    pc < DONE && pc != RESET_CIR && pc != POLL_HSE && pc != CHECK_HSE && !Waits(pc)
  }

  lemma StraightNext(b: Board, pc: nat, counter: u32, f: Flags)
    requires Straight(pc)
    ensures NextPc(b, pc, counter, f) == pc + 1
  {
  }

  lemma ResetIsStraight()
    ensures Straight(ENABLE_FPU) && Straight(HSI_ON) && Straight(RESET_CFGR) && Straight(RESET_CR)
         && Straight(RESET_PLLCFGR) && Straight(RESET_BYPASS) && Straight(HSE_ON)
  {
  }

  lemma PllIsStraight()
    ensures Straight(POWER_ON) && Straight(VOLTAGE_SCALE) && Straight(AHB_PRESCALER)
         && Straight(APB2_PRESCALER) && Straight(APB1_PRESCALER) && Straight(CONFIGURE_PLL)
         && Straight(PLL_ON) && Straight(OVERDRIVE_ON) && Straight(OVERDRIVE_SWITCH)
         && Straight(FLASH_WAIT_STATES) && Straight(CLEAR_SWITCH) && Straight(SELECT_PLL)
         && Straight(VECTOR_TABLE)
  {
  }

  lemma WaitNext(b: Board, pc: nat, counter: u32, f: Flags)
    requires Waits(pc)
    ensures NextPc(b, pc, counter, f) ==
            if !Grants(pc, f) then pc
            else if pc == AWAIT_PLL && !b.device.overdrive then FLASH_WAIT_STATES else pc + 1
  {
  }

  lemma PastReset(b: Board, pc: nat, counter: u32, f: Flags)
    ensures NextPc(b, pc, counter, f) > RESET_CFGR <==> pc >= RESET_CFGR
  {
  }

  /** Statements that only read, and the one that is empty in a build without the FPU. */
  predicate Reads(b: Board, pc: nat) {
    pc == POLL_HSE || pc == CHECK_HSE || Waits(pc) || (pc == ENABLE_FPU && !b.fpu)
  }

  lemma SameSpared(before: Registers, pc: nat, pc': nat, r: Registers)
    requires Spared(before, pc, r) && (pc' > RESET_CFGR <==> pc > RESET_CFGR)
    ensures Spared(before, pc', r)
  {
    hide Others;
  }

  lemma NoFpu(b: Board, c: Clock)
    requires !b.fpu
    ensures Execute(b, ENABLE_FPU, c) == c
  {
    hide Set, PackPll;
  }

  lemma Polling(b: Board, pc: nat, c: Clock)
    requires pc == POLL_HSE || pc == CHECK_HSE || Waits(pc)
    ensures Execute(b, pc, c) == c
  {
    hide Set, PackPll;
  }

  lemma HeldUnchanged(c: Clock, source: bv32)
    ensures Held(c, c, source) == c
  {
    hide HseInUse;
  }

  lemma ReadOnly(b: Board, pc: nat, c: Clock)
    requires Reads(b, pc)
    ensures Execute(b, pc, c) == c
  {
    hide Execute;
    if pc == ENABLE_FPU {
      NoFpu(b, c);
    } else {
      Polling(b, pc, c);
    }
  }

  /** In a boot that can finish, the flag being waited for shows at some time n. */
  lemma FlagWillShow(b: Board, c: Clock, flags: nat -> Flags, t: nat, k: nat, m: Machine) returns (n: nat)
    requires Follows(b, c, flags, t, k, m) && Waits(m.pc) && Fair(b, Start(c), flags, t)
    ensures n >= t + k && Grants(m.pc, flags(n))
  {
    hide Grants, PathInv;
    assert Answered(b, Start(c), flags, t, k);
    n :| n >= t + k && Grants(m.pc, flags(n));
  }

  lemma PollNext(b: Board, counter: u32, f: Flags)
    ensures NextPc(b, POLL_HSE, counter, f) ==
            if !f.hserdy && Polled(counter) != b.timeout then POLL_HSE else CHECK_HSE
    ensures NextPc(b, CHECK_HSE, counter, f) == if f.hserdy then POWER_ON else VECTOR_TABLE
  {
  }

  lemma SwitchCode(cfgr: bv32)
    ensures Field(cfgr, CFGR_SWS) == SWS_PLL <==> Field(cfgr, CFGR_SWS) >> 2 == SW_PLL
  {
  }

  lemma PollsCountDown(timeout: u32, counter: u32)
    requires Polled(counter) != timeout
    ensures PollsLeft(timeout, Polled(counter)) < PollsLeft(timeout, counter)
  {
  }

  lemma DoneIsFinished(b: Board, c: Clock, flags: nat -> Flags, t: nat, k: nat, m: Machine)
    requires Follows(b, c, flags, t, k, m) && m.pc == DONE
    ensures Finished(b, m) && m == Run(b, Start(c), flags, t, k)
    ensures m.clock.sw == if OscillatorSeen(b, flags, t) then SW_PLL else SW_HSI
  {
    hide Step, OscillatorSeen;
    StartHasInv(b, c);
    RunKeepsInv(b, Start(c), flags, t, k);
    PathTaken(b, c, flags, t, k);
  }

  lemma FreshlySpared(r: Registers)
    ensures Spared(r, ENABLE_FPU, r)
  {
    hide Others;
  }

  /** Bit 17 of RCC_CR. */
  predicate HseReady(w: Hw) {
    w.cr & 0x0002_0000 != 0
  }

  lemma SeenByBit(b: Board, hw: nat -> Hw, t: nat)
    requires b.device.UsesHse()
    ensures OscillatorSeen(b, FlagStream(hw), t) <==> HseReady(hw(t + CheckSteps(b, FlagStream(hw), t)))
  {
    hide CheckSteps, FlagsOf;
    var w := hw(t + CheckSteps(b, FlagStream(hw), t));
    FlagsByBits(w.cr, w.cfgr, w.pwrcsr);
  }

  lemma SettledSource(r: Registers, hw: nat -> Hw, t: nat)
    ensures SourceOf(Settled(r, hw(t)).cfgr) == FlagStream(hw)(t).source
  {
    hide SourceOf, Mix;
    SourceIsHardwares(r.cfgr, hw(t).cfgr);
  }

  // ---------- The code ----------

  /** The passing of time: one access after another, and the machine that goes with them. */
  class Timeline {
    /** Number of accesses so far. */
    var time: nat
    // The boot in progress: where it began, and the machine that follows it.
    ghost var begun: Clock
    ghost var before: Registers
    ghost var began: nat
    ghost var model: Machine

    constructor (c: Clock, r: Registers)
      ensures time == 0
    {
      time, began, begun, before, model := 0, 0, c, r, Start(c);
    }

    ghost predicate Tracks(b: Board, flags: nat -> Flags)
      reads this
    {
      began <= time && Follows(b, begun, flags, began, time - began, model)
    }

    method Begin(b: Board, ghost flags: nat -> Flags, ghost c: Clock, ghost r: Registers)
      modifies this
      ensures Tracks(b, flags) && began == time == old(time) && begun == c && before == r
      ensures model.pc == ENABLE_FPU && model.clock == c
    {
      FollowsStart(b, c, flags, time);
      begun, before, began, model := c, r, time, Start(c);
    }

    /** A statement is complete. */
    method Complete(b: Board, ghost flags: nat -> Flags)
      requires Tracks(b, flags)
      modifies this`model, this`time
      ensures Tracks(b, flags) && time == old(time) + 1
      ensures model.pc == NextPc(b, old(model.pc), old(model.counter), flags(old(time)))
      ensures model.clock == Held(old(model.clock), Execute(b, old(model.pc), old(model.clock)),
                                  flags(old(time)).source)
      ensures old(model.pc) == HSE_ON ==> model.counter == 0
      ensures old(model.pc) == POLL_HSE ==> model.counter == Polled(old(model.counter))
    {
      hide Execute, NextPc, Step, Follows, Held;
      model := NextMachine(b, begun, flags, began, time - began, model);
      time := time + 1;
    }
  }

  class ClockController {
    const board: Board
    /** HSE_VALUE and HSI_VALUE */
    const hse: u32
    const hsi: u32
    /** The hardware: hw(t) is in the status bits at access t. */
    const hw: nat -> Hw
    const line: Timeline

    var regs: Registers
    var pwrcsr: bv32
    var SystemCoreClock: nat

    /** Any register contents, any hardware. */
    constructor (board: Board, hse: u32, hsi: u32, hw: nat -> Hw, regs: Registers)
      ensures this.board == board && this.hse == hse && this.hsi == hsi && this.hw == hw
      ensures this.regs == regs && fresh(line) && line.time == 0 && SystemCoreClock == board.device.declared
    {
      hide Unpack;
      this.board, this.hse, this.hsi, this.hw := board, hse, hsi, hw;
      this.regs, pwrcsr := regs, 0;
      SystemCoreClock := board.device.declared;
      line := new Timeline(Unpack(regs), regs);
    }

    ghost function Shown(): nat -> Flags {
      FlagStream(hw)
    }

    /** The flags that the code can read now. */
    function Visible(): Flags
      reads this
    {
      FlagsOf(regs.cr, regs.cfgr, pwrcsr)
    }

    /** The registers hold what the machine says they hold, and otherwise what they held. */
    ghost predicate Tracks()
      reads this, line
    {
      && line.Tracks(board, Shown()) && Unpack(regs) == line.model.clock
      && Spared(line.before, line.model.pc, regs)
    }

    /** A boot that tracks its machine, on hardware that answers. */
    ghost predicate Booting(pc: nat)
      reads this, line
    {
      Tracks() && line.model.pc == pc
      && Fair(board, Start(line.begun), Shown(), line.began)
    }

    /** The hardware sets its bits before an access. */
    method Settle()
      modifies this`regs, this`pwrcsr
      ensures regs == Settled(old(regs), hw(line.time)) && pwrcsr == hw(line.time).pwrcsr
      ensures Unpack(regs) == old(Unpack(regs))
      ensures Visible() == Shown()(line.time)
    {
      hide Unpack, FlagsOf, Mix;
      SettledKeepsFields(regs, hw(line.time));
      SettledShowsFlags(regs, hw(line.time));
      regs := Settled(regs, hw(line.time));
      pwrcsr := hw(line.time).pwrcsr;
    }

    /** One read-modify-write: the bits of `keep` stay, those of `bits` are set, and the
        hardware keeps the clock in use on. */
    method Modify(which: Register, keep: bv32, bits: bv32)
      requires Tracks() && Statement(board, line.model.pc, which, keep, bits)
      modifies this`regs, this`pwrcsr, line`model, line`time
      ensures Tracks() && line.time == old(line.time) + 1
      ensures line.model.pc == NextPc(board, old(line.model.pc), old(line.model.counter), Shown()(old(line.time)))
      ensures Straight(old(line.model.pc)) ==> line.model.pc == old(line.model.pc) + 1
      ensures old(line.model.pc) == HSE_ON ==> line.model.counter == 0
    {
      hide Unpack, Execute, FlagsOf, FlagStream, NextPc, Follows, Does, Modified, Held, Accepted, SourceOf, Settled,
           Spared, Spares;
      if Straight(line.model.pc) {
        StraightNext(board, line.model.pc, line.model.counter, Shown()(line.time));
      }
      SettledSpares(line.before, line.model.pc, regs, hw(line.time));
      PastReset(board, line.model.pc, line.model.counter, Shown()(line.time));
      Settle();
      SettledSource(old(regs), hw, line.time);
      StatementSpares(board, line.before, line.model.pc,
                      NextPc(board, line.model.pc, line.model.counter, Shown()(line.time)), regs, which, keep, bits);
      AcceptedDoes(board, line.model.pc, which, keep, bits, regs);
      regs := Accepted(regs, Modified(regs, which, keep, bits));
      line.Complete(board, Shown());
    }

    /** One read: the fields stay. */
    method Load()
      requires Tracks() && Reads(board, line.model.pc)
      modifies this`regs, this`pwrcsr, line`model, line`time
      ensures Tracks() && line.time == old(line.time) + 1
      ensures Visible() == Shown()(old(line.time))
      ensures line.model.pc == NextPc(board, old(line.model.pc), old(line.model.counter), Visible())
      ensures Straight(old(line.model.pc)) ==> line.model.pc == old(line.model.pc) + 1
      ensures old(line.model.pc) == POLL_HSE ==> line.model.counter == Polled(old(line.model.counter))
    {
      hide Unpack, Execute, FlagsOf, FlagStream, NextPc, Follows, Polled, Held, Settled, Spared;
      SettledSpares(line.before, line.model.pc, regs, hw(line.time));
      PastReset(board, line.model.pc, line.model.counter, Shown()(line.time));
      SameSpared(line.before, line.model.pc, NextPc(board, line.model.pc, line.model.counter, Shown()(line.time)),
                 Settled(regs, hw(line.time)));
      if Straight(line.model.pc) {
        StraightNext(board, line.model.pc, line.model.counter, Shown()(line.time));
      }
      ReadOnly(board, line.model.pc, line.model.clock);
      HeldUnchanged(line.model.clock, Shown()(line.time).source);
      Settle();
      line.Complete(board, Shown());
    }

    // ---------- SystemInit: back to the reset state ----------

    method EnableFpu()
      requires Booting(ENABLE_FPU)
      modifies this`regs, this`pwrcsr, line`model, line`time
      ensures Booting(HSI_ON)
    {
      hide Unpack, Statement, Spared, FlagsOf, FlagStream, NextPc, Follows, Fair;
      if board.fpu {
        FpuDoes(board);
        Modify(CPACR, ALL, CPACR_FPU);
      } else {
        Load();
      }
    }

    method ResetInterrupts()
      requires Booting(RESET_CIR)
      modifies this`regs, this`pwrcsr, line`model, line`time
      ensures Booting(if board.device.UsesHse() then HSE_ON else POWER_ON)
    {
      hide Unpack, Statement, Spared, FlagsOf, FlagStream, Follows, Fair;
      ResetCirDoes(board);
      Modify(CIR, 0, 0);
    }

    /** The RCC configuration back to its reset state. */
    method ResetClocks()
      requires Booting(ENABLE_FPU)
      modifies this`regs, this`pwrcsr, line`model, line`time
      ensures Booting(if board.device.UsesHse() then HSE_ON else POWER_ON)
    {
      hide Unpack, Statement, Spared, FlagsOf, FlagStream, NextPc, Follows, Fair, Straight, Waits, Reads, Tracks;
      ResetIsStraight();
      EnableFpu();
      HsiOnDoes(board);
      Modify(CR, ALL, CR_HSION);
      ResetCfgrDoes(board);
      Modify(CFGR, 0, 0);
      ResetCrDoes(board);
      Modify(CR, 0xFEF6_FFFF, 0);
      ResetPllcfgrDoes(board);
      Modify(PLLCFGR, 0, PLLCFGR_RESET);
      ResetBypassDoes(board);
      Modify(CR, 0xFFFB_FFFF, 0);
      ResetInterrupts();
    }

    // ---------- SetSysClock ----------

    /** HSE on, and polled until it is ready or HSE_STARTUP_TIMEOUT polls have failed. */
    method StartHse() returns (ready: bool)
      requires Booting(HSE_ON)
      modifies this`regs, this`pwrcsr, line`model, line`time
      ensures Booting(if ready then POWER_ON else VECTOR_TABLE)
      ensures ready <==> regs.cr & 0x0002_0000 != 0
    {
      hide Unpack, Statement, Spared, FlagStream, NextPc, Follows, Fair, Straight, Polled, Has, Field, PollsLeft;
      var StartUpCounter: u32 := 0;
      ResetIsStraight();
      HseOnDoes(board);
      Modify(CR, ALL, HseBits(board.device));
      var again := true;
      while again
        invariant Booting(if again then POLL_HSE else CHECK_HSE)
        invariant line.model.counter == StartUpCounter
        decreases if again then PollsLeft(board.timeout, StartUpCounter) else 0
      {
        Load();
        PollNext(board, StartUpCounter, Visible());
        var HSEStatus := Has(regs.cr, CR_HSERDY);
        ghost var before := StartUpCounter;
        StartUpCounter := Polled(StartUpCounter);
        again := !HSEStatus && StartUpCounter != board.timeout;
        if again {
          PollsCountDown(board.timeout, before);
        }
      }
      Load();
      PollNext(board, StartUpCounter, Visible());
      ReadyBits(regs.cr, pwrcsr);
      ready := Has(regs.cr, CR_HSERDY);
    }

    /** Regulator scale, bus prescalers, PLL factors, PLL on. */
    method StartPll()
      requires Booting(POWER_ON) && board.device.Valid()
      modifies this`regs, this`pwrcsr, line`model, line`time
      ensures Booting(AWAIT_PLL)
    {
      hide Unpack, Statement, Spared, FlagsOf, FlagStream, NextPc, Follows, Fair, Straight, Waits, Reads, Tracks;
      PllIsStraight();
      PowerOnDoes(board);
      Modify(APB1ENR, ALL, APB1ENR_PWREN);
      VoltageDoes(board);
      Modify(PWR_CR, ALL, PWR_VOS);
      AhbDoes(board);
      Modify(CFGR, ALL, HPRE_DIV1);
      Apb2Does(board);
      Modify(CFGR, ALL, board.device.ppre2);
      Apb1Does(board);
      Modify(CFGR, ALL, board.device.ppre1);
      PllDoes(board);
      Modify(PLLCFGR, 0, PackPll(board.device));
      PllOnDoes(board);
      Modify(CR, ALL, CR_PLLON);
    }

    /** One read of a ready flag that will show at time n. */
    method PollFlag(ghost pc: nat, ghost n: nat)
      requires Booting(pc) && Waits(pc) && line.time <= n && Grants(pc, Shown()(n))
      modifies this`regs, this`pwrcsr, line`model, line`time
      ensures Booting(if !Grants(pc, Visible()) then pc
                      else if pc == AWAIT_PLL && !board.device.overdrive then FLASH_WAIT_STATES else pc + 1)
      ensures line.time == old(line.time) + 1
      ensures !Grants(pc, Visible()) ==> line.time <= n
    {
      hide Unpack, Spared, FlagsOf, FlagStream, NextPc, Follows, Fair, Has, Field, Grants;
      ghost var counter := line.model.counter;
      Load();
      WaitNext(board, pc, counter, Visible());
    }

    method AwaitPll()
      requires Booting(AWAIT_PLL)
      modifies this`regs, this`pwrcsr, line`model, line`time
      ensures Booting(if board.device.overdrive then OVERDRIVE_ON else FLASH_WAIT_STATES)
      ensures regs.cr & 0x0200_0000 != 0
    {
      hide Unpack, Spared, FlagStream, NextPc, Follows, Fair, Has, Field;
      ghost var n := FlagWillShow(board, line.begun, Shown(), line.began, line.time - line.began, line.model);
      PollFlag(AWAIT_PLL, n);
      while !Has(regs.cr, CR_PLLRDY)
        invariant Booting(if !Has(regs.cr, CR_PLLRDY) then AWAIT_PLL
                          else if board.device.overdrive then OVERDRIVE_ON else FLASH_WAIT_STATES)
        invariant !Has(regs.cr, CR_PLLRDY) ==> line.time <= n
        decreases n - line.time
      {
        PollFlag(AWAIT_PLL, n);
      }
      ReadyBits(regs.cr, pwrcsr);
    }

    method AwaitOverdrive()
      requires Booting(AWAIT_OVERDRIVE)
      modifies this`regs, this`pwrcsr, line`model, line`time
      ensures Booting(OVERDRIVE_SWITCH)
      ensures pwrcsr & 0x0001_0000 != 0
    {
      hide Unpack, Spared, FlagStream, NextPc, Follows, Fair, Has, Field;
      ghost var n := FlagWillShow(board, line.begun, Shown(), line.began, line.time - line.began, line.model);
      PollFlag(AWAIT_OVERDRIVE, n);
      while !Has(pwrcsr, CSR_ODRDY)
        invariant Booting(if Has(pwrcsr, CSR_ODRDY) then OVERDRIVE_SWITCH else AWAIT_OVERDRIVE)
        invariant !Has(pwrcsr, CSR_ODRDY) ==> line.time <= n
        decreases n - line.time
      {
        PollFlag(AWAIT_OVERDRIVE, n);
      }
      ReadyBits(regs.cr, pwrcsr);
    }

    method AwaitOverdriveSwitch()
      requires Booting(AWAIT_OVERDRIVE_SWITCH)
      modifies this`regs, this`pwrcsr, line`model, line`time
      ensures Booting(FLASH_WAIT_STATES)
      ensures pwrcsr & 0x0002_0000 != 0
    {
      hide Unpack, Spared, FlagStream, NextPc, Follows, Fair, Has, Field;
      ghost var n := FlagWillShow(board, line.begun, Shown(), line.began, line.time - line.began, line.model);
      PollFlag(AWAIT_OVERDRIVE_SWITCH, n);
      while !Has(pwrcsr, CSR_ODSWRDY)
        invariant Booting(if Has(pwrcsr, CSR_ODSWRDY) then FLASH_WAIT_STATES else AWAIT_OVERDRIVE_SWITCH)
        invariant !Has(pwrcsr, CSR_ODSWRDY) ==> line.time <= n
        decreases n - line.time
      {
        PollFlag(AWAIT_OVERDRIVE_SWITCH, n);
      }
      ReadyBits(regs.cr, pwrcsr);
    }

    method Overdrive()
      requires Booting(OVERDRIVE_ON)
      modifies this`regs, this`pwrcsr, line`model, line`time
      ensures Booting(FLASH_WAIT_STATES)
    {
      hide Unpack, Statement, Spared, FlagsOf, FlagStream, NextPc, Follows, Fair, Straight, Waits, Reads, Tracks;
      PllIsStraight();
      OverdriveOnDoes(board);
      Modify(PWR_CR, ALL, PWR_ODEN);
      AwaitOverdrive();
      OverdriveSwitchDoes(board);
      Modify(PWR_CR, ALL, PWR_ODSWEN);
      AwaitOverdriveSwitch();
    }

    method SelectPll()
      requires Booting(FLASH_WAIT_STATES)
      modifies this`regs, this`pwrcsr, line`model, line`time
      ensures Booting(AWAIT_SWITCH)
    {
      hide Unpack, Statement, Spared, FlagsOf, FlagStream, NextPc, Follows, Fair, Straight, Waits, Reads, Tracks;
      PllIsStraight();
      WaitStatesDoes(board);
      Modify(ACR, 0, ACR_CACHES | board.device.latency);
      ClearSwitchDoes(board);
      Modify(CFGR, !CFGR_SW, 0);
      SelectPllDoes(board);
      Modify(CFGR, ALL, SW_PLL);
    }

    method AwaitSwitch()
      requires Booting(AWAIT_SWITCH)
      modifies this`regs, this`pwrcsr, line`model, line`time
      ensures Booting(VECTOR_TABLE)
      ensures regs.cfgr & 0xC == 0x8
    {
      hide Unpack, Spared, FlagStream, NextPc, Follows, Fair, Has, Field;
      ghost var n := FlagWillShow(board, line.begun, Shown(), line.began, line.time - line.began, line.model);
      PollFlag(AWAIT_SWITCH, n);
      SwitchCode(regs.cfgr);
      while !(Field(regs.cfgr, CFGR_SWS) == SWS_PLL)
        invariant Booting(if (Field(regs.cfgr, CFGR_SWS) == SWS_PLL) then VECTOR_TABLE else AWAIT_SWITCH)
        invariant !(Field(regs.cfgr, CFGR_SWS) == SWS_PLL) ==> line.time <= n
        decreases n - line.time
      {
        PollFlag(AWAIT_SWITCH, n);
        SwitchCode(regs.cfgr);
      }
      SourceBits(regs.cfgr);
    }

    /** Clock source, multipliers, prescalers and flash settings. */
    method SetSysClock()
      requires Booting(if board.device.UsesHse() then HSE_ON else POWER_ON) && board.device.Valid()
      modifies this`regs, this`pwrcsr, line`model, line`time
      ensures Booting(VECTOR_TABLE)
    {
      hide Unpack, Spared, FlagsOf, FlagStream, Follows, Fair;
      var ready := true;
      if board.device.UsesHse() {
        ready := StartHse();
      }
      if ready {
        StartPll();
        AwaitPll();
        if board.device.overdrive {
          Overdrive();
        }
        SelectPll();
        AwaitSwitch();
      }
    }

    /** What a boot has reached when it is done. */
    ghost predicate Booted()
      reads this, line
    {
      && Booting(DONE) && Finished(board, line.model)
      && line.model.clock.sw == (if OscillatorSeen(board, Shown(), line.began) then SW_PLL else SW_HSI)
      && FinalWords(board.device, regs, line.model.clock.sw == SW_PLL, line.model.bypassKept)
      && Spared(line.before, DONE, regs)
      && (board.device.UsesHse() ==>
            (line.model.clock.sw == SW_PLL <==>
             HseReady(hw(line.began + CheckSteps(board, Shown(), line.began)))))
    }

    lemma DoneIsBooted()
      requires Booting(DONE)
      ensures Booted()
    {
      hide Unpack, Spared, FlagStream, Follows, Fair, Finished, OscillatorSeen, FinalWords, CheckSteps, HseReady;
      DoneIsFinished(board, line.begun, Shown(), line.began, line.time - line.began, line.model);
      if board.device.UsesHse() {
        SeenByBit(board, hw, line.began);
      }
      FinalRegisters(board, line.model, regs);
    }

    /** From any register contents, on hardware that answers, the boot ends in a complete
        clock configuration, bit by bit, with every other bit as it was and those of CFGR
        cleared; on the PLL if and only if bit 17 of RCC_CR is set when it is read after
        polling. */
    method SystemInit()
      requires board.device.Valid() && Fair(board, Start(Unpack(regs)), Shown(), line.time)
      modifies this`regs, this`pwrcsr, line
      ensures line.begun == old(Unpack(regs)) && line.before == old(regs) && line.began == old(line.time)
      ensures Booted()
    {
      hide Unpack, Statement, Spared, FlagsOf, FlagStream, NextPc, Follows, Fair, Straight, Booted;
      line.Begin(board, Shown(), Unpack(regs), regs);
      FreshlySpared(regs);
      ResetClocks();
      SetSysClock();
      PllIsStraight();
      VectorTableDoes(board);
      Modify(VTOR, 0, FLASH_BASE);
      DoneIsBooted();
    }

    /** Start-up, then the update of SystemCoreClock: from any registers and any clock in
        use, on hardware that answers and switches only to what is requested. */
    method InitThenUpdate()
      requires board.device.Valid() && Fair(board, Start(Unpack(regs)), Shown(), line.time)
      requires SwitchFollowsRequest(board, Start(Unpack(regs)), Shown(), line.time)
      modifies this`regs, this`pwrcsr, this`SystemCoreClock, line
      ensures SystemCoreClock == Expected(old(line.time), line.time)
      ensures old(Unpack(regs).sw == SW_HSI && Shown()(line.time).source == SW_HSI) ==>
                SystemCoreClock == if OscillatorSeen(board, Shown(), old(line.time))
                                   then Planned(board.device, hse, hsi) else hsi
      ensures IsFamily(board.device) && hse == 8_000_000 && hsi == 16_000_000
              && OscillatorSeen(board, Shown(), old(line.time)) ==>
                SystemCoreClock == FamilyClocks(board.device).hclk
    {
      hide Unpack, Spared, FlagsOf, FlagStream, Follows, Fair, SwitchFollowsRequest, OscillatorSeen, Planned, CoreClock,
           PllMField, Finished, Expected, HsiShown, SourceOf, Mix, FinalWords, HseReady, CheckSteps, FamilyClocks,
           IsFamily;
      ghost var c, t := Unpack(regs), line.time;
      SystemInit();
      DoneIsFinished(board, c, Shown(), t, line.time - t, line.model);
      SettledSource(regs, hw, line.time);
      SettledKeepsFields(regs, hw(line.time));
      ComputedClock(c, t, line.time - t, Settled(regs, hw(line.time)));
      CfgrSoftwareBits(regs.cfgr, hw(line.time).cfgr);
      SystemCoreClockUpdate();
      FamilyExpected(t, line.time);
    }

    lemma FamilyExpected(t: nat, u: nat)
      requires board.device.Valid()
      ensures IsFamily(board.device) && hse == 8_000_000 && hsi == 16_000_000 && OscillatorSeen(board, Shown(), t) ==>
                Expected(t, u) == FamilyClocks(board.device).hclk
    {
      hide Planned, OscillatorSeen, IsFamily, FamilyClocks;
      FamilyFrequency(board.device);
    }

    /** The frequency of a boot from t to u: the planned one, HSI, or that of a clock which
        was in use before and has been kept. */
    ghost function Expected(t: nat, u: nat): nat
      requires board.device.Valid()
    {
      if OscillatorSeen(board, Shown(), t) then Planned(board.device, hse, hsi)
      else if HsiShown(Shown(), Cleared(t), u) then hsi
      else Fallback(board.device, Shown()(Cleared(t)).source, hse, hsi)
    }

    lemma ComputedClock(c: Clock, t: nat, n: nat, r: Registers)
      requires board.device.Valid() && SwitchFollowsRequest(board, Start(c), Shown(), t)
      requires Run(board, Start(c), Shown(), t, n).pc == DONE
      requires Shows(r, Run(board, Start(c), Shown(), t, n), Shown()(t + n))
      ensures r.cfgr & CFGR_SWS == SWS_PLL ==> PllMField(r.pllcfgr) != 0
      ensures CoreClock(board.device.source, hse, hsi, r.cfgr, r.pllcfgr) == Expected(t, t + n)
      ensures c.sw == SW_HSI && Shown()(t).source == SW_HSI ==>
                Expected(t, t + n) == if OscillatorSeen(board, Shown(), t) then Planned(board.device, hse, hsi) else hsi
    {
      hide CoreClock, Planned, PllMField, SwitchFollowsRequest, OscillatorSeen, SourceOf, HsiShown, FlagStream, Shows;
      BootThenUpdate(board, c, Shown(), t, n, r, hse, hsi);
      if c.sw == SW_HSI && Shown()(t).source == SW_HSI {
        ResetThenUpdate(board, c, Shown(), t, n, r, hse, hsi);
      }
    }

    // ---------- SystemCoreClockUpdate ----------

    /** SystemCoreClock from the registers as the hardware shows them. */
    method SystemCoreClockUpdate()
      requires Field(hw(line.time).cfgr, CFGR_SWS) == SWS_PLL ==> PllMField(regs.pllcfgr) != 0
      modifies this`regs, this`pwrcsr, this`SystemCoreClock
      ensures regs == Settled(old(regs), hw(line.time)) && pwrcsr == hw(line.time).pwrcsr
      ensures SystemCoreClock == CoreClock(board.device.source, hse, hsi, regs.cfgr, regs.pllcfgr)
    {
      hide Unpack, Spared, FlagsOf, FlagStream, Mix, SysClock, PllMField;
      CfgrSoftwareBits(regs.cfgr, hw(line.time).cfgr);
      Settle();
      SetSourceClock();
      var tmp := AHB_PRESC_TABLE[HpreIndex(regs.cfgr)];
      SystemCoreClock := Shr(SystemCoreClock, tmp);
    }

    /** The VCO frequency, in two unsigned steps. */
    method VcoOf(source: u32, pllm: nat, plln: nat) returns (pllvco: u32)
      requires pllm > 0
      ensures pllvco == Vco(source, pllm, plln)
    {
      var pllin := source / pllm;
      pllvco := pllin * plln % TWO_32;
    }

    /** pllvco, as the build for this device computes it. */
    method BuildVco(fromHse: bool, pllm: nat, plln: nat) returns (pllvco: u32)
      requires pllm > 0
      ensures pllvco == Vco(VcoInput(board.device.source, hse, hsi, fromHse), pllm, plln)
    {
      hide Vco;
      NothingIn(pllm, plln, 1, 0);
      pllvco := 0;
      match board.device.source
      case HseCrystal =>
        if fromHse {
          pllvco := VcoOf(hse, pllm, plln);
        } else {
          pllvco := VcoOf(hsi, pllm, plln);
        }
      case HseBypass =>
        if fromHse {
          pllvco := VcoOf(HSE_BYPASS_INPUT_FREQUENCY, pllm, plln);
        }
      case Hsi =>
        if !fromHse {
          pllvco := VcoOf(hsi, pllm, plln);
        }
    }

    /** The frequency before the AHB prescaler, by the clock source. */
    method SetSourceClock()
      requires regs.cfgr & CFGR_SWS == SWS_PLL ==> PllMField(regs.pllcfgr) != 0
      modifies this`SystemCoreClock
      ensures SystemCoreClock == SysClock(board.device.source, hse, hsi, regs.cfgr, regs.pllcfgr)
    {
      hide PllSourceField, PllMField, PllM, PllN, PllP, Vco, VcoInput;
      var tmp := regs.cfgr & CFGR_SWS;
      if tmp == SWS_HSI {
        SystemCoreClock := hsi;
      } else if tmp == SWS_HSE {
        SystemCoreClock := hse;
      } else if tmp == SWS_PLL {
        MAsNumber(regs.pllcfgr);
        PAsNumber(regs.pllcfgr);
        var pllsource := PllSourceField(regs.pllcfgr);
        var pllm := PllM(regs.pllcfgr);
        var pllvco := BuildVco(pllsource != 0, pllm, PllN(regs.pllcfgr));
        var pllp := PllP(regs.pllcfgr);
        QuotientFits(pllvco, pllp);
        SystemCoreClock := pllvco / pllp;
      } else {
        SystemCoreClock := hsi;
      }
    }
  }
}
