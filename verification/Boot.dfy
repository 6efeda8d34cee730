/** SystemInit and SetSysClock of USER/system_stm32f4xx.c as a machine that executes one
    statement at a time, against hardware that may show any ready flags before each and
    keeps the clock in use on.

    The registers appear here by their fields, each with the statements that write it;
    BootDriver has the code in the order of the source, on the packed words.
 */
module Boot {
  import opened Words
  import opened ClockTree
  import opened Iteration

  /** The fields software controls. CFGR fields are kept in place, as masked words. */
  datatype Clock = Clock(
    hsion: bool, hseon: bool, hsebyp: bool, csson: bool, pllon: bool,
    sw: bv32, hpre: bv32, ppre1: bv32, ppre2: bv32,
    pllcfgr: bv32, cir: bv32,
    pwren: bool, vos: bool, oden: bool, odswen: bool,
    acr: bv32, vtor: bv32, fpuAccess: bool)

  /** The flags hardware shows when a statement executes; `source` is the switch status,
      coded like the SW field. */
  datatype Flags = Flags(hserdy: bool, pllrdy: bool, odrdy: bool, odswrdy: bool, source: bv32)

  const PLLCFGR_RESET: bv32 := 0x2400_3010
  const FLASH_BASE: bv32 := 0x0800_0000
  /** Prefetch, instruction cache and data cache enabled. */
  const ACR_CACHES: bv32 := 0x0000_0700

  /** The device, HSE_STARTUP_TIMEOUT, and whether the code is built for the FPU. */
  datatype Board = Board(device: Device, timeout: u32, fpu: bool)

  // ---------- Statements, numbered in source order ----------

  const ENABLE_FPU := 0
  const HSI_ON := 1
  const RESET_CFGR := 2
  const RESET_CR := 3
  const RESET_PLLCFGR := 4
  const RESET_BYPASS := 5
  const RESET_CIR := 6
  const HSE_ON := 7
  const POLL_HSE := 8
  const CHECK_HSE := 9
  const POWER_ON := 10
  const VOLTAGE_SCALE := 11
  const AHB_PRESCALER := 12
  const APB2_PRESCALER := 13
  const APB1_PRESCALER := 14
  const CONFIGURE_PLL := 15
  const PLL_ON := 16
  const AWAIT_PLL := 17
  const OVERDRIVE_ON := 18
  const AWAIT_OVERDRIVE := 19
  const OVERDRIVE_SWITCH := 20
  const AWAIT_OVERDRIVE_SWITCH := 21
  const FLASH_WAIT_STATES := 22
  const CLEAR_SWITCH := 23
  const SELECT_PLL := 24
  const AWAIT_SWITCH := 25
  const VECTOR_TABLE := 26
  const DONE := 27

  /** `counter` is StartUpCounter; the next three fields record that a ready flag has been
      read as set, and the last three that PLLON, HSEON or HSEBYP belonged to the clock in
      use, and so stayed set, when it was to be cleared. */
  datatype Machine = Machine(
    pc: nat, clock: Clock, counter: u32,
    pllSeen: bool, overdriveSeen: bool, overdriveSwitchSeen: bool,
    pllKept: bool, hseKept: bool, bypassKept: bool)

  function Start(c: Clock): Machine {
    Machine(ENABLE_FPU, c, 0, false, false, false, false, false, false)
  }

  /** The statements that wait for a ready flag, and the flag. */
  predicate Waits(pc: nat) {
    pc == AWAIT_PLL || pc == AWAIT_OVERDRIVE || pc == AWAIT_OVERDRIVE_SWITCH || pc == AWAIT_SWITCH
  }

  predicate Grants(pc: nat, f: Flags) {
    && (pc == AWAIT_PLL ==> f.pllrdy)
    && (pc == AWAIT_OVERDRIVE ==> f.odrdy)
    && (pc == AWAIT_OVERDRIVE_SWITCH ==> f.odswrdy)
    && (pc == AWAIT_SWITCH ==> f.source == SW_PLL)
  }

  function Polled(counter: u32): u32 {
    (counter + 1) % TWO_32
  }

  function NextPc(b: Board, pc: nat, counter: u32, f: Flags): nat {
    if pc == RESET_CIR then (if b.device.UsesHse() then HSE_ON else POWER_ON)
    else if pc == POLL_HSE then (if !f.hserdy && Polled(counter) != b.timeout then POLL_HSE else CHECK_HSE)
    else if pc == CHECK_HSE then (if f.hserdy then POWER_ON else VECTOR_TABLE)
    else if Waits(pc) && !Grants(pc, f) then pc
    else if pc == AWAIT_PLL && !b.device.overdrive then FLASH_WAIT_STATES
    else if pc >= DONE then pc
    else pc + 1
  }

  function Set(word: bv32, bits: bv32): bv32 {
    word | bits
  }

  /** Each field as the statement numbered pc leaves it, or asks for it. */
  function Execute(b: Board, pc: nat, c: Clock): Clock {
    Clock(
      hsion := c.hsion || pc == HSI_ON,
      hseon := pc != RESET_CR && (c.hseon || pc == HSE_ON),
      hsebyp := pc != RESET_BYPASS && (c.hsebyp || (pc == HSE_ON && b.device.source == HseBypass)),
      csson := pc != RESET_CR && c.csson,
      pllon := pc != RESET_CR && (c.pllon || pc == PLL_ON),
      sw := if pc == RESET_CFGR || pc == CLEAR_SWITCH then 0
            else if pc == SELECT_PLL then Set(c.sw, SW_PLL) else c.sw,
      hpre := if pc == RESET_CFGR then 0
              else if pc == AHB_PRESCALER then Set(c.hpre, HPRE_DIV1) else c.hpre,
      ppre1 := if pc == RESET_CFGR then 0
               else if pc == APB1_PRESCALER then Set(c.ppre1, b.device.ppre1) else c.ppre1,
      ppre2 := if pc == RESET_CFGR then 0
               else if pc == APB2_PRESCALER then Set(c.ppre2, b.device.ppre2) else c.ppre2,
      pllcfgr := if pc == RESET_PLLCFGR then PLLCFGR_RESET
                 else if pc == CONFIGURE_PLL then PackPll(b.device) else c.pllcfgr,
      cir := if pc == RESET_CIR then 0 else c.cir,
      pwren := c.pwren || pc == POWER_ON,
      vos := c.vos || pc == VOLTAGE_SCALE,
      oden := c.oden || pc == OVERDRIVE_ON,
      odswen := c.odswen || pc == OVERDRIVE_SWITCH,
      acr := if pc == FLASH_WAIT_STATES then ACR_CACHES | b.device.latency else c.acr,
      vtor := if pc == VECTOR_TABLE then FLASH_BASE else c.vtor,
      fpuAccess := c.fpuAccess || (pc == ENABLE_FPU && b.fpu))
  }

  /** The oscillator HSE runs the core, directly or through the PLL. */
  predicate HseInUse(pllcfgr: bv32, source: bv32) {
    source == SW_HSE || (source == SW_PLL && PllSourceField(pllcfgr) != 0)
  }

  /** The hardware does not let software switch off the clock in use: a clear of PLLON, or
      of HSEON and HSEBYP, is then ignored. */
  function Held(before: Clock, after: Clock, source: bv32): Clock {
    after.(
      pllon := after.pllon || (before.pllon && source == SW_PLL),
      hseon := after.hseon || (before.hseon && HseInUse(before.pllcfgr, source)),
      hsebyp := after.hsebyp || (before.hsebyp && HseInUse(before.pllcfgr, source)))
  }

  function Step(b: Board, m: Machine, f: Flags): Machine {
    Machine(
      NextPc(b, m.pc, m.counter, f),
      Held(m.clock, Execute(b, m.pc, m.clock), f.source),
      if m.pc == HSE_ON then 0 else if m.pc == POLL_HSE then Polled(m.counter) else m.counter,
      m.pllSeen || (m.pc == AWAIT_PLL && f.pllrdy),
      m.overdriveSeen || (m.pc == AWAIT_OVERDRIVE && f.odrdy),
      m.overdriveSwitchSeen || (m.pc == AWAIT_OVERDRIVE_SWITCH && f.odswrdy),
      m.pllKept || (m.pc == RESET_CR && m.clock.pllon && f.source == SW_PLL),
      m.hseKept || (m.pc == RESET_CR && m.clock.hseon && HseInUse(m.clock.pllcfgr, f.source)),
      m.bypassKept || (m.pc == RESET_BYPASS && m.clock.hsebyp && HseInUse(m.clock.pllcfgr, f.source)))
  }

  ghost function Stepper(b: Board, flags: nat -> Flags): (Machine, nat) -> Machine {
    (m: Machine, t: nat) => Step(b, m, flags(t))
  }

  /** The machine k statements later; flags(t) is what the hardware shows at statement t. */
  ghost function Run(b: Board, m: Machine, flags: nat -> Flags, t: nat, k: nat): Machine {
    Iterate(Stepper(b, flags), m, t, k)
  }

  lemma RunOneMore(b: Board, m: Machine, flags: nat -> Flags, t: nat, k: nat)
    ensures Run(b, m, flags, t, k + 1) == Step(b, Run(b, m, flags, t, k), flags(t + k))
  {
    IterateOneMore(Stepper(b, flags), m, t, k);
  }

  lemma RunOneLess(b: Board, m: Machine, flags: nat -> Flags, t: nat, k: nat)
    requires k > 0
    ensures Run(b, m, flags, t, k) == Run(b, Step(b, m, flags(t)), flags, t + 1, k - 1)
  {
  }

  // ---------- Safety ----------

  /** Statement number k has been executed on the way to the PLL. */
  predicate Past(m: Machine, k: nat) {
    m.pc > k && (m.pc < VECTOR_TABLE || m.clock.sw == SW_PLL)
  }

  /** Which clock source is requested where, and which statements a board reaches. */
  predicate PathInv(b: Board, m: Machine) {
    var k, sw := m.pc, m.clock.sw;
    && k <= DONE
    && (RESET_CFGR < k <= SELECT_PLL ==> sw == SW_HSI)
    && (k == AWAIT_SWITCH ==> sw == SW_PLL)
    && (k > AWAIT_SWITCH ==> sw == SW_PLL || (sw == SW_HSI && b.device.UsesHse()))
    && (OVERDRIVE_ON <= k <= AWAIT_OVERDRIVE_SWITCH ==> b.device.overdrive)
    && (HSE_ON <= k <= CHECK_HSE ==> b.device.UsesHse())
  }

  predicate OscillatorInv(b: Board, m: Machine) {
    var c, k := m.clock, m.pc;
    && (k > HSI_ON ==> c.hsion)
    && (k > RESET_CR ==> !c.csson)
    && (k <= RESET_CR ==> !m.pllKept)
    && (k > RESET_CR ==> (c.pllon <==> Past(m, PLL_ON) || m.pllKept))
    && (k > HSE_ON && b.device.UsesHse() ==> c.hseon)
  }

  /** HSEON and HSEBYP are set exactly by the statement for the device, or kept. */
  predicate HseInv(b: Board, m: Machine) {
    var c, k := m.clock, m.pc;
    && (k <= RESET_CR ==> !m.hseKept)
    && (k > RESET_CR ==> (c.hseon <==> m.hseKept || (k > HSE_ON && b.device.UsesHse())))
    && (k <= RESET_BYPASS ==> !m.bypassKept)
    && (k > RESET_BYPASS ==> (c.hsebyp <==> m.bypassKept || (k > HSE_ON && b.device.source == HseBypass)))
  }

  predicate Apb1Inv(b: Board, m: Machine) {
    m.pc > RESET_CFGR ==>
      m.clock.ppre1 == if Past(m, APB1_PRESCALER) then b.device.ppre1 else 0
  }

  predicate Apb2Inv(b: Board, m: Machine) {
    m.pc > RESET_CFGR ==>
      m.clock.ppre2 == if Past(m, APB2_PRESCALER) then b.device.ppre2 else 0
  }

  predicate AhbInv(m: Machine) {
    m.pc > RESET_CFGR ==> m.clock.hpre == HPRE_DIV1
  }

  predicate PllInv(b: Board, m: Machine) {
    var c, d, k := m.clock, b.device, m.pc;
    && (k > RESET_PLLCFGR ==> c.pllcfgr == if Past(m, CONFIGURE_PLL) then PackPll(d) else PLLCFGR_RESET)
    && (Past(m, AWAIT_PLL) ==> m.pllSeen)
    && (Past(m, FLASH_WAIT_STATES) ==> c.acr == ACR_CACHES | d.latency)
    && (k > RESET_CIR ==> c.cir == 0)
    && (k > VECTOR_TABLE ==> c.vtor == FLASH_BASE)
  }

  predicate PowerInv(b: Board, m: Machine) {
    var c, d, k := m.clock, b.device, m.pc;
    && (Past(m, POWER_ON) ==> c.pwren)
    && (Past(m, VOLTAGE_SCALE) ==> c.vos)
    && (k == AWAIT_OVERDRIVE ==> c.oden)
    && (k == AWAIT_OVERDRIVE_SWITCH ==> c.odswen)
    && (Past(m, AWAIT_OVERDRIVE) && d.overdrive ==> c.oden && m.overdriveSeen)
    && (Past(m, AWAIT_OVERDRIVE_SWITCH) && d.overdrive ==> c.odswen && m.overdriveSwitchSeen)
  }

  predicate Inv(b: Board, m: Machine) {
    && PathInv(b, m) && OscillatorInv(b, m) && HseInv(b, m) && PllInv(b, m) && PowerInv(b, m)
    && AhbInv(m) && Apb1Inv(b, m) && Apb2Inv(b, m)
  }

  lemma StepKeepsPath(b: Board, m: Machine, f: Flags)
    requires PathInv(b, m)
    ensures PathInv(b, Step(b, m, f))
  {
    hide PackPll, HseInUse;
  }

  lemma StepKeepsOscillators(b: Board, m: Machine, f: Flags)
    requires PathInv(b, m) && OscillatorInv(b, m)
    ensures OscillatorInv(b, Step(b, m, f))
  {
    hide PackPll, Set, HseInUse;
  }

  lemma StepKeepsHse(b: Board, m: Machine, f: Flags)
    requires PathInv(b, m) && HseInv(b, m)
    ensures HseInv(b, Step(b, m, f))
  {
    hide PackPll, Set, HseInUse;
  }

  lemma OrFromZero(x: bv32)
    ensures 0 | x == x
  {
  }

  /** Leaving a statement other than k does not change whether k is behind. */
  lemma PastKept(b: Board, m: Machine, f: Flags, k: nat)
    requires PathInv(b, m) && m.pc > RESET_CFGR && m.pc != k
    requires k == APB1_PRESCALER || k == APB2_PRESCALER
    ensures Past(Step(b, m, f), k) == Past(m, k)
  {
  }

  lemma Apb1Written(b: Board, m: Machine, f: Flags)
    requires PathInv(b, m) && Apb1Inv(b, m) && m.pc == APB1_PRESCALER
    ensures Apb1Inv(b, Step(b, m, f))
  {
    OrFromZero(b.device.ppre1);
    assert Step(b, m, f).clock.ppre1 == b.device.ppre1;
  }

  lemma Apb1Kept(b: Board, m: Machine, f: Flags)
    requires m.pc > RESET_CFGR && m.pc != APB1_PRESCALER
    ensures Step(b, m, f).clock.ppre1 == m.clock.ppre1
  {
  }

  lemma StepKeepsApb1(b: Board, m: Machine, f: Flags)
    requires PathInv(b, m) && Apb1Inv(b, m)
    ensures Apb1Inv(b, Step(b, m, f))
  {
    if m.pc == APB1_PRESCALER {
      Apb1Written(b, m, f);
    } else if m.pc > RESET_CFGR {
      Apb1Kept(b, m, f);
      PastKept(b, m, f, APB1_PRESCALER);
    }
  }

  lemma Apb2Written(b: Board, m: Machine, f: Flags)
    requires PathInv(b, m) && Apb2Inv(b, m) && m.pc == APB2_PRESCALER
    ensures Apb2Inv(b, Step(b, m, f))
  {
    OrFromZero(b.device.ppre2);
    assert Step(b, m, f).clock.ppre2 == b.device.ppre2;
  }

  lemma Apb2Kept(b: Board, m: Machine, f: Flags)
    requires m.pc > RESET_CFGR && m.pc != APB2_PRESCALER
    ensures Step(b, m, f).clock.ppre2 == m.clock.ppre2
  {
  }

  lemma StepKeepsApb2(b: Board, m: Machine, f: Flags)
    requires PathInv(b, m) && Apb2Inv(b, m)
    ensures Apb2Inv(b, Step(b, m, f))
  {
    if m.pc == APB2_PRESCALER {
      Apb2Written(b, m, f);
    } else if m.pc > RESET_CFGR {
      Apb2Kept(b, m, f);
      PastKept(b, m, f, APB2_PRESCALER);
    }
  }

  lemma StepKeepsPll(b: Board, m: Machine, f: Flags)
    requires PathInv(b, m) && PllInv(b, m)
    ensures PllInv(b, Step(b, m, f))
  {
    hide PackPll, Set, HseInUse;
  }

  lemma StepKeepsPower(b: Board, m: Machine, f: Flags)
    requires PathInv(b, m) && PowerInv(b, m)
    ensures PowerInv(b, Step(b, m, f))
  {
    hide PackPll, Set, HseInUse;
  }

  lemma StepKeepsInv(b: Board, m: Machine, f: Flags)
    requires Inv(b, m)
    ensures Inv(b, Step(b, m, f))
  {
    StepKeepsPath(b, m, f);
    StepKeepsOscillators(b, m, f);
    StepKeepsHse(b, m, f);
    StepKeepsPll(b, m, f);
    StepKeepsPower(b, m, f);
    StepKeepsApb1(b, m, f);
    StepKeepsApb2(b, m, f);
  }
}
