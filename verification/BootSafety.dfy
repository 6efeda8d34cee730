/** What holds at every statement of every boot, finished or not, whatever the hardware
    shows.
 */
module BootSafety {
  import opened Words
  import opened ClockTree
  import opened Boot
  import opened Iteration

  lemma StartHasInv(b: Board, c: Clock)
    ensures Inv(b, Start(c))
  {
  }

  lemma RunKeepsInv(b: Board, m: Machine, flags: nat -> Flags, t: nat, k: nat)
    requires Inv(b, m)
    ensures Inv(b, Run(b, m, flags, t, k))
  {
    forall x: Machine, u: nat
      ensures Inv(b, x) ==> Inv(b, Stepper(b, flags)(x, u))
    {
      if Inv(b, x) {
        StepKeepsInv(b, x, flags(u));
      }
    }
    IterateKeeps(Stepper(b, flags), (x: Machine) => Inv(b, x), m, t, k);
  }

  lemma RunHasInv(b: Board, c: Clock, flags: nat -> Flags, t: nat, n: nat)
    ensures Inv(b, Run(b, Start(c), flags, t, n))
  {
    StartHasInv(b, c);
    RunKeepsInv(b, Start(c), flags, t, n);
  }

  lemma {:induction false} ResetStatements(b: Board, c: Clock, flags: nat -> Flags, t: nat, k: nat)
    requires k <= RESET_CIR
    ensures Run(b, Start(c), flags, t, k).pc == k
  {
    hide Execute;
    if k > 0 {
      ResetStatements(b, c, flags, t, k - 1);
      RunOneMore(b, Start(c), flags, t, k - 1);
    }
  }

  lemma BootKeepsInv(b: Board, c: Clock, flags: nat -> Flags, n: nat)
    ensures Inv(b, Run(b, Start(c), flags, 0, n))
  {
    StartHasInv(b, c);
    RunKeepsInv(b, Start(c), flags, 0, n);
  }

  /** Everything that has to be in place before the core may run from the PLL. */
  predicate PllConfigured(b: Board, m: Machine) {
    var c, d := m.clock, b.device;
    && c.pllon && m.pllSeen && c.pllcfgr == PackPll(d)
    && c.acr == ACR_CACHES | d.latency
    && c.pwren && c.vos
    && c.hpre == HPRE_DIV1 && c.ppre1 == d.ppre1 && c.ppre2 == d.ppre2
    && (d.UsesHse() ==> c.hseon)
    && (d.overdrive ==> c.oden && m.overdriveSeen && c.odswen && m.overdriveSwitchSeen)
  }

  /** The requested clock is HSI, switched on, or a PLL with everything in place. */
  predicate RequestIsSafe(b: Board, m: Machine) {
    || (m.clock.sw == SW_HSI && m.clock.hsion)
    || (m.clock.sw == SW_PLL && PllConfigured(b, m))
  }

  lemma InvIsSafe(b: Board, m: Machine, f: Flags)
    requires Inv(b, m)
    ensures m.pc > RESET_CFGR ==> RequestIsSafe(b, m)
    ensures m.pc == RESET_PLLCFGR || m.pc == CONFIGURE_PLL ==> (m.clock.pllon <==> m.pllKept)
    ensures Step(b, m, f).clock.pllcfgr != m.clock.pllcfgr ==> m.pc == RESET_PLLCFGR || m.pc == CONFIGURE_PLL
  {
    hide PackPll, HseInUse;
  }

  /** What is in place when a statement executes, by what the statement writes. */
  predicate InOrder(b: Board, m: Machine) {
    var c, k := m.clock, m.pc;
    && (k == RESET_CFGR ==> c.hsion)
    && (k == RESET_CR ==> c.hsion && c.sw == SW_HSI)
    && (k == RESET_BYPASS ==> (c.hseon <==> m.hseKept))
    && (k == HSE_ON ==> (c.pllon <==> m.pllKept) && (c.hseon <==> m.hseKept))
    && (k == POLL_HSE || k == CHECK_HSE ==> c.hseon)
    && (k == VOLTAGE_SCALE || k == OVERDRIVE_ON || k == OVERDRIVE_SWITCH ==> c.pwren)
    && (k == PLL_ON ==> c.pllcfgr == PackPll(b.device) && c.vos)
    && (k == OVERDRIVE_ON ==> c.pllon && m.pllSeen)
    && (k == OVERDRIVE_SWITCH ==> c.oden && m.overdriveSeen)
    && (k == CLEAR_SWITCH || k == SELECT_PLL ==> PllConfigured(b, m))
  }

  lemma InvIsInOrder(b: Board, m: Machine)
    requires Inv(b, m)
    ensures InOrder(b, m)
  {
    hide PackPll, HseInUse;
  }

  /** In every boot HSI is on before it is requested and requested before the other clocks
      are switched off; HSEBYP changes while HSE is off and HSE is on before it is polled;
      the power controller is clocked before it is written; the PLL is configured before it
      is switched on, on before over-drive, and everything in place before the switch. */
  lemma WritesAreInOrder(b: Board, c: Clock, flags: nat -> Flags, t: nat, n: nat)
    ensures InOrder(b, Run(b, Start(c), flags, t, n))
  {
    hide Inv, InOrder;
    RunHasInv(b, c, flags, t, n);
    InvIsInOrder(b, Run(b, Start(c), flags, t, n));
  }

  // ---------- A PLL that stays on ----------

  /** The boot began with the PLL on, and it is the clock in use when RCC_CR is reset. */
  predicate KeepsPll(c: Clock, flags: nat -> Flags, t: nat) {
    c.pllon && flags(t + RESET_CR).source == SW_PLL
  }

  lemma EarlyPll(b: Board, m: Machine, f: Flags)
    ensures var m' := Step(b, m, f);
            m.pc < RESET_CR ==> m'.clock.pllon == m.clock.pllon && m'.pllKept == m.pllKept
  {
    hide HseInUse, PackPll, NextPc;
  }

  lemma {:induction false} PllonAtReset(b: Board, c: Clock, flags: nat -> Flags, t: nat, n: nat)
    requires n <= RESET_CR
    ensures Run(b, Start(c), flags, t, n).clock.pllon == c.pllon
    ensures !Run(b, Start(c), flags, t, n).pllKept
  {
    hide Step;
    if n > 0 {
      EarlyPll(b, Run(b, Start(c), flags, t, n - 1), flags(t + n - 1));
      PllonAtReset(b, c, flags, t, n - 1);
      ResetStatements(b, c, flags, t, n - 1);
      RunOneMore(b, Start(c), flags, t, n - 1);
    }
  }

  lemma NotAgain(b: Board, m: Machine, f: Flags)
    requires PathInv(b, m) && m.pc > RESET_CR
    ensures Step(b, m, f).pllKept == m.pllKept && Step(b, m, f).pc > RESET_CR
  {
    hide Execute, Held;
  }

  lemma KeptNow(b: Board, m: Machine, f: Flags)
    requires m.pc == RESET_CR && !m.pllKept
    ensures Step(b, m, f).pc > RESET_CR
    ensures Step(b, m, f).pllKept <==> m.clock.pllon && f.source == SW_PLL
  {
    hide Execute, Held;
  }

  lemma {:induction false} PllIsKeptIff(b: Board, c: Clock, flags: nat -> Flags, t: nat, n: nat)
    requires n > RESET_CR
    ensures Run(b, Start(c), flags, t, n).pc > RESET_CR
    ensures Run(b, Start(c), flags, t, n).pllKept <==> KeepsPll(c, flags, t)
    decreases n
  {
    hide Step;
    RunOneMore(b, Start(c), flags, t, n - 1);
    if n == RESET_CR + 1 {
      PllonAtReset(b, c, flags, t, RESET_CR);
      ResetStatements(b, c, flags, t, RESET_CR);
      KeptNow(b, Run(b, Start(c), flags, t, RESET_CR), flags(t + RESET_CR));
    } else {
      PllIsKeptIff(b, c, flags, t, n - 1);
      RunHasInv(b, c, flags, t, n - 1);
      NotAgain(b, Run(b, Start(c), flags, t, n - 1), flags(t + n - 1));
    }
  }

  // HSEBYP, likewise.

  lemma EarlyBypass(b: Board, m: Machine, f: Flags)
    ensures var m' := Step(b, m, f);
            m.pc < RESET_BYPASS ==>
              && m'.clock.hsebyp == m.clock.hsebyp && m'.bypassKept == m.bypassKept
              && (m.pc == RESET_PLLCFGR ==> m'.clock.pllcfgr == PLLCFGR_RESET)
  {
    hide HseInUse, PackPll, NextPc;
  }

  lemma {:induction false} BypassAtReset(b: Board, c: Clock, flags: nat -> Flags, t: nat, n: nat)
    requires n <= RESET_BYPASS
    ensures var m := Run(b, Start(c), flags, t, n);
            && m.clock.hsebyp == c.hsebyp && !m.bypassKept
            && (n == RESET_BYPASS ==> m.clock.pllcfgr == PLLCFGR_RESET)
  {
    hide Step;
    if n > 0 {
      EarlyBypass(b, Run(b, Start(c), flags, t, n - 1), flags(t + n - 1));
      BypassAtReset(b, c, flags, t, n - 1);
      ResetStatements(b, c, flags, t, n - 1);
      RunOneMore(b, Start(c), flags, t, n - 1);
    }
  }

  lemma BypassKeptNow(b: Board, m: Machine, f: Flags)
    requires m.pc == RESET_BYPASS && !m.bypassKept && m.clock.pllcfgr == PLLCFGR_RESET
    ensures Step(b, m, f).bypassKept <==> m.clock.hsebyp && f.source == SW_HSE
  {
    hide Execute, Held;
    NoHseInReset();
  }

  lemma NoHseInReset()
    ensures PllSourceField(PLLCFGR_RESET) == 0
  {
  }

  lemma BypassNotAgain(b: Board, m: Machine, f: Flags)
    requires PathInv(b, m) && m.pc > RESET_BYPASS
    ensures Step(b, m, f).bypassKept == m.bypassKept && Step(b, m, f).pc > RESET_BYPASS
  {
    hide Execute, Held;
  }

  /** HSEBYP survives exactly where it was set before the boot and HSE is the clock in use
      when it is to be cleared. */
  lemma {:induction false} BypassIsKeptIff(b: Board, c: Clock, flags: nat -> Flags, t: nat, n: nat)
    requires n > RESET_BYPASS
    ensures Run(b, Start(c), flags, t, n).pc > RESET_BYPASS
    ensures Run(b, Start(c), flags, t, n).bypassKept <==> c.hsebyp && flags(t + RESET_BYPASS).source == SW_HSE
    decreases n
  {
    hide Step;
    RunOneMore(b, Start(c), flags, t, n - 1);
    if n == RESET_BYPASS + 1 {
      BypassAtReset(b, c, flags, t, RESET_BYPASS);
      ResetStatements(b, c, flags, t, RESET_BYPASS);
      ResetStatements(b, c, flags, t, RESET_CIR);
      BypassKeptNow(b, Run(b, Start(c), flags, t, RESET_BYPASS), flags(t + RESET_BYPASS));
    } else {
      BypassIsKeptIff(b, c, flags, t, n - 1);
      RunHasInv(b, c, flags, t, n - 1);
      BypassNotAgain(b, Run(b, Start(c), flags, t, n - 1), flags(t + n - 1));
    }
  }

  lemma KeptSince(b: Board, c: Clock, flags: nat -> Flags, t: nat, n: nat)
    requires Run(b, Start(c), flags, t, n).pc > RESET_CR
    ensures Run(b, Start(c), flags, t, n).pllKept <==> KeepsPll(c, flags, t)
  {
    if n <= RESET_CR {
      ResetStatements(b, c, flags, t, n);
      assert false;
    }
    PllIsKeptIff(b, c, flags, t, n);
  }

  /** Once CFGR has been cleared the requested clock is safe. Each of the two writes of
      PLLCFGR, the only ones that change it, comes while the PLL is off if and only if the
      PLL was off before the boot or is not the clock in use when RCC_CR is reset. From any
      register contents, for any flags, at every statement, whether or not the boot ever
      finishes. */
  lemma BootIsSafe(b: Board, c: Clock, flags: nat -> Flags, n: nat)
    ensures var m := Run(b, Start(c), flags, 0, n);
            var m' := Run(b, Start(c), flags, 0, n + 1);
            && (m.pc > RESET_CFGR ==> RequestIsSafe(b, m))
            && (m.pc == RESET_PLLCFGR || m.pc == CONFIGURE_PLL ==>
                  (!m.clock.pllon <==> !c.pllon || flags(RESET_CR).source != SW_PLL))
            && (m'.clock.pllcfgr != m.clock.pllcfgr ==> m.pc == RESET_PLLCFGR || m.pc == CONFIGURE_PLL)
  {
    hide Step, RequestIsSafe;
    if Run(b, Start(c), flags, 0, n).pc > RESET_CR {
      KeptSince(b, c, flags, 0, n);
    }
    BootKeepsInv(b, c, flags, n);
    InvIsSafe(b, Run(b, Start(c), flags, 0, n), flags(n));
    RunOneMore(b, Start(c), flags, 0, n);
  }

  // ---------- The clock the core actually runs from ----------

  /** The switch status shown j + 1 statements after t is the one before it, or the source
      requested at that moment. */
  ghost predicate FollowsAt(b: Board, m: Machine, flags: nat -> Flags, t: nat, j: nat) {
    || flags(t + j + 1).source == flags(t + j).source
    || flags(t + j + 1).source == Run(b, m, flags, t, j + 1).clock.sw
  }

  ghost predicate SwitchFollowsRequest(b: Board, m: Machine, flags: nat -> Flags, t: nat) {
    forall j: nat :: FollowsAt(b, m, flags, t, j)
  }

  lemma FollowsShift(b: Board, m: Machine, flags: nat -> Flags, t: nat, j: nat)
    requires FollowsAt(b, m, flags, t, j + 1)
    ensures FollowsAt(b, Step(b, m, flags(t)), flags, t + 1, j)
  {
    RunOneLess(b, m, flags, t, j + 2);
    assert t + 1 + j + 1 == t + (j + 1) + 1;
  }

  lemma FollowsLater(b: Board, m: Machine, m': Machine, flags: nat -> Flags, t: nat, t': nat)
    requires SwitchFollowsRequest(b, m, flags, t)
    requires m' == Step(b, m, flags(t)) && t' == t + 1
    ensures SwitchFollowsRequest(b, m', flags, t')
  {
    forall j: nat
      ensures FollowsAt(b, m', flags, t', j)
    {
      assert FollowsAt(b, m, flags, t, j + 1);
      FollowsShift(b, m, flags, t, j);
    }
  }

  lemma FollowsNow(b: Board, m: Machine, flags: nat -> Flags, t: nat)
    requires SwitchFollowsRequest(b, m, flags, t)
    ensures flags(t + 1).source == flags(t).source
         || flags(t + 1).source == Step(b, m, flags(t)).clock.sw
  {
    assert FollowsAt(b, m, flags, t, 0);
    RunOneLess(b, m, flags, t, 1);
  }

  /** A PLL that is reported as the clock has been requested, and configured first. */
  predicate SwitchIsSafe(b: Board, m: Machine, source: bv32) {
    && (m.clock.sw == SW_HSI || (m.clock.sw == SW_PLL && m.pc > RESET_CFGR))
    && (source == SW_HSI || (source == SW_PLL && m.clock.sw == SW_PLL))
  }

  lemma StepKeepsSwitchSafe(b: Board, m: Machine, f: Flags, source: bv32)
    requires PathInv(b, m) && SwitchIsSafe(b, m, f.source)
    requires source == f.source || source == Step(b, m, f).clock.sw
    ensures SwitchIsSafe(b, Step(b, m, f), source)
  {
  }

  lemma {:induction false} RunKeepsSwitchSafe(b: Board, m: Machine, flags: nat -> Flags, t: nat, k: nat)
    requires Inv(b, m) && SwitchIsSafe(b, m, flags(t).source) && SwitchFollowsRequest(b, m, flags, t)
    ensures SwitchIsSafe(b, Run(b, m, flags, t, k), flags(t + k).source)
    decreases k
  {
    hide Step, SwitchIsSafe, SwitchFollowsRequest;
    if k > 0 {
      StepKeepsInv(b, m, flags(t));
      FollowsNow(b, m, flags, t);
      FollowsLater(b, m, Step(b, m, flags(t)), flags, t, t + 1);
      StepKeepsSwitchSafe(b, m, flags(t), flags(t + 1).source);
      RunKeepsSwitchSafe(b, Step(b, m, flags(t)), flags, t + 1, k - 1);
      RunOneLess(b, m, flags, t, k);
    }
  }

  lemma NothingIsKept(b: Board, c: Clock, flags: nat -> Flags)
    requires c.sw == SW_HSI && flags(0).source == SW_HSI
    requires SwitchFollowsRequest(b, Start(c), flags, 0)
    ensures flags(RESET_CR).source == SW_HSI
  {
    hide Step, SwitchFollowsRequest;
    StartHasInv(b, c);
    RunKeepsSwitchSafe(b, Start(c), flags, 0, RESET_CR);
    ResetStatements(b, c, flags, 0, RESET_CR);
    RunHasInv(b, c, flags, 0, RESET_CR);
  }

  /** From reset, where HSI runs the core, the core is never clocked by a PLL that is not
      configured: whenever hardware reports the PLL as the clock, everything is in place, and
      PLLCFGR has been written only while the PLL was off. */
  lemma ActualClockIsSafe(b: Board, c: Clock, flags: nat -> Flags, n: nat)
    requires c.sw == SW_HSI && flags(0).source == SW_HSI
    requires SwitchFollowsRequest(b, Start(c), flags, 0)
    ensures flags(n).source == SW_HSI
         || (flags(n).source == SW_PLL && PllConfigured(b, Run(b, Start(c), flags, 0, n)))
    ensures !KeepsPll(c, flags, 0)
    ensures var m := Run(b, Start(c), flags, 0, n);
            m.pc == RESET_PLLCFGR || m.pc == CONFIGURE_PLL ==> !m.clock.pllon
  {
    hide Step, PllConfigured, SwitchFollowsRequest;
    NothingIsKept(b, c, flags);
    BootIsSafe(b, c, flags, n);
    StartHasInv(b, c);
    RunKeepsSwitchSafe(b, Start(c), flags, 0, n);
    BootKeepsInv(b, c, flags, n);
    InvIsSafe(b, Run(b, Start(c), flags, 0, n), flags(n));
  }

  lemma SourceFollows(b: Board, c: Clock, flags: nat -> Flags, t: nat, n: nat)
    requires SwitchFollowsRequest(b, Start(c), flags, t)
    ensures var m := Run(b, Start(c), flags, t, n);
            && Run(b, Start(c), flags, t, n + 1) == Step(b, m, flags(t + n))
            && (flags(t + n + 1).source == flags(t + n).source
                || flags(t + n + 1).source == Step(b, m, flags(t + n)).clock.sw)
  {
    assert FollowsAt(b, Start(c), flags, t, n);
    RunOneMore(b, Start(c), flags, t, n);
  }

  /** A PLL that is requested or in use is on. */
  predicate PllIsOn(m: Machine, source: bv32) {
    m.clock.sw == SW_PLL || source == SW_PLL ==> m.clock.pllon
  }

  lemma StepKeepsPllOn(b: Board, m: Machine, f: Flags, source: bv32)
    requires PathInv(b, m) && OscillatorInv(b, m) && PllIsOn(m, f.source)
    requires source == f.source || source == Step(b, m, f).clock.sw
    ensures PllIsOn(Step(b, m, f), source)
  {
    hide PackPll, HseInUse;
    StepKeepsPath(b, m, f);
    StepKeepsOscillators(b, m, f);
  }

  /** What the hardware promises is kept by the boot: from any registers in which a PLL that
      is requested or in use is on, the clock in use is never switched off. */
  lemma {:induction false} ClockInUseStaysOn(b: Board, c: Clock, flags: nat -> Flags, t: nat, n: nat)
    requires PllIsOn(Start(c), flags(t).source) && SwitchFollowsRequest(b, Start(c), flags, t)
    ensures PllIsOn(Run(b, Start(c), flags, t, n), flags(t + n).source)
  {
    hide Step, PllIsOn, SwitchFollowsRequest;
    if n > 0 {
      ClockInUseStaysOn(b, c, flags, t, n - 1);
      RunHasInv(b, c, flags, t, n - 1);
      SourceFollows(b, c, flags, t, n - 1);
      StepKeepsPllOn(b, Run(b, Start(c), flags, t, n - 1), flags(t + n - 1), flags(t + n).source);
    }
  }

  // ---------- Which way a boot goes ----------

  predicate OnPll(m: Machine) {
    POWER_ON <= m.pc <= AWAIT_SWITCH || (m.pc >= VECTOR_TABLE && m.clock.sw == SW_PLL)
  }

  predicate FellBack(m: Machine) {
    m.pc >= VECTOR_TABLE && m.clock.sw == SW_HSI
  }

  lemma BranchIsKept(b: Board, m: Machine, f: Flags)
    requires PathInv(b, m)
    ensures OnPll(m) ==> OnPll(Step(b, m, f))
    ensures FellBack(m) ==> FellBack(Step(b, m, f))
  {
  }

  lemma CheckDecides(b: Board, m: Machine, f: Flags)
    requires PathInv(b, m) && m.pc == CHECK_HSE
    ensures if f.hserdy then OnPll(Step(b, m, f)) else FellBack(Step(b, m, f))
  {
  }

  lemma BranchStays(b: Board, m: Machine, flags: nat -> Flags, t: nat, k: nat)
    requires PathInv(b, m) && (OnPll(m) || FellBack(m))
    ensures OnPll(m) ==> OnPll(Run(b, m, flags, t, k))
    ensures FellBack(m) ==> FellBack(Run(b, m, flags, t, k))
  {
    var up := OnPll(m);
    var inv := (x: Machine) => PathInv(b, x) && if up then OnPll(x) else FellBack(x);
    forall x: Machine, u: nat
      ensures inv(x) ==> inv(Stepper(b, flags)(x, u))
    {
      if inv(x) {
        StepKeepsPath(b, x, flags(u));
        BranchIsKept(b, x, flags(u));
      }
    }
    IterateKeeps(Stepper(b, flags), inv, m, t, k);
  }

  /** A boot ends on the PLL exactly when the read that follows the polling loop saw the
      oscillator ready. */
  lemma ReadAfterPollingDecides(b: Board, m: Machine, flags: nat -> Flags, t: nat, k: nat)
    requires Inv(b, m) && m.pc == CHECK_HSE && Run(b, m, flags, t, k).pc == DONE
    ensures Run(b, m, flags, t, k).clock.sw == if flags(t).hserdy then SW_PLL else SW_HSI
  {
    CheckDecides(b, m, flags(t));
    StepKeepsPath(b, m, flags(t));
    BranchStays(b, Step(b, m, flags(t)), flags, t + 1, k - 1);
    RunOneLess(b, m, flags, t, k);
  }

  /** A device that feeds its PLL from HSI has no fallback. */
  lemma WithoutHseThePllIsChosen(b: Board, c: Clock, flags: nat -> Flags, n: nat)
    requires !b.device.UsesHse() && Run(b, Start(c), flags, 0, n).pc == DONE
    ensures Run(b, Start(c), flags, 0, n).clock.sw == SW_PLL
  {
    BootKeepsInv(b, c, flags, n);
  }

  /** The clock configuration of a finished boot, field by field. */
  predicate Finished(b: Board, m: Machine) {
    && m.clock.vtor == FLASH_BASE && m.clock.cir == 0 && m.clock.hsion && !m.clock.csson
    && (m.clock.hseon <==> m.hseKept || b.device.UsesHse())
    && (m.clock.hsebyp <==> m.bypassKept || b.device.source == HseBypass)
    && m.clock.hpre == HPRE_DIV1
    && (m.clock.sw == SW_PLL ==> PllConfigured(b, m))
    && (m.clock.sw != SW_PLL ==>
          && m.clock.sw == SW_HSI && (m.clock.pllon <==> m.pllKept) && m.clock.pllcfgr == PLLCFGR_RESET
          && m.clock.ppre1 == 0 && m.clock.ppre2 == 0)
  }

  lemma FinalConfiguration(b: Board, c: Clock, flags: nat -> Flags, n: nat)
    requires Run(b, Start(c), flags, 0, n).pc == DONE
    ensures Finished(b, Run(b, Start(c), flags, 0, n))
  {
    BootKeepsInv(b, c, flags, n);
  }
}
