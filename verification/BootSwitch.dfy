/** Which way a boot goes, and which clock the core is left running from.

    The hardware is any that switches only to what was requested. Registers and switch
    status before the boot are arbitrary, so that a restart of a running system is covered.
 */
module BootSwitch {
  import opened Words
  import opened ClockTree
  import opened Boot
  import opened BootSafety
  import opened BootProgress
  import opened Iteration

  // ---------- When the ready flag is read after polling ----------

  /** Number of statements before CHECK_HSE. */
  ghost function CheckSteps(b: Board, flags: nat -> Flags, t: nat): nat {
    POLL_HSE + Polls(flags, t + POLL_HSE, PollsLeft(b.timeout, 0))
  }

  lemma HseIsReached(b: Board, c: Clock, flags: nat -> Flags, t: nat)
    requires b.device.UsesHse()
    ensures Run(b, Start(c), flags, t, HSE_ON).pc == HSE_ON
  {
    hide Execute;
    ResetStatements(b, c, flags, t, RESET_CIR);
    RunOneMore(b, Start(c), flags, t, RESET_CIR);
  }

  lemma CheckIsReached(b: Board, c: Clock, flags: nat -> Flags, t: nat)
    requires b.device.UsesHse()
    ensures Run(b, Start(c), flags, t, CheckSteps(b, flags, t)).pc == CHECK_HSE
  {
    hide Execute, NextPc, Polls, PollsLeft;
    var m := Run(b, Start(c), flags, t, HSE_ON);
    var polls := Polls(flags, t + POLL_HSE, PollsLeft(b.timeout, 0));
    HseIsReached(b, c, flags, t);
    PollBound(b, m, flags, t + HSE_ON);
    IterateAppend(Stepper(b, flags), Start(c), t, HSE_ON, 1 + polls);
  }

  /** The read after the polling loop shows HSE ready; without HSE there is nothing to
      wait for. */
  ghost predicate OscillatorSeen(b: Board, flags: nat -> Flags, t: nat) {
    b.device.UsesHse() ==> flags(t + CheckSteps(b, flags, t)).hserdy
  }

  lemma CheckComesFirst(b: Board, c: Clock, flags: nat -> Flags, t: nat, n: nat)
    requires b.device.UsesHse() && Run(b, Start(c), flags, t, n).pc == DONE
    ensures CheckSteps(b, flags, t) <= n
  {
    hide Step, CheckSteps;
    var k := CheckSteps(b, flags, t);
    CheckIsReached(b, c, flags, t);
    if n < k {
      IterateAppend(Stepper(b, flags), Start(c), t, n, k - n);
      DoneStays(b, Run(b, Start(c), flags, t, n), flags, t + n, k - n);
      assert false;
    }
  }

  /** That read, at a moment known beforehand, decides the clock requested by every boot
      that finishes. */
  lemma PathTaken(b: Board, c: Clock, flags: nat -> Flags, t: nat, n: nat)
    requires Run(b, Start(c), flags, t, n).pc == DONE
    ensures Run(b, Start(c), flags, t, n).clock.sw == if OscillatorSeen(b, flags, t) then SW_PLL else SW_HSI
  {
    hide Inv, Step, CheckSteps;
    RunHasInv(b, c, flags, t, n);
    if b.device.UsesHse() {
      var k := CheckSteps(b, flags, t);
      CheckIsReached(b, c, flags, t);
      CheckComesFirst(b, c, flags, t, n);
      RunHasInv(b, c, flags, t, k);
      IterateAppend(Stepper(b, flags), Start(c), t, k, n - k);
      ReadAfterPollingDecides(b, Run(b, Start(c), flags, t, k), flags, t + k, n - k);
    } else {
      NoFallback(b, Run(b, Start(c), flags, t, n));
    }
  }

  lemma NoFallback(b: Board, m: Machine)
    requires Inv(b, m) && m.pc == DONE && !b.device.UsesHse()
    ensures m.clock.sw == SW_PLL
  {
  }

  // ---------- The PLL path: the wait for the switch ----------

  predicate Acknowledged(m: Machine, source: bv32) {
    m.pc > AWAIT_SWITCH && m.clock.sw == SW_PLL ==> source == SW_PLL
  }

  lemma StepKeepsAcknowledged(b: Board, m: Machine, f: Flags, source: bv32)
    requires PathInv(b, m) && Acknowledged(m, f.source)
    requires source == f.source || source == Step(b, m, f).clock.sw
    ensures Acknowledged(Step(b, m, f), source)
  {
    hide Set, PackPll, HseInUse;
  }

  /** From any registers and any switch status: a boot past its last wait that requested
      the PLL runs from the PLL. */
  lemma {:induction false} PllIsAcknowledged(b: Board, c: Clock, flags: nat -> Flags, t: nat, n: nat)
    requires SwitchFollowsRequest(b, Start(c), flags, t)
    ensures Acknowledged(Run(b, Start(c), flags, t, n), flags(t + n).source)
  {
    hide Step, Acknowledged, SwitchFollowsRequest;
    if n > 0 {
      PllIsAcknowledged(b, c, flags, t, n - 1);
      RunHasInv(b, c, flags, t, n - 1);
      SourceFollows(b, c, flags, t, n - 1);
      StepKeepsAcknowledged(b, Run(b, Start(c), flags, t, n - 1), flags(t + n - 1), flags(t + n).source);
    } else {
      NotYet(c, flags(t).source);
    }
  }

  lemma NotYet(c: Clock, source: bv32)
    ensures Acknowledged(Start(c), source)
  {
  }

  // ---------- The fallback path: nothing waits ----------

  ghost predicate ShowsHsi(flags: nat -> Flags, t: nat) {
    flags(t).source == SW_HSI
  }

  /** HSI is shown as the clock at one of the accesses t to u. */
  ghost predicate HsiShown(flags: nat -> Flags, t: nat, u: nat) {
    exists j: nat :: t <= j <= u && ShowsHsi(flags, j)
  }

  /** The first access after CFGR has been cleared, in a boot that began at t. */
  function Cleared(t: nat): nat {
    t + RESET_CFGR + 1
  }

  lemma PllRequestStays(b: Board, m: Machine, f: Flags)
    requires PathInv(b, m) && m.pc > RESET_CFGR
    ensures Step(b, m, f).pc > RESET_CFGR
    ensures Step(b, m, f).clock.sw == SW_HSI ==> m.clock.sw == SW_HSI
  {
    hide Set, PackPll, HseInUse;
  }

  /** While HSI is requested the status can change only to HSI. */
  lemma {:induction false} StatusMovesToHsi(b: Board, c: Clock, flags: nat -> Flags, t: nat, n: nat)
    requires SwitchFollowsRequest(b, Start(c), flags, t)
    requires n >= RESET_CFGR + 1 && Run(b, Start(c), flags, t, n).clock.sw == SW_HSI
    ensures Run(b, Start(c), flags, t, n).pc > RESET_CFGR
    ensures flags(t + n).source ==
            if HsiShown(flags, Cleared(t), t + n) then SW_HSI else flags(Cleared(t)).source
    decreases n
  {
    hide SwitchFollowsRequest, Step;
    if n == RESET_CFGR + 1 {
      ResetStatements(b, c, flags, t, n);
      assert ShowsHsi(flags, t + n) <==> flags(t + n).source == SW_HSI;
    } else {
      RunHasInv(b, c, flags, t, n - 1);
      PastClear(b, c, flags, t, n - 1);
      SourceFollows(b, c, flags, t, n - 1);
      PllRequestStays(b, Run(b, Start(c), flags, t, n - 1), flags(t + n - 1));
      StatusMovesToHsi(b, c, flags, t, n - 1);
      assert ShowsHsi(flags, t + n) <==> flags(t + n).source == SW_HSI;
    }
  }

  lemma {:induction false} PastClear(b: Board, c: Clock, flags: nat -> Flags, t: nat, n: nat)
    requires n >= RESET_CFGR + 1
    ensures Run(b, Start(c), flags, t, n).pc > RESET_CFGR
    decreases n
  {
    hide Step;
    if n == RESET_CFGR + 1 {
      ResetStatements(b, c, flags, t, n);
    } else {
      PastClear(b, c, flags, t, n - 1);
      RunHasInv(b, c, flags, t, n - 1);
      PllRequestStays(b, Run(b, Start(c), flags, t, n - 1), flags(t + n - 1));
      RunOneMore(b, Start(c), flags, t, n - 1);
    }
  }

  /** The status at the end of a boot that fell back: HSI if and only if it was shown at
      some access after CFGR had been cleared, otherwise still what it was then. */
  lemma FallbackStatus(b: Board, c: Clock, flags: nat -> Flags, t: nat, n: nat)
    requires SwitchFollowsRequest(b, Start(c), flags, t)
    requires Run(b, Start(c), flags, t, n).pc == DONE && !OscillatorSeen(b, flags, t)
    ensures n >= RESET_CFGR + 1
    ensures flags(t + n).source ==
            if HsiShown(flags, Cleared(t), t + n) then SW_HSI else flags(Cleared(t)).source
  {
    hide SwitchFollowsRequest, HsiShown, OscillatorSeen;
    PathTaken(b, c, flags, t, n);
    if n <= RESET_CFGR {
      ResetStatements(b, c, flags, t, n);
      assert false;
    }
    StatusMovesToHsi(b, c, flags, t, n);
  }

  /** From reset, where HSI runs the core, the core ends on the clock requested. */
  lemma FromResetTheSwitchIsMade(b: Board, c: Clock, flags: nat -> Flags, t: nat, n: nat)
    requires c.sw == SW_HSI && flags(t).source == SW_HSI
    requires SwitchFollowsRequest(b, Start(c), flags, t)
    requires Run(b, Start(c), flags, t, n).pc == DONE
    ensures flags(t + n).source == Run(b, Start(c), flags, t, n).clock.sw
  {
    hide SwitchFollowsRequest, Step, Inv;
    StartHasInv(b, c);
    RunKeepsSwitchSafe(b, Start(c), flags, t, n);
    PllIsAcknowledged(b, c, flags, t, n);
  }

  // ---------- Boots that finish ----------

  /** A boot that does not see the oscillator finishes on every hardware, two statements
      after it has looked. */
  lemma FallbackFinishes(b: Board, c: Clock, flags: nat -> Flags, t: nat)
    requires !OscillatorSeen(b, flags, t)
    ensures Run(b, Start(c), flags, t, CheckSteps(b, flags, t) + 2).pc == DONE
  {
    hide CheckSteps, Execute, Held;
    var k := CheckSteps(b, flags, t);
    CheckIsReached(b, c, flags, t);
    RunOneMore(b, Start(c), flags, t, k);
    RunOneMore(b, Start(c), flags, t, k + 1);
  }

  ghost predicate Again(shown: Flags -> bool, flags: nat -> Flags, t: nat) {
    exists u: nat :: u >= t && shown(flags(u))
  }

  /** The hardware shows it again and again. */
  ghost predicate Recurs(shown: Flags -> bool, flags: nat -> Flags) {
    forall t: nat :: Again(shown, flags, t)
  }

  /** The flags that the code for a device waits for, in the hardware's own terms. */
  ghost predicate FlagsRecur(d: Device, flags: nat -> Flags) {
    && Recurs((f: Flags) => f.pllrdy, flags)
    && (d.overdrive ==> Recurs((f: Flags) => f.odrdy, flags) && Recurs((f: Flags) => f.odswrdy, flags))
    && Recurs((f: Flags) => f.source == SW_PLL, flags)
  }

  lemma RecurringIsAnswered(b: Board, m: Machine, flags: nat -> Flags, t: nat) returns (u: nat)
    requires PathInv(b, m) && Waits(m.pc) && FlagsRecur(b.device, flags)
    ensures u >= t && Grants(m.pc, flags(u))
  {
    if m.pc == AWAIT_PLL {
      assert Again((f: Flags) => f.pllrdy, flags, t);
      u :| u >= t && flags(u).pllrdy;
    } else if m.pc == AWAIT_OVERDRIVE {
      assert Again((f: Flags) => f.odrdy, flags, t);
      u :| u >= t && flags(u).odrdy;
    } else if m.pc == AWAIT_OVERDRIVE_SWITCH {
      assert Again((f: Flags) => f.odswrdy, flags, t);
      u :| u >= t && flags(u).odswrdy;
    } else {
      assert Again((f: Flags) => f.source == SW_PLL, flags, t);
      u :| u >= t && flags(u).source == SW_PLL;
    }
  }

  /** From any registers, a boot finishes if it does not see the oscillator, or if each flag
      that its code waits for is shown again and again. */
  lemma RecurringFlagsFinish(b: Board, c: Clock, flags: nat -> Flags, t: nat) returns (n: nat)
    requires !OscillatorSeen(b, flags, t) || FlagsRecur(b.device, flags)
    ensures Run(b, Start(c), flags, t, n).pc == DONE
  {
    hide CheckSteps, Step, Inv, FlagsRecur, Grants;
    if !OscillatorSeen(b, flags, t) {
      n := CheckSteps(b, flags, t) + 2;
      FallbackFinishes(b, c, flags, t);
    } else {
      forall k: nat
        ensures Answered(b, Start(c), flags, t, k)
      {
        var m := Run(b, Start(c), flags, t, k);
        if Waits(m.pc) {
          RunHasPath(b, c, flags, t, k);
          var u := RecurringIsAnswered(b, m, flags, t + k);
        }
      }
      RunHasPath(b, c, flags, t, 0);
      n := FairBootFinishes(b, Start(c), flags, t);
    }
  }

  lemma RunHasPath(b: Board, c: Clock, flags: nat -> Flags, t: nat, n: nat)
    ensures PathInv(b, Run(b, Start(c), flags, t, n))
  {
    RunHasInv(b, c, flags, t, n);
  }

  // ---------- Hardware that keeps its old clock ----------

  /** HSE never becomes ready; the clock in use is `first` at access 0 and `later` from then
      on. */
  function Unready(first: bv32, later: bv32): nat -> Flags {
    (t: nat) => Flags(false, false, false, false, if t == 0 then first else later)
  }

  /** A boot of this hardware that fell back, and its end. */
  ghost predicate FellBackAt(b: Board, c: Clock, flags: nat -> Flags, n: nat) {
    && SwitchFollowsRequest(b, Start(c), flags, 0)
    && Run(b, Start(c), flags, 0, n).pc == DONE && !OscillatorSeen(b, flags, 0)
  }

  /** Such hardware obeys the rule of the switch if it keeps its clock or switches at once to
      what was requested before the boot; and the boot falls back and finishes. */
  lemma UnreadyFallsBack(b: Board, c: Clock, first: bv32, later: bv32) returns (n: nat)
    requires b.device.UsesHse() && (later == first || later == c.sw)
    ensures FellBackAt(b, c, Unready(first, later), n)
    ensures n > RESET_CR && Unready(first, later)(n).source == later
  {
    hide CheckSteps, Step;
    var flags := Unready(first, later);
    FirstRequest(b, c, flags);
    forall j: nat
      ensures FollowsAt(b, Start(c), flags, 0, j)
    {
    }
    n := CheckSteps(b, flags, 0) + 2;
    FallbackFinishes(b, c, flags, 0);
    if n <= RESET_CR {
      ResetStatements(b, c, flags, 0, n);
      assert false;
    }
  }

  lemma FirstRequest(b: Board, c: Clock, flags: nat -> Flags)
    ensures Run(b, Start(c), flags, 0, 1).clock.sw == c.sw
  {
    hide HseInUse, PackPll, Set;
    RunOneMore(b, Start(c), flags, 0, 0);
  }

  /** Whatever the hardware does, the fallback leaves the core on HSI: true if and only if
      the status already shows HSI at the first access after CFGR has been cleared. */
  lemma FallbackReachesHsiIff(b: Board, c: Clock, source: bv32)
    requires b.device.UsesHse()
    ensures (forall flags: nat -> Flags, n: nat ::
               FellBackAt(b, c, flags, n) && flags(Cleared(0)).source == source ==> flags(n).source == SW_HSI)
       <==> source == SW_HSI
  {
    hide SwitchFollowsRequest, OscillatorSeen;
    if source == SW_HSI {
      forall flags: nat -> Flags, n: nat | FellBackAt(b, c, flags, n) && flags(Cleared(0)).source == source
        ensures flags(n).source == SW_HSI
      {
        FallbackStatus(b, c, flags, 0, n);
      }
    } else {
      var n := UnreadyFallsBack(b, c, source, source);
      assert FellBackAt(b, c, Unready(source, source), n);
    }
  }

  /** In terms of the state before the boot: the fallback leaves the core on HSI, whatever
      the hardware does, if and only if HSI is in use and requested when the boot begins. */
  lemma FallbackIsSafeIff(b: Board, c: Clock, source: bv32)
    requires b.device.UsesHse()
    ensures (forall flags: nat -> Flags, n: nat ::
               FellBackAt(b, c, flags, n) && flags(0).source == source ==> flags(n).source == SW_HSI)
       <==> source == SW_HSI && c.sw == SW_HSI
  {
    hide SwitchFollowsRequest, OscillatorSeen, Step;
    if source == SW_HSI && c.sw == SW_HSI {
      forall flags: nat -> Flags, n: nat | FellBackAt(b, c, flags, n) && flags(0).source == source
        ensures flags(n).source == SW_HSI
      {
        PathTaken(b, c, flags, 0, n);
        FromResetTheSwitchIsMade(b, c, flags, 0, n);
      }
    } else if source != SW_HSI {
      var n := UnreadyFallsBack(b, c, source, source);
      assert FellBackAt(b, c, Unready(source, source), n) && Unready(source, source)(0).source == source;
    } else {
      var n := UnreadyFallsBack(b, c, source, c.sw);
      assert FellBackAt(b, c, Unready(source, c.sw), n) && Unready(source, c.sw)(0).source == source;
    }
  }
}
