/** The timer-tick divider of the uC/OS-II port: OSInitHookBegin and OSTimeTickHook of
    UCOSII/PORT/os_cpu_c.c.
 */
module TickHook {
  import opened Words
  import opened SysTick

  /** INT16U */
  const TWO_16: nat := 0x1_0000

  /** OSTmrCtr after one tick, before the comparison. */
  function Incremented(ctr: nat): nat {
    (ctr + 1) % TWO_16
  }

  predicate Signals(period: nat, ctr: nat) {
    Incremented(ctr) >= period
  }

  function NextCounter(period: nat, ctr: nat): nat {
    if Signals(period, ctr) then 0 else Incremented(ctr)
  }

  /** Counter and number of OSTmrSignal calls after OSInitHookBegin and n ticks. */
  ghost function CounterAfter(period: nat, n: nat): nat {
    if n == 0 then 0 else NextCounter(period, CounterAfter(period, n - 1))
  }

  ghost function SignalsAfter(period: nat, n: nat): nat {
    if n == 0 then 0
    else SignalsAfter(period, n - 1) + (if Signals(period, CounterAfter(period, n - 1)) then 1 else 0)
  }

  lemma OneTick(period: nat, ctr: nat)
    requires ctr < period < TWO_16
    ensures Signals(period, ctr) <==> ctr == period - 1
    ensures NextCounter(period, ctr) == if ctr == period - 1 then 0 else ctr + 1
  {
  }

  lemma {:induction false} DividerInRange(period: nat, n: nat)
    requires 1 <= period < TWO_16
    ensures CounterAfter(period, n) == n % period && SignalsAfter(period, n) == n / period
  {
    hide NextCounter, Signals;
    if n == 0 {
      SmallMod(0, period);
    } else {
      DividerInRange(period, n - 1);
      OneTick(period, CounterAfter(period, n - 1));
      StepQuotient(n - 1, period);
    }
  }

  lemma OneTickOutOfRange(period: nat, ctr: nat)
    requires ctr < TWO_16 && (period == 0 || period >= TWO_16)
    ensures Signals(period, ctr) <==> period == 0
    ensures NextCounter(period, ctr) == if period == 0 || ctr == TWO_16 - 1 then 0 else ctr + 1
  {
  }

  lemma {:induction false} DividerOutOfRange(period: nat, n: nat)
    requires period == 0 || period >= TWO_16
    ensures period == 0 ==> CounterAfter(period, n) == 0 && SignalsAfter(period, n) == n
    ensures period >= TWO_16 ==> CounterAfter(period, n) == n % TWO_16 && SignalsAfter(period, n) == 0
  {
    hide NextCounter, Signals;
    if n == 0 {
      SmallMod(0, TWO_16);
    } else {
      DividerOutOfRange(period, n - 1);
      OneTickOutOfRange(period, CounterAfter(period, n - 1));
      StepQuotient(n - 1, TWO_16);
    }
  }

  /** Over every number of ticks and for every period: the divider divides when the
      period fits the 16-bit counter, signals at every tick for period 0, and never
      signals for a larger period because the counter wraps first. */
  lemma DividerState(period: nat, n: nat)
    ensures 1 <= period < 65536 ==>
              CounterAfter(period, n) == n % period && SignalsAfter(period, n) == n / period
    ensures period == 0 ==> CounterAfter(period, n) == 0 && SignalsAfter(period, n) == n
    ensures period >= 65536 ==> CounterAfter(period, n) == n % 65536 && SignalsAfter(period, n) == 0
  {
    if 1 <= period < 65536 {
      DividerInRange(period, n);
    } else {
      DividerOutOfRange(period, n);
    }
  }

  /** The divider is exact over all runs if and only if the period is in 1..65535. */
  lemma DividerIsExactIff(period: nat)
    requires period >= 1
    ensures (forall n: nat :: SignalsAfter(period, n) == n / period) <==> period < 65536
  {
    forall n: nat
      ensures period < 65536 ==> SignalsAfter(period, n) == n / period
    {
      DividerState(period, n);
    }
    DividerState(period, period);
    DivModUnique(1, period, 0);
  }

  /** Any k * period consecutive ticks hold exactly k signals, wherever they start. */
  lemma WindowHoldsExactly(period: nat, start: nat, k: nat)
    requires 1 <= period < 65536
    ensures SignalsAfter(period, start + k * period) == SignalsAfter(period, start) + k
  {
    DividerState(period, start);
    DividerState(period, start + k * period);
    ShiftedQuotient(start, k, period);
  }

  /** From the clock to the timer task: after n clocks of a timer configured for `ticks`,
      each interrupt running the tick hook once, the hook has signalled
      n / (ticks * period) times. */
  lemma ClockToTimerSignals(ticks: u32, period: nat, n: nat)
    requires 2 <= ticks && !Rejected(ticks) && 1 <= period < 65536
    ensures ticks * period > 0
    ensures SignalsAfter(period, Interrupts(Configured(ticks), n)) == n / (ticks * period)
  {
    InterruptCount(ticks, n);
    DividerState(period, n / ticks);
    DivModProduct(n, ticks, period);
  }

  /** Signals in k seconds after OSInitHookBegin. */
  ghost function SignalsIn(ticksPerSec: nat, timerTicksPerSec: nat, k: nat): nat
    requires timerTicksPerSec > 0
  {
    SignalsAfter(ticksPerSec / timerTicksPerSec, k * ticksPerSec)
  }

  lemma Rearranged(k: nat, d: nat, m: nat, r: nat)
    requires r == 0 || k == d
    ensures k * (d * m + r) == (k * m + r) * d
  {
    assert k * (d * m + r) == k * (d * m) + k * r;
    assert k * (d * m) == (k * m) * d;
    assert k * r == r * d;
  }

  lemma SecondsQuotient(ticks: nat, timerTicks: nat, d: nat, r: nat, k: nat)
    requires d > 0 && ticks == d * timerTicks + r && (r == 0 || k == d)
    ensures (k * ticks) / d == k * timerTicks + r
  {
    Rearranged(k, d, timerTicks, r);
    DivModUnique(k * timerTicks + r, d, 0);
  }

  lemma SignalsInSeconds(ticks: nat, timerTicks: nat, d: nat, r: nat, k: nat)
    requires 1 <= d < 65536 && ticks == d * timerTicks + r && (r == 0 || k == d)
    ensures SignalsAfter(d, k * ticks) == k * timerTicks + r
  {
    hide SignalsAfter, CounterAfter;
    SecondsQuotient(ticks, timerTicks, d, r, k);
    InRange(d, k * ticks);
  }

  lemma InRange(d: nat, n: nat)
    requires 1 <= d < 65536
    ensures SignalsAfter(d, n) == n / d
  {
    DividerState(d, n);
  }

  lemma QuotientAndRest(x: nat, m: nat)
    requires m > 0
    ensures x == (x / m) * m + x % m
  {
  }

  /** k seconds hold k * timerTicksPerSec signals: true for all k if and only if the tick
      rate is a multiple of the timer's. */
  lemma SecondsAreExactIff(ticksPerSec: nat, timerTicksPerSec: nat)
    requires timerTicksPerSec > 0 && 1 <= ticksPerSec / timerTicksPerSec < 65536
    ensures (forall k: nat :: SignalsIn(ticksPerSec, timerTicksPerSec, k) == k * timerTicksPerSec)
       <==> ticksPerSec % timerTicksPerSec == 0
  {
    hide SignalsAfter;
    var d, r := ticksPerSec / timerTicksPerSec, ticksPerSec % timerTicksPerSec;
    QuotientAndRest(ticksPerSec, timerTicksPerSec);
    if r == 0 {
      forall k: nat
        ensures SignalsIn(ticksPerSec, timerTicksPerSec, k) == k * timerTicksPerSec
      {
        SignalsInSeconds(ticksPerSec, timerTicksPerSec, d, 0, k);
      }
    } else {
      SignalsInSeconds(ticksPerSec, timerTicksPerSec, d, r, d);
      assert SignalsIn(ticksPerSec, timerTicksPerSec, d) == d * timerTicksPerSec + r;
    }
  }

  class TimerDivider {
    const ticksPerSec: nat
    const timerTicksPerSec: nat
    var OSTmrCtr: nat
    /** Number of OSTmrSignal calls since initialisation. */
    var signalled: nat
    /** Number of ticks since initialisation. */
    ghost var ticks: nat

    ghost predicate Valid()
      reads this
    {
      && timerTicksPerSec > 0
      && OSTmrCtr == CounterAfter(ticksPerSec / timerTicksPerSec, ticks)
      && signalled == SignalsAfter(ticksPerSec / timerTicksPerSec, ticks)
    }

    constructor (ticksPerSec: nat, timerTicksPerSec: nat)
      requires timerTicksPerSec > 0
      ensures Valid() && ticks == 0
      ensures this.ticksPerSec == ticksPerSec && this.timerTicksPerSec == timerTicksPerSec
    {
      this.ticksPerSec, this.timerTicksPerSec := ticksPerSec, timerTicksPerSec;
      OSTmrCtr, signalled, ticks := 0, 0, 0;
    }

    method OSInitHookBegin()
      requires timerTicksPerSec > 0
      modifies this
      ensures Valid() && ticks == 0 && signalled == 0 && OSTmrCtr == 0
    {
      OSTmrCtr := 0;
      signalled, ticks := 0, 0;
    }

    /** One tick. After any number of them since OSInitHookBegin the counter and the signals
        are remainder and quotient of that number, and in whole seconds the signals come at
        the timer's rate. */
    method OSTimeTickHook()
      requires Valid()
      modifies this
      ensures Valid() && ticks == old(ticks) + 1
      ensures 1 <= ticksPerSec / timerTicksPerSec < 65536 ==>
                && OSTmrCtr == ticks % (ticksPerSec / timerTicksPerSec)
                && signalled == ticks / (ticksPerSec / timerTicksPerSec)
      ensures 1 <= ticksPerSec / timerTicksPerSec < 65536 && ticksPerSec % timerTicksPerSec == 0 ==>
                forall k: nat :: ticks == k * ticksPerSec ==> signalled == k * timerTicksPerSec
    {
      OSTmrCtr := (OSTmrCtr + 1) % TWO_16;
      if OSTmrCtr >= ticksPerSec / timerTicksPerSec {
        OSTmrCtr := 0;
        signalled := signalled + 1;
      }
      ticks := ticks + 1;
      DividerState(ticksPerSec / timerTicksPerSec, ticks);
      WholeSeconds();
    }

    /** k * ticksPerSec ticks have signalled k * timerTicksPerSec times. */
    lemma WholeSeconds()
      requires Valid()
      ensures 1 <= ticksPerSec / timerTicksPerSec < 65536 && ticksPerSec % timerTicksPerSec == 0 ==>
                forall k: nat :: ticks == k * ticksPerSec ==> signalled == k * timerTicksPerSec
    {
      if 1 <= ticksPerSec / timerTicksPerSec < 65536 && ticksPerSec % timerTicksPerSec == 0 {
        SecondsAreExactIff(ticksPerSec, timerTicksPerSec);
        forall k: nat | ticks == k * ticksPerSec
          ensures signalled == k * timerTicksPerSec
        {
          assert SignalsIn(ticksPerSec, timerTicksPerSec, k) == k * timerTicksPerSec;
        }
      }
    }
  }
}
