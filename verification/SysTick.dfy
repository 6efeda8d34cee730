/** SysTick_Config of CORE/core_cm4.h, and the reload down-counter it programs
    (ARMv7-M Architecture Reference Manual, section B3.3).
 */
module SysTick {
  import opened Words
  import opened PriorityCodec
  import opened Nvic

  const RELOAD_MSK: u32 := 0xFF_FFFF
  const CLKSOURCE_MSK: u32 := 4
  const TICKINT_MSK: u32 := 2
  const ENABLE_MSK: u32 := 1
  const SYSTICK_IRQ: int := -1

  datatype Timer = Timer(ctrl: u32, load: u32, val: u32)

  /** ticks - 1 as an unsigned word */
  function ReloadOf(ticks: u32): u32 {
    (ticks + TWO_32 - 1) % TWO_32
  }

  predicate Rejected(ticks: u32) {
    ReloadOf(ticks) > RELOAD_MSK
  }

  /** The range that is accepted; zero is rejected through the unsigned wrap. */
  lemma AcceptedRange(ticks: u32)
    ensures !Rejected(ticks) <==> 1 <= ticks <= 0x100_0000
    ensures !Rejected(ticks) ==> ReloadOf(ticks) == ticks - 1
  {
  }

  /** An enabled timer with the given reload value, whose VAL has just been written: any
      write to VAL clears it. */
  function Started(load: u32): Timer {
    Timer(CLKSOURCE_MSK + TICKINT_MSK + ENABLE_MSK, load, 0)
  }

  /** Bits of 7: processor clock, interrupt and counter on. */
  lemma StartedBits(load: u32)
    ensures forall k: nat :: Bit(Started(load).ctrl, k) <==> k < 3
  {
    forall k: nat
      ensures Bit(7, k) <==> k < 3
    {
      BitsOfSeven(k);
    }
  }

  lemma BitsOfSeven(k: nat)
    ensures Bit(7, k) <==> k < 3
  {
    if k >= 3 {
      BitOfZero(k - 3);
      assert Bit(7, k) == Bit(3, k - 1) == Bit(1, k - 2) == Bit(0, k - 3);
    } else if k == 2 {
      assert Bit(7, 2) == Bit(3, 1) == Bit(1, 0);
    } else if k == 1 {
      assert Bit(7, 1) == Bit(3, 0);
    }
  }

  function Configured(ticks: u32): Timer
    requires !Rejected(ticks)
  {
    Started(ReloadOf(ticks))
  }

  // ---------- Priority of the tick ----------

  function LowestPriority(bits: PrioBits): (p: u32)
    ensures p + 1 == Pow2(bits)
  {
    Pow2Monotone(bits, 8);
    Pow2UpTo8();
    Pow2(bits) - 1
  }

  /** The byte of exception number -1 after SysTick_Config is at least every other
      implemented byte. */
  lemma TickByteIsLargest(bits: PrioBits, r: Regs, irq: int)
    requires |r.ip| == 240 && |r.shp| == 12 && (External(irq) || System(irq))
    requires irq != -1 ==> Implemented(bits, RawPriority(r, irq))
    ensures var r' := SetPriority(bits, r, SYSTICK_IRQ, LowestPriority(bits));
            RawPriority(r', irq) <= RawPriority(r', -1)
  {
    hide Shr, And, StoredByte, SystemSlot;
    SlotOfSystem(SYSTICK_IRQ);
    StoredEncoding(bits, LowestPriority(bits));
    if irq != -1 {
      if irq < 0 {
        SlotOfSystem(irq);
      }
      ImplementedIsStored(bits, RawPriority(r, irq));
      ScaledBound(ReadByte(bits, RawPriority(r, irq)), Pow2(bits) - 1, Pow2(8 - bits));
    }
  }

  /** No stored priority is numerically above the one given to SysTick, which is exception
      number -1 (15 for the processor), so that under every grouping the tick preempts
      nothing. */
  lemma TickPriorityIsLowest(bits: PrioBits, r: Regs, irq: int, group: u32)
    requires |r.ip| == 240 && |r.shp| == 12 && (External(irq) || System(irq))
    requires irq != -1 ==> Implemented(bits, RawPriority(r, irq))
    ensures var r' := SetPriority(bits, r, SYSTICK_IRQ, LowestPriority(bits));
            && RawPriority(r', irq) <= RawPriority(r', -1)
            && !(GroupPriority(RawPriority(r', -1), group) < GroupPriority(RawPriority(r', irq), group))
  {
    hide SetPriority, RawPriority, Shr, And;
    var r' := SetPriority(bits, r, SYSTICK_IRQ, LowestPriority(bits));
    var top := RawPriority(r', -1);
    TickByteIsLargest(bits, r, irq);
    SplitKeepsOrder(GroupOf(group) + 1, RawPriority(r', irq), top);
    SplitKeepsOrder(GroupOf(group) + 1, top, RawPriority(r', irq));
  }

  lemma ScaledBound(x: nat, y: nat, m: nat)
    requires x <= y
    ensures x * m <= y * m
  {
  }

  // ---------- The counter ----------

  /** Bit 0 of CTRL: the counter counts. */
  predicate Counts(t: Timer) {
    Bit(t.ctrl, 0)
  }

  /** Bit 1 of CTRL as well: reaching zero raises the interrupt. */
  predicate Running(t: Timer) {
    Counts(t) && Bit(t.ctrl, 1)
  }

  /** One clock: an enabled counter reloads from zero and otherwise counts down. */
  function Clock(t: Timer): Timer {
    if !Counts(t) then t
    else if t.val == 0 then t.(val := t.load) else t.(val := t.val - 1)
  }

  /** One clock raises the interrupt: a counter that may do so goes from 1 to 0. */
  predicate Fires(t: Timer) {
    Running(t) && t.val == 1
  }

  ghost function After(t: Timer, n: nat): Timer {
    if n == 0 then t else Clock(After(t, n - 1))
  }

  /** Clock number n (counted from 1) raises the interrupt. */
  ghost predicate FiresAt(t: Timer, n: nat)
    requires n >= 1
  {
    Fires(After(t, n - 1))
  }

  ghost function Interrupts(t: Timer, n: nat): nat {
    if n == 0 then 0 else Interrupts(t, n - 1) + (if FiresAt(t, n) then 1 else 0)
  }

  lemma StepQuotient(n: nat, t: nat)
    requires t > 0
    ensures (n + 1) % t == if n % t == t - 1 then 0 else n % t + 1
    ensures (n + 1) / t == if n % t == t - 1 then n / t + 1 else n / t
  {
    StepQuotientOf(n, t, n / t, n % t);
  }

  lemma StepQuotientOf(n: nat, t: nat, q: nat, m: nat)
    requires n == q * t + m && m < t
    ensures m == t - 1 ==> (n + 1) / t == q + 1 && (n + 1) % t == 0
    ensures m < t - 1 ==> (n + 1) / t == q && (n + 1) % t == m + 1
  {
    if m == t - 1 {
      assert n + 1 == (q + 1) * t + 0;
      DivModUnique(q + 1, t, 0);
    } else {
      DivModUnique(q, t, m + 1);
    }
  }

  /** From a counter at zero, its value is the distance to the next multiple of load + 1. */
  lemma {:induction false} CounterValue(t: Timer, n: nat)
    requires t.val == 0 && Counts(t)
    ensures After(t, n) == t.(val := if n % (t.load + 1) == 0 then 0 else t.load + 1 - n % (t.load + 1))
  {
    if n == 0 {
      SmallMod(0, t.load + 1);
    } else {
      CounterValue(t, n - 1);
      StepQuotient(n - 1, t.load + 1);
    }
  }

  lemma FiresAtMultiples(t: Timer, n: nat)
    requires t.val == 0 && Counts(t) && n >= 1
    ensures FiresAt(t, n) <==> Running(t) && t.load >= 1 && n % (t.load + 1) == 0
  {
    CounterValue(t, n - 1);
    StepQuotient(n - 1, t.load + 1);
  }

  lemma {:induction false} CountOfInterrupts(t: Timer, n: nat)
    requires t.val == 0 && Running(t)
    ensures Interrupts(t, n) == if t.load >= 1 then n / (t.load + 1) else 0
  {
    if n > 0 {
      CountOfInterrupts(t, n - 1);
      FiresAtMultiples(t, n);
      StepQuotient(n - 1, t.load + 1);
    }
  }

  lemma {:induction false} KeepsControl(t: Timer, n: nat)
    ensures After(t, n).ctrl == t.ctrl
  {
    if n > 0 {
      KeepsControl(t, n - 1);
    }
  }

  /** Without both bits no interrupt ever comes, whatever the counter holds. */
  lemma {:induction false} SilentUnlessRunning(t: Timer, n: nat)
    requires !Running(t)
    ensures Interrupts(t, n) == 0
  {
    if n > 0 {
      SilentUnlessRunning(t, n - 1);
      KeepsControl(t, n - 1);
    }
  }

  /** After SysTick_Config(ticks) an interrupt comes at clock n exactly when n is a
      multiple of ticks, so consecutive interrupts are ticks clocks apart; a period of 1
      never interrupts. */
  lemma FiresExactlyAtMultiples(ticks: u32, n: nat)
    requires !Rejected(ticks) && n >= 1
    ensures FiresAt(Configured(ticks), n) <==> ticks >= 2 && n % ticks == 0
  {
    AcceptedRange(ticks);
    StartedBits(ticks - 1);
    FiresAtMultiples(Started(ticks - 1), n);
  }

  lemma InterruptCount(ticks: u32, n: nat)
    requires !Rejected(ticks)
    ensures Interrupts(Configured(ticks), n) == if ticks >= 2 then n / ticks else 0
  {
    AcceptedRange(ticks);
    StartedBits(ticks - 1);
    CountOfInterrupts(Started(ticks - 1), n);
  }

  // ---------- delay_init ----------

  /** delay_init selects the divided clock, sets TICKINT and ENABLE, and loads the period
      itself; it leaves VAL as it is. */
  function DelayInit(t: Timer, reload: u32): Timer {
    Pow2At32();
    OrFits(AndNot(t.ctrl, CLKSOURCE_MSK), TICKINT_MSK, 32);
    OrFits(Or(AndNot(t.ctrl, CLKSOURCE_MSK), TICKINT_MSK), ENABLE_MSK, 32);
    t.(ctrl := Or(Or(AndNot(t.ctrl, CLKSOURCE_MSK), TICKINT_MSK), ENABLE_MSK), load := reload)
  }

  lemma MaskBits(k: nat)
    ensures (Bit(1, k) <==> k == 0) && (Bit(2, k) <==> k == 1) && (Bit(4, k) <==> k == 2)
  {
    Pow2UpTo8();
    BitOfPow2(0, k);
    BitOfPow2(1, k);
    BitOfPow2(2, k);
  }

  /** Bit 2 is cleared, bits 0 and 1 are set, the others stay. */
  lemma DelayInitBits(t: Timer, reload: u32, k: nat)
    ensures Bit(DelayInit(t, reload).ctrl, k) <==> k == 0 || k == 1 || (k != 2 && Bit(t.ctrl, k))
  {
    var x := AndNot(t.ctrl, CLKSOURCE_MSK);
    MaskBits(k);
    BitOfAndNot(t.ctrl, CLKSOURCE_MSK, k);
    BitOfOr(x, TICKINT_MSK, k);
    BitOfOr(Or(x, TICKINT_MSK), ENABLE_MSK, k);
  }

  /** The counter runs down first, with one interrupt when it reaches zero. */
  lemma {:induction false} RunsDown(t: Timer, n: nat)
    requires n <= t.val && Running(t)
    ensures After(t, n) == t.(val := t.val - n)
    ensures Interrupts(t, n) == if n == t.val && n >= 1 then 1 else 0
  {
    if n > 0 {
      RunsDown(t, n - 1);
    }
  }

  lemma {:induction false} Resume(t: Timer, j: nat, n: nat)
    ensures After(t, j + n) == After(After(t, j), n)
    ensures Interrupts(t, j + n) == Interrupts(t, j) + Interrupts(After(t, j), n)
    decreases n
  {
    if n > 0 {
      Resume(t, j, n - 1);
      assert j + n - 1 == j + (n - 1);
    }
  }

  /** Whatever the counter held before delay_init, an interrupt comes when it has run down
      and then every reload + 1 clocks, where every reload was meant: reload + 1 intended
      intervals hold one interrupt less than that. */
  lemma DelayInitRunsSlow(t: Timer, reload: u32, n: nat)
    requires 1 <= reload < 0x100_0000
    ensures var first := if t.val >= 1 then 1 else 0;
            && Interrupts(DelayInit(t, reload), t.val + n) == first + n / (reload + 1)
            && Interrupts(DelayInit(t, reload), t.val + (reload + 1) * reload) == first + reload
  {
    var d := DelayInit(t, reload);
    DelayInitBits(t, reload, 0);
    DelayInitBits(t, reload, 1);
    RunsDown(d, t.val);
    Resume(d, t.val, n);
    CountOfInterrupts(After(d, t.val), n);
    Resume(d, t.val, (reload + 1) * reload);
    CountOfInterrupts(After(d, t.val), (reload + 1) * reload);
    ExactQuotients((reload + 1) * reload, reload + 1, reload);
  }
}
