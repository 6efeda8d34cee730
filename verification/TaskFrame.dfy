/** OSTaskStkInit of UCOSII/PORT/os_cpu_c.c: the stack of a task that has never run, as the
    switch code would have left it had it been interrupted at its entry point.
 */
module TaskFrame {
  import opened Words
  import opened Frames

  const XPSR_THUMB: u32 := 0x0100_0000

  // The words written, in the order of their addresses.

  /** R4 to R11 */
  const CALLEE_SAVED: seq<u32> := [
    0x0404_0404, 0x0505_0505, 0x0606_0606, 0x0707_0707, 0x0808_0808, 0x0909_0909, 0x1010_1010, 0x1111_1111]

  /** S16 to S31 */
  const FP_HIGH: seq<u32> := [
    0x16, 0x17, 0x18, 0x19, 0x20, 0x21, 0x22, 0x23, 0x24, 0x25, 0x26, 0x27, 0x28, 0x29, 0x30, 0x31]

  /** What the source calls S0 to S15 */
  const FP_LOW: seq<u32> := [
    0x00, 0x01, 0x02, 0x03, 0x04, 0x05, 0x06, 0x07, 0x08, 0x09, 0x10, 0x11, 0x12, 0x13, 0x14, 0x15]

  /** What the source calls FPSCR, and a word without a name */
  const FP_STATUS: seq<u32> := [0x1000, 0x00]

  /** R0 to R3, R12, LR, PC, xPSR */
  function AutoSaved(task: u32, arg: u32, taskReturn: u32): (w: seq<u32>)
    ensures |w| == 8
  {
    [arg, 0x0101_0101, 0x0202_0202, 0x0303_0303, 0x1212_1212, taskReturn, task, XPSR_THUMB]
  }

  /** Everything OSTaskStkInit leaves on the stack: xPSR lies where S0 had been written. */
  function NewFrame(fpu: bool, task: u32, arg: u32, taskReturn: u32): (w: seq<u32>)
    ensures |w| == if fpu then 49 else 16
  {
    CALLEE_SAVED + (if fpu then FP_HIGH else []) + AutoSaved(task, arg, taskReturn)
    + (if fpu then FP_LOW[1..] + FP_STATUS else [])
  }

  // ---------- The stack pointer moves down ----------

  /** m is the stack `was` with the part of `block` above stk written; the whole block
      would begin at base. */
  ghost predicate Filled(m: seq<u32>, was: seq<u32>, block: seq<u32>, base: nat, stk: nat) {
    && base <= stk <= base + |block| <= |was|
    && m == Replaced(was, stk, block[stk - base..])
  }

  /** *--stk = x, where x is the next word of the block. */
  method Push(a: array<u32>, top: nat, x: u32, ghost was: seq<u32>, ghost block: seq<u32>, ghost base: nat)
      returns (stk: nat)
    requires Filled(a[..], was, block, base, top) && base < top <= base + |block| && x == block[top - 1 - base]
    modifies a
    ensures stk == top - 1 && Filled(a[..], was, block, base, stk)
  {
    a[top - 1] := x;
    stk := top - 1;
  }

  /** An unused word, then FPSCR */
  method PushFpStatus(a: array<u32>, top: nat) returns (stk: nat)
    requires 2 <= top <= a.Length
    modifies a
    ensures stk == top - 2 && a[..] == Replaced(old(a[..]), stk, FP_STATUS)
  {
    hide Filled, Replaced;
    ghost var was, base := a[..], top - 2;
    stk := top;
    NothingFilled(was, FP_STATUS, base);
    stk := Push(a, stk, 0x0000_0000, was, FP_STATUS, base);
    stk := Push(a, stk, 0x0000_1000, was, FP_STATUS, base);
    AllFilled(a[..], was, FP_STATUS, base);
  }

  lemma FpLowWords()
    ensures |FP_LOW| == 16
         && FP_LOW[0] == 0x00 && FP_LOW[1] == 0x01 && FP_LOW[2] == 0x02 && FP_LOW[3] == 0x03
         && FP_LOW[4] == 0x04 && FP_LOW[5] == 0x05 && FP_LOW[6] == 0x06 && FP_LOW[7] == 0x07
         && FP_LOW[8] == 0x08 && FP_LOW[9] == 0x09 && FP_LOW[10] == 0x10 && FP_LOW[11] == 0x11
         && FP_LOW[12] == 0x12 && FP_LOW[13] == 0x13 && FP_LOW[14] == 0x14 && FP_LOW[15] == 0x15
  {
  }

  /** S15 to S0 */
  method PushFpLow(a: array<u32>, top: nat) returns (stk: nat)
    requires 16 <= top <= a.Length
    modifies a
    ensures stk == top - 16 && a[..] == Replaced(old(a[..]), stk, FP_LOW)
  {
    hide Filled, Replaced, FP_LOW;
    FpLowWords();
    ghost var was, base := a[..], top - 16;
    stk := top;
    NothingFilled(was, FP_LOW, base);
    stk := Push(a, stk, 0x0000_0015, was, FP_LOW, base);
    stk := Push(a, stk, 0x0000_0014, was, FP_LOW, base);
    stk := Push(a, stk, 0x0000_0013, was, FP_LOW, base);
    stk := Push(a, stk, 0x0000_0012, was, FP_LOW, base);
    stk := Push(a, stk, 0x0000_0011, was, FP_LOW, base);
    stk := Push(a, stk, 0x0000_0010, was, FP_LOW, base);
    stk := Push(a, stk, 0x0000_0009, was, FP_LOW, base);
    stk := Push(a, stk, 0x0000_0008, was, FP_LOW, base);
    stk := Push(a, stk, 0x0000_0007, was, FP_LOW, base);
    stk := Push(a, stk, 0x0000_0006, was, FP_LOW, base);
    stk := Push(a, stk, 0x0000_0005, was, FP_LOW, base);
    stk := Push(a, stk, 0x0000_0004, was, FP_LOW, base);
    stk := Push(a, stk, 0x0000_0003, was, FP_LOW, base);
    stk := Push(a, stk, 0x0000_0002, was, FP_LOW, base);
    stk := Push(a, stk, 0x0000_0001, was, FP_LOW, base);
    stk := Push(a, stk, 0x0000_0000, was, FP_LOW, base);
    AllFilled(a[..], was, FP_LOW, base);
  }

  lemma FpHighWords()
    ensures |FP_HIGH| == 16
         && FP_HIGH[0] == 0x16 && FP_HIGH[1] == 0x17 && FP_HIGH[2] == 0x18 && FP_HIGH[3] == 0x19
         && FP_HIGH[4] == 0x20 && FP_HIGH[5] == 0x21 && FP_HIGH[6] == 0x22 && FP_HIGH[7] == 0x23
         && FP_HIGH[8] == 0x24 && FP_HIGH[9] == 0x25 && FP_HIGH[10] == 0x26 && FP_HIGH[11] == 0x27
         && FP_HIGH[12] == 0x28 && FP_HIGH[13] == 0x29 && FP_HIGH[14] == 0x30 && FP_HIGH[15] == 0x31
  {
  }

  /** S31 to S16 */
  method PushFpHigh(a: array<u32>, top: nat) returns (stk: nat)
    requires 16 <= top <= a.Length
    modifies a
    ensures stk == top - 16 && a[..] == Replaced(old(a[..]), stk, FP_HIGH)
  {
    hide Filled, Replaced, FP_HIGH;
    FpHighWords();
    ghost var was, base := a[..], top - 16;
    stk := top;
    NothingFilled(was, FP_HIGH, base);
    stk := Push(a, stk, 0x0000_0031, was, FP_HIGH, base);
    stk := Push(a, stk, 0x0000_0030, was, FP_HIGH, base);
    stk := Push(a, stk, 0x0000_0029, was, FP_HIGH, base);
    stk := Push(a, stk, 0x0000_0028, was, FP_HIGH, base);
    stk := Push(a, stk, 0x0000_0027, was, FP_HIGH, base);
    stk := Push(a, stk, 0x0000_0026, was, FP_HIGH, base);
    stk := Push(a, stk, 0x0000_0025, was, FP_HIGH, base);
    stk := Push(a, stk, 0x0000_0024, was, FP_HIGH, base);
    stk := Push(a, stk, 0x0000_0023, was, FP_HIGH, base);
    stk := Push(a, stk, 0x0000_0022, was, FP_HIGH, base);
    stk := Push(a, stk, 0x0000_0021, was, FP_HIGH, base);
    stk := Push(a, stk, 0x0000_0020, was, FP_HIGH, base);
    stk := Push(a, stk, 0x0000_0019, was, FP_HIGH, base);
    stk := Push(a, stk, 0x0000_0018, was, FP_HIGH, base);
    stk := Push(a, stk, 0x0000_0017, was, FP_HIGH, base);
    stk := Push(a, stk, 0x0000_0016, was, FP_HIGH, base);
    AllFilled(a[..], was, FP_HIGH, base);
  }

  /** R11 to R4 */
  method PushCalleeSaved(a: array<u32>, top: nat) returns (stk: nat)
    requires 8 <= top <= a.Length
    modifies a
    ensures stk == top - 8 && a[..] == Replaced(old(a[..]), stk, CALLEE_SAVED)
  {
    hide Filled, Replaced;
    ghost var was, base := a[..], top - 8;
    stk := top;
    NothingFilled(was, CALLEE_SAVED, base);
    stk := Push(a, stk, 0x1111_1111, was, CALLEE_SAVED, base);
    stk := Push(a, stk, 0x1010_1010, was, CALLEE_SAVED, base);
    stk := Push(a, stk, 0x0909_0909, was, CALLEE_SAVED, base);
    stk := Push(a, stk, 0x0808_0808, was, CALLEE_SAVED, base);
    stk := Push(a, stk, 0x0707_0707, was, CALLEE_SAVED, base);
    stk := Push(a, stk, 0x0606_0606, was, CALLEE_SAVED, base);
    stk := Push(a, stk, 0x0505_0505, was, CALLEE_SAVED, base);
    stk := Push(a, stk, 0x0404_0404, was, CALLEE_SAVED, base);
    AllFilled(a[..], was, CALLEE_SAVED, base);
  }

  lemma NothingFilled(was: seq<u32>, block: seq<u32>, base: nat)
    requires base + |block| <= |was|
    ensures Filled(was, was, block, base, base + |block|)
  {
  }

  lemma AllFilled(m: seq<u32>, was: seq<u32>, block: seq<u32>, base: nat)
    requires Filled(m, was, block, base, base)
    ensures m == Replaced(was, base, block)
  {
  }

  /** *stk = x begins a block at its last word. */
  lemma LastWordFilled(was: seq<u32>, block: seq<u32>, base: nat, last: nat)
    requires |block| > 0 && last == base + |block| - 1 < |was|
    ensures Filled(was[last := block[|block| - 1]], was, block, base, last)
  {
  }

  /** The frame of an exception: xPSR goes where the stack pointer is, the rest below. */
  method PushAutoSaved(a: array<u32>, top: nat, task: u32, arg: u32, taskReturn: u32) returns (stk: nat)
    requires 7 <= top < a.Length
    modifies a
    ensures stk == top - 7 && a[..] == Replaced(old(a[..]), stk, AutoSaved(task, arg, taskReturn))
  {
    hide Filled, Replaced;
    ghost var was, base, block := a[..], top - 7, AutoSaved(task, arg, taskReturn);
    stk := top;
    a[stk] := XPSR_THUMB;
    LastWordFilled(was, block, base, top);
    stk := Push(a, stk, task, was, block, base);
    stk := Push(a, stk, taskReturn, was, block, base);
    stk := Push(a, stk, 0x1212_1212, was, block, base);
    stk := Push(a, stk, 0x0303_0303, was, block, base);
    stk := Push(a, stk, 0x0202_0202, was, block, base);
    stk := Push(a, stk, 0x0101_0101, was, block, base);
    stk := Push(a, stk, arg, was, block, base);
    AllFilled(a[..], was, block, base);
  }

  lemma Reassociate(a: seq<u32>, b: seq<u32>, c: seq<u32>, d: seq<u32>)
    ensures a + b + (c + d) == a + (b + c) + d
  {
  }

  lemma TailOf(m: seq<u32>, at: nat, w: seq<u32>, k: nat)
    requires at + |w| <= |m| && k <= |w|
    ensures Replaced(m, at, w)[at + k..] == w[k..] + m[at + |w|..]
    ensures Replaced(m, at, w)[..at] == m[..at]
  {
  }

  /** A later block over, or just below, an earlier one. */
  lemma ReplacedTwice(m: seq<u32>, at: nat, w: seq<u32>, at': nat, w': seq<u32>)
    requires at' <= at <= at' + |w'| <= at + |w| <= |m|
    ensures Replaced(Replaced(m, at, w), at', w') == Replaced(m, at', w' + w[at' + |w'| - at..])
  {
    var k := at' + |w'| - at;
    TailOf(m, at, w, k);
    assert m[..at][..at'] == m[..at'];
    assert Replaced(m, at, w)[..at'] == Replaced(m, at, w)[..at][..at'];
    Reassociate(m[..at'], w', w[k..], m[at + |w|..]);
  }

  lemma FrameParts(task: u32, arg: u32, taskReturn: u32)
    ensures |CALLEE_SAVED| == 8 && |FP_HIGH| == 16 && |FP_LOW| == 16 && |FP_STATUS| == 2
    ensures var w := AutoSaved(task, arg, taskReturn);
            && NewFrame(false, task, arg, taskReturn) == CALLEE_SAVED + w
            && NewFrame(true, task, arg, taskReturn)
               == CALLEE_SAVED + (FP_HIGH + (w + (FP_LOW + FP_STATUS)[1..]))
  {
  }

  /** The stack of a new task. ptos is the highest word of the stack; taskReturn is the
      address of OS_TaskReturn. */
  method OSTaskStkInit(a: array<u32>, ptos: nat, task: u32, arg: u32, taskReturn: u32, fpu: bool) returns (stk: nat)
    requires (if fpu then 49 else 15) <= ptos < a.Length
    modifies a
    ensures stk == ptos - if fpu then 49 else 15
    ensures a[..] == Replaced(old(a[..]), stk, NewFrame(fpu, task, arg, taskReturn))
  {
    hide Replaced, AutoSaved, NewFrame, FP_LOW, FP_STATUS, FP_HIGH, CALLEE_SAVED;
    ghost var was, w: seq<u32> := a[..], [];
    FrameParts(task, arg, taskReturn);
    stk := ptos;
    if fpu {
      stk := PushFpStatus(a, stk);
      stk := PushFpLow(a, stk);
      ReplacedTwice(was, ptos - 2, FP_STATUS, stk, FP_LOW);
      assert FP_STATUS[0..] == FP_STATUS;
      w := FP_LOW + FP_STATUS;
    }
    assert fpu ==> a[..] == Replaced(was, stk, w);
    stk := PushAutoSaved(a, stk, task, arg, taskReturn);
    if fpu {
      ReplacedTwice(was, ptos - 18, w, stk, AutoSaved(task, arg, taskReturn));
      w := AutoSaved(task, arg, taskReturn) + w[1..];
      stk := PushFpHigh(a, stk);
      ReplacedTwice(was, ptos - 25, w, stk, FP_HIGH);
      assert w[0..] == w;
      w := FP_HIGH + w;
    } else {
      w := AutoSaved(task, arg, taskReturn);
    }
    assert a[..] == Replaced(was, stk, w);
    ghost var before := stk;
    stk := PushCalleeSaved(a, stk);
    ReplacedTwice(was, before, w, stk, CALLEE_SAVED);
    assert w[0..] == w;
  }

  // ---------- The frame undone ----------

  /** The stack after OSTaskStkInit, and where its pointer is. */
  function NewStack(m: seq<u32>, ptos: nat, task: u32, arg: u32, taskReturn: u32, fpu: bool): (m': seq<u32>)
    requires (if fpu then 49 else 15) <= ptos < |m|
    ensures |m'| == |m|
  {
    Replaced(m, NewPointer(ptos, fpu), NewFrame(fpu, task, arg, taskReturn))
  }

  function NewPointer(ptos: nat, fpu: bool): nat
    requires (if fpu then 49 else 15) <= ptos
  {
    ptos - if fpu then 49 else 15
  }

  /** Below the returned pointer and above the frame the stack is untouched. */
  lemma OnlyTheFrameIsWritten(m: seq<u32>, ptos: nat, task: u32, arg: u32, taskReturn: u32, fpu: bool, i: nat)
    requires (if fpu then 49 else 15) <= ptos < |m| && i < |m|
    requires i < NewPointer(ptos, fpu) || i > ptos || (fpu && i == ptos)
    ensures NewStack(m, ptos, task, arg, taskReturn, fpu)[i] == m[i]
  {
    hide NewFrame;
  }

  lemma FrameSlices(fpu: bool, task: u32, arg: u32, taskReturn: u32)
    ensures var w := NewFrame(fpu, task, arg, taskReturn);
            && w[0..8] == CALLEE_SAVED
            && (!fpu ==> w[8..16] == AutoSaved(task, arg, taskReturn))
            && (fpu ==> w[24..32] == AutoSaved(task, arg, taskReturn))
            && (fpu ==> w[8..24] == FP_HIGH && w[32..49] == FP_LOW[1..] + FP_STATUS)
  {
    hide AutoSaved;
  }

  lemma NewFrameAt(m: seq<u32>, ptos: nat, task: u32, arg: u32, taskReturn: u32, fpu: bool)
    requires (if fpu then 49 else 15) <= ptos < |m|
    ensures var m', sp := NewStack(m, ptos, task, arg, taskReturn, fpu), NewPointer(ptos, fpu);
            var f := if fpu then sp + 24 else sp + 8;
            && m'[sp..sp + 8] == CALLEE_SAVED
            && m'[f..f + 8] == AutoSaved(task, arg, taskReturn)
            && (fpu ==> m'[sp + 8..sp + 24] == FP_HIGH && m'[sp + 32..sp + 49] == FP_LOW[1..] + FP_STATUS)
  {
    hide Replaced, AutoSaved, NewFrame;
    FrameSlices(fpu, task, arg, taskReturn);
    var w := NewFrame(fpu, task, arg, taskReturn);
    var m', sp := NewStack(m, ptos, task, arg, taskReturn, fpu), NewPointer(ptos, fpu);
    ReplacedAt(m, sp, w, 0, 8);
    ReplacedAt(m, sp, w, if fpu then 24 else 8, if fpu then 32 else 16);
    if fpu {
      ReplacedAt(m, sp, w, 8, 24);
      ReplacedAt(m, sp, w, 32, 49);
    }
  }

  lemma ReplacedAt(m: seq<u32>, at: nat, w: seq<u32>, i: nat, j: nat)
    requires at + |w| <= |m| && i <= j <= |w|
    ensures Replaced(m, at, w)[at + i..at + j] == w[i..j]
  {
  }

  /** A register number as the source writes it into the register's word: its two decimal
      digits, read as hexadecimal. */
  function Digits(n: nat): nat {
    n / 10 * 16 + n % 10
  }

  /** Four times that byte, as in 0x10101010 for R10. */
  function FourDigits(n: nat): nat {
    0x0101_0101 * Digits(n)
  }

  lemma CalleeSavedByNumber(n: nat)
    requires 4 <= n < 12
    ensures CALLEE_SAVED[n - 4] == FourDigits(n)
  {
  }

  lemma FpLowByNumber(n: nat)
    requires n < 16
    ensures FP_LOW[n] == Digits(n)
  {
  }

  lemma FpHighByNumber(n: nat)
    requires 16 <= n < 32
    ensures FP_HIGH[n - 16] == Digits(n)
  {
  }

  /** In xPSR only the Thumb bit is set. */
  lemma ThumbBit(k: nat)
    ensures Bit(XPSR_THUMB, k) <==> k == 24
  {
    Pow2UpTo8();
    Pow2Add(8, 8);
    Pow2Add(16, 8);
    BitOfPow2(24, k);
  }

  /** A restore of a new frame, with the floating-point words exactly in an FPU build, starts
      its owner at the entry point with its argument, an empty stack, and OS_TaskReturn to return
      to. */
  lemma NewTaskStarts(m: seq<u32>, ptos: nat, task: u32, arg: u32, taskReturn: u32, fpu: bool, before: Cpu)
    requires (if fpu then 49 else 15) <= ptos < |m| && before.Valid()
    ensures NewPointer(ptos, fpu) + Size(fpu) == ptos + 1
    ensures var c := Restored(NewStack(m, ptos, task, arg, taskReturn, fpu), NewPointer(ptos, fpu), fpu, before);
            && c.r[0] == arg && c.pc == task && c.lr == taskReturn
            && (forall k: nat :: Bit(c.xpsr, k) <==> k == 24)
            && (forall n :: 1 <= n < 13 ==> c.r[n] == FourDigits(n))
            && c.sp == ptos + 1
            && (!fpu ==> c.s == before.s && c.fpscr == before.fpscr)
  {
    hide NewStack;
    NewFrameAt(m, ptos, task, arg, taskReturn, fpu);
    var m', sp := NewStack(m, ptos, task, arg, taskReturn, fpu), NewPointer(ptos, fpu);
    var f := if fpu then sp + 24 else sp + 8;
    WordsAt(m', f, AutoSaved(task, arg, taskReturn));
    RegistersOf(m'[f..f + 4], m'[sp..sp + 8], m'[f + 4]);
    assert m'[f..f + 4][1..4] == m'[f + 1..f + 4];
    NumberedRegisters(Restored(m', sp, fpu, before).r, AutoSaved(task, arg, taskReturn));
    forall k: nat
      ensures Bit(XPSR_THUMB, k) <==> k == 24
    {
      ThumbBit(k);
    }
  }

  lemma NumberedRegisters(r: seq<u32>, w: seq<u32>)
    requires |r| == 13 && |w| == 8 && r[4..12] == CALLEE_SAVED
    requires r[1] == w[1] == 0x0101_0101 && r[2] == w[2] == 0x0202_0202 && r[3] == w[3] == 0x0303_0303
    requires r[12] == w[4] == 0x1212_1212
    ensures forall n :: 1 <= n < 13 ==> r[n] == FourDigits(n)
  {
    hide CALLEE_SAVED;
    forall n | 1 <= n < 13
      ensures r[n] == FourDigits(n)
    {
      if 4 <= n < 12 {
        CalleeSavedByNumber(n);
        assert r[4..12][n - 4] == r[n];
      }
    }
  }

  lemma RegistersOf(low: seq<u32>, callee: seq<u32>, r12: u32)
    requires |low| == 4 && |callee| == 8
    ensures var r := low + callee + [r12];
            r[0] == low[0] && r[1..4] == low[1..4] && r[4..12] == callee && r[12] == r12
  {
  }

  lemma WordsAt(m: seq<u32>, f: nat, w: seq<u32>)
    requires f + 8 <= |m| && |w| == 8 && m[f..f + 8] == w
    ensures forall i :: f <= i < f + 8 ==> m[i] == w[i - f]
  {
  }

  /** In an FPU build the frame has one word too few below FPSCR: the hardware finds S0 one
      word above where the source put it, so each of S0 to S14 gets the value meant for
      the next register, S15 the one meant for FPSCR, and FPSCR gets 0. */
  lemma FpValuesAreShifted(m: seq<u32>, ptos: nat, task: u32, arg: u32, taskReturn: u32, before: Cpu)
    requires 49 <= ptos < |m| && before.Valid()
    ensures var c := Restored(NewStack(m, ptos, task, arg, taskReturn, true), NewPointer(ptos, true), true, before);
            && (forall n :: 16 <= n < 32 ==> c.s[n] == Digits(n))
            && (forall n :: 0 <= n < 15 ==> c.s[n] == Digits(n + 1))
            && c.s[15] == 0x1000 && c.fpscr == 0
  {
    hide NewStack, FP_LOW, FP_HIGH, Digits;
    NewFrameAt(m, ptos, task, arg, taskReturn, true);
    FrameParts(task, arg, taskReturn);
    var m', sp := NewStack(m, ptos, task, arg, taskReturn, true), NewPointer(ptos, true);
    var tail := FP_LOW[1..] + FP_STATUS;
    var c := Restored(m', sp, true, before);
    assert tail == m'[sp + 32..sp + 49];
    assert forall i :: 0 <= i < 17 ==> tail[i] == m'[sp + 32 + i];
    assert forall i :: 0 <= i < 16 ==> c.s[i] == tail[i];
    assert tail[15] == FP_STATUS[0] && tail[16] == FP_STATUS[1];
    forall n | 0 <= n < 15
      ensures c.s[n] == Digits(n + 1)
    {
      FpLowByNumber(n + 1);
      assert tail[n] == FP_LOW[n + 1];
    }
    forall n | 16 <= n < 32
      ensures c.s[n] == Digits(n)
    {
      FpHighByNumber(n);
      assert c.s[16..] == FP_HIGH;
      assert c.s[16..][n - 16] == c.s[n];
    }
  }

  /** An FPU frame restored without its floating-point words: execution starts at
      address 0x22 with argument 0x16, wherever it was meant to start. */
  lemma FpFrameWithoutFp(m: seq<u32>, ptos: nat, task: u32, arg: u32, taskReturn: u32, before: Cpu)
    requires 49 <= ptos < |m| && before.Valid()
    ensures var c := Restored(NewStack(m, ptos, task, arg, taskReturn, true), NewPointer(ptos, true), false, before);
            c.pc == 0x22 && c.lr == 0x21 && c.r[0] == 0x16 && c.sp == ptos - 33
  {
    hide NewStack, FP_HIGH;
    NewFrameAt(m, ptos, task, arg, taskReturn, true);
    FpHighWords();
    var m', sp := NewStack(m, ptos, task, arg, taskReturn, true), NewPointer(ptos, true);
    assert FP_HIGH == m'[sp + 8..sp + 24];
    assert forall i :: 0 <= i < 16 ==> FP_HIGH[i] == m'[sp + 8 + i];
    assert m'[sp + 8] == FP_HIGH[0] && m'[sp + 13] == FP_HIGH[5] && m'[sp + 14] == FP_HIGH[6];
  }

  /** A frame without floating-point words restored with them: the restore runs past the
      frame, and takes the address where execution starts from 15 words above the top. */
  lemma FrameWithFp(m: seq<u32>, ptos: nat, task: u32, arg: u32, taskReturn: u32, before: Cpu)
    requires 15 <= ptos < |m| && before.Valid() && NewPointer(ptos, false) + Size(true) <= |m|
    ensures var c := Restored(NewStack(m, ptos, task, arg, taskReturn, false), NewPointer(ptos, false), true, before);
            c.pc == m[ptos + 15] && c.r[0] == m[ptos + 9] && c.sp == ptos + 35
  {
    hide NewStack, NewFrame;
    OnlyTheFrameIsWritten(m, ptos, task, arg, taskReturn, false, ptos + 15);
    OnlyTheFrameIsWritten(m, ptos, task, arg, taskReturn, false, ptos + 9);
  }
}
