/** What a Cortex-M4 task has in its registers, and the stack image an exception and the
    context switch make of them: R4-R11, S16-S31 where the FPU is in use, then the frame the
    hardware stacks.
 */
module Frames {
  import opened Words

  /** The registers of a task; r holds R0 to R12, s holds S0 to S31, sp is the process stack
      pointer, counted in words. */
  datatype Cpu = Cpu(r: seq<u32>, lr: u32, pc: u32, xpsr: u32, s: seq<u32>, fpscr: u32, sp: nat)
  {
    predicate Valid() {
      |r| == 13 && |s| == 32
    }
  }

  /** Words of a saved context. */
  function Size(fp: bool): nat {
    if fp then 50 else 16
  }

  /** Registers in the order they lie in memory, from the saved stack pointer up; the last
      word of the floating-point frame is reserved. */
  function Image(c: Cpu, fp: bool, reserved: u32): (w: seq<u32>)
    requires c.Valid()
    ensures |w| == Size(fp)
  {
    c.r[4..12]
    + (if fp then c.s[16..] else [])
    + c.r[..4] + [c.r[12], c.lr, c.pc, c.xpsr]
    + (if fp then c.s[..16] + [c.fpscr, reserved] else [])
  }

  /** The registers after a restore from the stack m at sp: the switch code pops R4-R11 and
      S16-S31, the exception return pops the rest. Without the floating-point frame S0-S31
      and FPSCR stay what they were. */
  function Restored(m: seq<u32>, sp: nat, fp: bool, before: Cpu): (c: Cpu)
    requires before.Valid() && sp + Size(fp) <= |m|
    ensures c.Valid() && c.sp == sp + Size(fp)
  {
    var f := if fp then sp + 24 else sp + 8;
    Cpu(m[f..f + 4] + m[sp..sp + 8] + [m[f + 4]], m[f + 5], m[f + 6], m[f + 7],
        if fp then m[f + 8..f + 24] + m[sp + 8..sp + 24] else before.s,
        if fp then m[f + 24] else before.fpscr,
        sp + Size(fp))
  }

  /** m with the words of w from index `at` on. */
  function Replaced(m: seq<u32>, at: nat, w: seq<u32>): (m': seq<u32>)
    requires at + |w| <= |m|
    ensures |m'| == |m|
  {
    m[..at] + w + m[at + |w|..]
  }

  lemma ImageAt(c: Cpu, fp: bool, reserved: u32)
    requires c.Valid()
    ensures var w := Image(c, fp, reserved);
            var f := if fp then 24 else 8;
            && w[..8] == c.r[4..12]
            && w[f..f + 4] == c.r[..4]
            && w[f + 4] == c.r[12] && w[f + 5] == c.lr && w[f + 6] == c.pc && w[f + 7] == c.xpsr
            && (fp ==> w[8..24] == c.s[16..] && w[32..48] == c.s[..16] && w[48] == c.fpscr)
  {
  }

  lemma Part(m: seq<u32>, at: nat, w: seq<u32>, i: nat, j: nat)
    requires at + |w| <= |m| && m[at..at + |w|] == w && i <= j <= |w|
    ensures m[at + i..at + j] == w[i..j]
    ensures i < |w| ==> m[at + i] == w[i]
  {
    assert forall k :: 0 <= k < |w| ==> w[k] == m[at + k];
  }

  /** Restoring in the mode of the save gives back every register. */
  lemma RestoreOfImage(m: seq<u32>, sp: nat, c: Cpu, fp: bool, reserved: u32, before: Cpu)
    requires c.Valid() && before.Valid() && sp + Size(fp) <= |m| && c.sp == sp + Size(fp)
    requires m[sp..sp + Size(fp)] == Image(c, fp, reserved)
    ensures Restored(m, sp, fp, before) == if fp then c else c.(s := before.s, fpscr := before.fpscr)
  {
    ImageAt(c, fp, reserved);
    hide Image;
    var w := Image(c, fp, reserved);
    var f := if fp then 24 else 8;
    Part(m, sp, w, 0, 8);
    Part(m, sp, w, f, f + 4);
    Part(m, sp, w, f + 4, f + 4);
    Part(m, sp, w, f + 5, f + 5);
    Part(m, sp, w, f + 6, f + 6);
    Part(m, sp, w, f + 7, f + 7);
    assert c.r == c.r[..4] + c.r[4..12] + [c.r[12]];
    if fp {
      Part(m, sp, w, 8, 24);
      Part(m, sp, w, 32, 48);
      Part(m, sp, w, 48, 48);
      assert c.s == c.s[..16] + c.s[16..];
    }
  }
}
