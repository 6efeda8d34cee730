/** The interrupt-controller access functions of CORE/core_cm4.h over a bank of
    memory-mapped registers, and the set-and-map view of the controller that they
    implement.
 */
module Nvic {
  import opened Words
  import opened PriorityCodec

  // ---------- Interrupt numbers ----------

  predicate External(irq: int) {
    0 <= irq < 240
  }

  /** The core exceptions whose priority can be set. */
  predicate System(irq: int) {
    -12 <= irq < 0
  }

  /** (uint32_t)IRQn */
  function AsU32(irq: int): u32
    requires -0x8000_0000 <= irq < 0x8000_0000
  {
    if irq < 0 then irq + TWO_32 else irq
  }

  function WordIndex(irq: int): nat
    requires External(irq)
  {
    Shr(AsU32(irq), 5)
  }

  function BitIndex(irq: int): nat
    requires External(irq)
  {
    And(AsU32(irq), 0x1F)
  }

  /** ((uint32_t)(IRQn) & 0xF) - 4, in unsigned arithmetic */
  function SystemSlot(irq: int): u32
    requires -0x8000_0000 <= irq < 0
  {
    (And(AsU32(irq), 0xF) + TWO_32 - 4) % TWO_32
  }

  lemma IndexOfExternal(irq: int)
    requires External(irq)
    ensures WordIndex(irq) == irq / 32 < 8
    ensures BitIndex(irq) == irq % 32
    ensures Shl(1, BitIndex(irq)) == Pow2(irq % 32)
  {
    Pow2UpTo8();
    AndOnes(irq, 5);
    Pow2At32();
    Pow2Monotone(irq % 32, 31);
    SmallShl(1, irq % 32);
  }

  lemma SlotArithmetic(m: nat)
    requires m < 16
    ensures (m + TWO_32 - 4) % TWO_32 == if m >= 4 then m - 4 else m + TWO_32 - 4
  {
  }

  lemma LowNibble(irq: int)
    requires -0x8000_0000 <= irq < 0
    ensures And(AsU32(irq), 0xF) == irq % 16
    ensures -16 <= irq ==> irq % 16 == irq + 16
  {
    Pow2UpTo8();
    AndOnes(AsU32(irq), 4);
    assert AsU32(irq) % 16 == irq % 16;
  }

  /** The slot of a core exception lies inside SHP exactly when its number modulo 16
      is 4 or more; of the numbers -16..-1 those are -12..-1, in order. */
  lemma SlotOfSystem(irq: int)
    requires -0x8000_0000 <= irq < 0
    ensures SystemSlot(irq) < 12 <==> irq % 16 >= 4
    ensures SystemSlot(irq) < 12 ==> SystemSlot(irq) == irq % 16 - 4
    ensures -16 <= irq ==> (SystemSlot(irq) < 12 <==> System(irq))
    ensures System(irq) ==> SystemSlot(irq) == irq + 12
  {
    hide And, AsU32;
    LowNibble(irq);
    SlotArithmetic(irq % 16);
  }

  // ---------- Registers ----------

  /** ISER/ICER and ISPR/ICPR are two views each of one word array. */
  datatype Regs = Regs(
    enable: seq<u32>,
    pending: seq<u32>,
    active: seq<u32>,
    ip: seq<nat>,
    shp: seq<nat>,
    aircr: bv32)

  const VECTKEY: bv32 := 0x5FA
  const VECTKEYSTAT: bv32 := 0xFA05
  const VECTKEY_MSK: bv32 := 0xFFFF_0000
  const PRIGROUP_MSK: bv32 := 0x0000_0700
  const SYSRESETREQ_MSK: bv32 := 0x0000_0004
  const ENDIANNESS_MSK: bv32 := 0x0000_8000

  ghost predicate WellFormed(bits: PrioBits, r: Regs) {
    && |r.enable| == 8 && |r.pending| == 8 && |r.active| == 8
    && |r.ip| == 240 && |r.shp| == 12
    && (forall i :: 0 <= i < 240 ==> Implemented(bits, r.ip[i]))
    && (forall i :: 0 <= i < 12 ==> Implemented(bits, r.shp[i]))
    && r.aircr >> 16 == VECTKEYSTAT
  }

  // Hardware side of a write (ARMv7-M Architecture Reference Manual, sections B3.4
  // and B3.2.6).

  /** Write one to set: ones in the value set bits, zeros have no effect. */
  function SetBits(words: seq<u32>, n: nat, value: u32): seq<u32>
    requires n < |words|
  {
    Pow2At32();
    OrFits(words[n], value, 32);
    words[n := Or(words[n], value)]
  }

  /** Write one to clear. */
  function ClearBits(words: seq<u32>, n: nat, value: u32): seq<u32>
    requires n < |words|
  {
    words[n := AndNot(words[n], value)]
  }

  /** A write to AIRCR takes effect only with the key in its upper half; the upper half
      reads back as the key status, ENDIANNESS is read-only, and the remaining request
      bits read as zero. */
  function WriteAircr(before: bv32, value: bv32): bv32 {
    if value >> 16 == VECTKEY
    then (VECTKEYSTAT << 16) | (before & ENDIANNESS_MSK) | (value & (PRIGROUP_MSK | SYSRESETREQ_MSK))
    else before
  }

  // ---------- Access functions ----------

  function EnableIRQ(r: Regs, irq: int): Regs
    requires External(irq) && |r.enable| == 8
  {
    IndexOfExternal(irq);
    r.(enable := SetBits(r.enable, WordIndex(irq), Shl(1, BitIndex(irq))))
  }

  function DisableIRQ(r: Regs, irq: int): Regs
    requires External(irq) && |r.enable| == 8
  {
    IndexOfExternal(irq);
    r.(enable := ClearBits(r.enable, WordIndex(irq), Shl(1, BitIndex(irq))))
  }

  function SetPendingIRQ(r: Regs, irq: int): Regs
    requires External(irq) && |r.pending| == 8
  {
    IndexOfExternal(irq);
    r.(pending := SetBits(r.pending, WordIndex(irq), Shl(1, BitIndex(irq))))
  }

  function ClearPendingIRQ(r: Regs, irq: int): Regs
    requires External(irq) && |r.pending| == 8
  {
    IndexOfExternal(irq);
    r.(pending := ClearBits(r.pending, WordIndex(irq), Shl(1, BitIndex(irq))))
  }

  function TestBit(words: seq<u32>, irq: int): bool
    requires External(irq) && |words| == 8
  {
    IndexOfExternal(irq);
    And(words[WordIndex(irq)], Shl(1, BitIndex(irq))) != 0
  }

  function SetPriority(bits: PrioBits, r: Regs, irq: int, priority: u32): (r': Regs)
    requires (External(irq) || System(irq)) && |r.ip| == 240 && |r.shp| == 12
    ensures |r'.ip| == 240 && |r'.shp| == 12
  {
    if irq < 0 then
      SlotOfSystem(irq);
      r.(shp := r.shp[SystemSlot(irq) := StoredByte(bits, priority)])
    else
      r.(ip := r.ip[irq := StoredByte(bits, priority)])
  }

  /** The priority byte of an interrupt. */
  function RawPriority(r: Regs, irq: int): nat
    requires (External(irq) || System(irq)) && |r.ip| == 240 && |r.shp| == 12
  {
    if irq < 0 then
      SlotOfSystem(irq);
      r.shp[SystemSlot(irq)]
    else
      r.ip[irq]
  }

  function GetPriority(bits: PrioBits, r: Regs, irq: int): nat
    requires (External(irq) || System(irq)) && |r.ip| == 240 && |r.shp| == 12
  {
    ReadByte(bits, RawPriority(r, irq))
  }

  /** The word NVIC_SetPriorityGrouping writes to AIRCR. */
  function GroupingWord(aircr: bv32, group: u32): bv32 {
    (aircr & !(VECTKEY_MSK | PRIGROUP_MSK)) | (VECTKEY << 16) | ((GroupOf(group) as bv32) << 8)
  }

  function SetPriorityGrouping(r: Regs, group: u32): Regs {
    r.(aircr := WriteAircr(r.aircr, GroupingWord(r.aircr, group)))
  }

  function GetPriorityGrouping(r: Regs): (g: nat)
    ensures g < 8
  {
    assert (r.aircr & PRIGROUP_MSK) >> 8 <= 7;
    ((r.aircr & PRIGROUP_MSK) >> 8) as nat
  }

  /** The word NVIC_SystemReset writes to AIRCR. */
  function ResetWord(aircr: bv32): bv32 {
    (VECTKEY << 16) | (aircr & PRIGROUP_MSK) | SYSRESETREQ_MSK
  }

  function SystemReset(r: Regs): Regs {
    r.(aircr := WriteAircr(r.aircr, ResetWord(r.aircr)))
  }

  // ---------- AIRCR ----------

  lemma SmallToBv(g: nat)
    requires g < 8
    ensures (g as bv32) <= 7 && (g as bv32) as nat == g
  {
    if g == 0 {} else if g == 1 {} else if g == 2 {} else if g == 3 {}
    else if g == 4 {} else if g == 5 {} else if g == 6 {} else {}
  }

  lemma GroupingWordFields(x: bv32, v: bv32)
    requires v <= 7
    ensures var w := (x & !(VECTKEY_MSK | PRIGROUP_MSK)) | (VECTKEY << 16) | (v << 8);
            && w >> 16 == VECTKEY
            && (w & PRIGROUP_MSK) >> 8 == v
            && w & !(VECTKEY_MSK | PRIGROUP_MSK) == x & !(VECTKEY_MSK | PRIGROUP_MSK)
  {
  }

  /** Every AIRCR write carries the key 0x5FA in bits 31..16. Setting the group writes it
      modulo 8 to bits 10..8 and keeps every other lower bit; a reset request keeps bits
      10..8 and sets bit 2 alone. */
  lemma AircrWords(aircr: bv32, group: u32)
    ensures GroupingWord(aircr, group) >> 16 == 0x5FA
    ensures ((GroupingWord(aircr, group) >> 8) & 7) as nat == group % 8
    ensures GroupingWord(aircr, group) & 0x0000_F8FF == aircr & 0x0000_F8FF
    ensures ResetWord(aircr) >> 16 == 0x5FA
    ensures (ResetWord(aircr) >> 8) & 7 == (aircr >> 8) & 7
    ensures ResetWord(aircr) & 0x0000_F8FF == 0x0000_0004
  {
    SmallToBv(GroupOf(group));
    GroupingWordBits(aircr, GroupOf(group) as bv32);
    ResetWordBits(aircr);
  }

  lemma GroupingWordBits(x: bv32, v: bv32)
    requires v <= 7
    ensures var w := (x & !(VECTKEY_MSK | PRIGROUP_MSK)) | (VECTKEY << 16) | (v << 8);
            && w >> 16 == 0x5FA && (w >> 8) & 7 == v && w & 0x0000_F8FF == x & 0x0000_F8FF
  {
  }

  lemma ResetWordBits(x: bv32)
    ensures var w := ResetWord(x);
            && w >> 16 == 0x5FA && (w >> 8) & 7 == (x >> 8) & 7 && w & 0x0000_F8FF == 0x0000_0004
  {
  }

  /** The group is bits 10..8. */
  lemma GroupIsBits8To10(r: Regs)
    ensures GetPriorityGrouping(r) == ((r.aircr >> 8) & 7) as nat
  {
    assert (r.aircr & PRIGROUP_MSK) >> 8 == (r.aircr >> 8) & 7;
  }

  /** The hardware takes a write with the key 0x5FA and no other. */
  lemma KeyIsNeeded(before: bv32, value: bv32)
    ensures value >> 16 != 0x5FA ==> WriteAircr(before, value) == before
    ensures value >> 16 == 0x5FA ==>
              (WriteAircr(before, value) >> 8) & 7 == (value >> 8) & 7
              && (WriteAircr(before, value) >> 2) & 1 == (value >> 2) & 1
  {
  }

  /** Both writes get past the key check: the group reads back as the value set modulo
      8, a reset request keeps it, and ENDIANNESS and the key status stay. */
  lemma AircrEffect(r: Regs, group: u32)
    requires r.aircr >> 16 == VECTKEYSTAT
    ensures GetPriorityGrouping(SetPriorityGrouping(r, group)) == group % 8
    ensures GetPriorityGrouping(SystemReset(r)) == GetPriorityGrouping(r)
    ensures SetPriorityGrouping(r, group).aircr >> 16 == VECTKEYSTAT
    ensures SystemReset(r).aircr >> 16 == VECTKEYSTAT
    ensures (SystemReset(r).aircr >> 2) & 1 == 1
    ensures SetPriorityGrouping(r, group).aircr & 0xFFFF_F8FF == r.aircr & 0xFFFF_8004
  {
    hide GroupingWord, ResetWord, WriteAircr;
    AircrWords(r.aircr, group);
    SetGroupEffect(r.aircr, GroupingWord(r.aircr, group));
    ResetEffect(r.aircr, ResetWord(r.aircr));
    GroupIsBits8To10(r);
    GroupIsBits8To10(SetPriorityGrouping(r, group));
    GroupIsBits8To10(SystemReset(r));
  }

  lemma SetGroupEffect(x: bv32, w: bv32)
    requires x >> 16 == VECTKEYSTAT && w >> 16 == 0x5FA && w & 0x0000_F8FF == x & 0x0000_F8FF
    ensures var y := WriteAircr(x, w);
            y >> 16 == VECTKEYSTAT && (y >> 8) & 7 == (w >> 8) & 7 && y & 0xFFFF_F8FF == x & 0xFFFF_8004
  {
  }

  lemma ResetEffect(x: bv32, w: bv32)
    requires w >> 16 == 0x5FA && w & 0x0000_F8FF == 0x0000_0004
    ensures var y := WriteAircr(x, w);
            y >> 16 == VECTKEYSTAT && (y >> 8) & 7 == (w >> 8) & 7 && (y >> 2) & 1 == 1
  {
  }

  /** NVIC_SetPriorityGrouping does not set the smallest possible group: what reads back is
      that one if and only if there is no conflict with the implemented bits. */
  lemma SmallestIsSetIff(bits: PrioBits, r: Regs, group: u32)
    requires r.aircr >> 16 == VECTKEYSTAT
    ensures GetPriorityGrouping(SetPriorityGrouping(r, group)) == Smallest(bits, group)
       <==> group % 8 + bits >= 7
  {
    AircrEffect(r, group);
  }

  /** Four priority bits and group 0: 0 is set, where the smallest possible group is 3. */
  lemma GroupZeroIsStored(r: Regs)
    requires r.aircr >> 16 == VECTKEYSTAT
    ensures GetPriorityGrouping(SetPriorityGrouping(r, 0)) == 0 && Smallest(4, 0) == 3
  {
    AircrEffect(r, 0);
  }

  lemma WrittenGroup(x: bv32, w: bv32)
    requires w >> 16 == VECTKEY
    ensures WriteAircr(x, w) & PRIGROUP_MSK == w & PRIGROUP_MSK
    ensures WriteAircr(x, w) >> 16 == VECTKEYSTAT
    ensures WriteAircr(x, w) & SYSRESETREQ_MSK == w & SYSRESETREQ_MSK
    ensures WriteAircr(x, w) & ENDIANNESS_MSK == x & ENDIANNESS_MSK
    ensures WriteAircr(x, w) & !(VECTKEY_MSK | PRIGROUP_MSK | SYSRESETREQ_MSK | ENDIANNESS_MSK) == 0
  {
  }
}
