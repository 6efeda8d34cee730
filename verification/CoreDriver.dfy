/** The access functions of CORE/core_cm4.h as the imperative code they are, over a core
    whose registers are mutable.
 */
module CoreDriver {
  import opened Words
  import opened PriorityCodec
  import opened Nvic
  import opened NvicRefinement
  import opened SysTick

  class Core {
    const bits: PrioBits
    const enable: array<u32>
    const pending: array<u32>
    const active: array<u32>
    const ip: array<nat>
    const shp: array<nat>
    var aircr: bv32
    var tickCtrl: u32
    var tickLoad: u32
    var tickVal: u32

    ghost predicate Valid()
      reads this, enable, pending, active, ip, shp
    {
      && enable != pending && enable != active && pending != active && ip != shp
      && WellFormed(bits, Registers())
    }

    ghost function Registers(): Regs
      reads this, enable, pending, active, ip, shp
    {
      Regs(enable[..], pending[..], active[..], ip[..], shp[..], aircr)
    }

    ghost function Tick(): Timer
      reads this
    {
      Timer(tickCtrl, tickLoad, tickVal)
    }

    /** Interrupts disabled, nothing pending or active, all priorities zero, group 0. */
    constructor (bits: PrioBits)
      ensures Valid() && this.bits == bits
      ensures fresh(enable) && fresh(pending) && fresh(active) && fresh(ip) && fresh(shp)
      ensures View(bits, Registers()).enabled == {} && View(bits, Registers()).pending == {}
      ensures View(bits, Registers()).active == {}
      ensures forall irq :: -12 <= irq < 240 ==> View(bits, Registers()).priority[irq] == 0
      ensures GetPriorityGrouping(Registers()) == 0
    {
      this.bits := bits;
      enable := new u32[8](i => 0);
      pending := new u32[8](i => 0);
      active := new u32[8](i => 0);
      ip := new nat[240](i => 0);
      shp := new nat[12](i => 0);
      aircr := 0xFA05_0000;
      tickCtrl, tickLoad, tickVal := 0, 0, 0;
      new;
      forall k: nat {
        BitOfZero(k);
      }
      assert 0 % Pow2(8 - bits) == 0;
      forall irq | -12 <= irq < 240
        ensures GetPriority(bits, Registers(), irq) == 0
      {
        ZeroPriority(bits, Registers(), irq);
      }
    }

    // ---------- Hardware side of register writes ----------

    method WriteISER(n: nat, value: u32)
      requires n < enable.Length
      modifies enable
      ensures enable[..] == SetBits(old(enable[..]), n, value)
    {
      Pow2At32();
      OrFits(enable[n], value, 32);
      enable[n] := Or(enable[n], value);
    }

    method WriteICER(n: nat, value: u32)
      requires n < enable.Length
      modifies enable
      ensures enable[..] == ClearBits(old(enable[..]), n, value)
    {
      enable[n] := AndNot(enable[n], value);
    }

    method WriteISPR(n: nat, value: u32)
      requires n < pending.Length
      modifies pending
      ensures pending[..] == SetBits(old(pending[..]), n, value)
    {
      Pow2At32();
      OrFits(pending[n], value, 32);
      pending[n] := Or(pending[n], value);
    }

    method WriteICPR(n: nat, value: u32)
      requires n < pending.Length
      modifies pending
      ensures pending[..] == ClearBits(old(pending[..]), n, value)
    {
      pending[n] := AndNot(pending[n], value);
    }

    method WriteAIRCR(value: bv32)
      modifies this`aircr
      ensures aircr == WriteAircr(old(aircr), value)
    {
      if value >> 16 == VECTKEY {
        aircr := (VECTKEYSTAT << 16) | (aircr & ENDIANNESS_MSK) | (value & (PRIGROUP_MSK | SYSRESETREQ_MSK));
      }
    }

    // ---------- Access functions ----------

    method NVIC_EnableIRQ(irq: int)
      requires Valid() && External(irq)
      modifies enable
      ensures Valid() && Registers() == Step(bits, old(Registers()), Enable(irq))
      ensures View(bits, Registers()).enabled == old(View(bits, Registers()).enabled) + {irq}
    {
      IndexOfExternal(irq);
      StepRefines(bits, Registers(), Enable(irq));
      WriteISER(Shr(AsU32(irq), 5), Shl(1, And(AsU32(irq), 0x1F)));
    }

    method NVIC_DisableIRQ(irq: int)
      requires Valid() && External(irq)
      modifies enable
      ensures Valid() && Registers() == Step(bits, old(Registers()), Disable(irq))
      ensures View(bits, Registers()).enabled == old(View(bits, Registers()).enabled) - {irq}
    {
      IndexOfExternal(irq);
      StepRefines(bits, Registers(), Disable(irq));
      WriteICER(Shr(AsU32(irq), 5), Shl(1, And(AsU32(irq), 0x1F)));
    }

    method NVIC_SetPendingIRQ(irq: int)
      requires Valid() && External(irq)
      modifies pending
      ensures Valid() && Registers() == Step(bits, old(Registers()), SetPending(irq))
      ensures View(bits, Registers()).pending == old(View(bits, Registers()).pending) + {irq}
    {
      IndexOfExternal(irq);
      StepRefines(bits, Registers(), SetPending(irq));
      WriteISPR(Shr(AsU32(irq), 5), Shl(1, And(AsU32(irq), 0x1F)));
    }

    method NVIC_ClearPendingIRQ(irq: int)
      requires Valid() && External(irq)
      modifies pending
      ensures Valid() && Registers() == Step(bits, old(Registers()), ClearPending(irq))
      ensures View(bits, Registers()).pending == old(View(bits, Registers()).pending) - {irq}
    {
      IndexOfExternal(irq);
      StepRefines(bits, Registers(), ClearPending(irq));
      WriteICPR(Shr(AsU32(irq), 5), Shl(1, And(AsU32(irq), 0x1F)));
    }

    method NVIC_GetPendingIRQ(irq: int) returns (status: nat)
      requires Valid() && External(irq)
      ensures status == if irq in View(bits, Registers()).pending then 1 else 0
    {
      IndexOfExternal(irq);
      TestBitIsMembership(pending[..], irq);
      status := if And(pending[Shr(AsU32(irq), 5)], Shl(1, And(AsU32(irq), 0x1F))) != 0 then 1 else 0;
    }

    method NVIC_GetActive(irq: int) returns (status: nat)
      requires Valid() && External(irq)
      ensures status == if irq in View(bits, Registers()).active then 1 else 0
    {
      IndexOfExternal(irq);
      TestBitIsMembership(active[..], irq);
      status := if And(active[Shr(AsU32(irq), 5)], Shl(1, And(AsU32(irq), 0x1F))) != 0 then 1 else 0;
    }

    method NVIC_SetPriority(irq: int, priority: u32)
      requires Valid() && (External(irq) || System(irq))
      modifies ip, shp
      ensures Valid() && Registers() == Step(bits, old(Registers()), Prioritise(irq, priority))
      ensures View(bits, Registers()).priority
           == old(View(bits, Registers()).priority)[irq := priority % Pow2(bits)]
    {
      StepRefines(bits, Registers(), Prioritise(irq, priority));
      if irq < 0 {
        SlotOfSystem(irq);
        shp[(And(AsU32(irq), 0xF) + TWO_32 - 4) % TWO_32] := And(Shl(priority, 8 - bits), 0xFF);
      } else {
        ip[irq] := And(Shl(priority, 8 - bits), 0xFF);
      }
    }

    method NVIC_GetPriority(irq: int) returns (priority: nat)
      requires Valid() && (External(irq) || System(irq))
      ensures priority < Pow2(bits)
      ensures priority == View(bits, Registers()).priority[irq]
    {
      RawIsImplemented(bits, Registers(), irq);
      if irq < 0 {
        SlotOfSystem(irq);
        priority := Shr(shp[(And(AsU32(irq), 0xF) + TWO_32 - 4) % TWO_32], 8 - bits);
      } else {
        priority := Shr(ip[irq], 8 - bits);
      }
    }

    method NVIC_SetPriorityGrouping(group: u32)
      requires Valid()
      modifies this`aircr
      ensures Valid() && Registers() == Step(bits, old(Registers()), SetGrouping(group))
      ensures GetPriorityGrouping(Registers()) == group % 8
    {
      hide View;
      StepRefines(bits, Registers(), SetGrouping(group));
      AircrEffect(Registers(), group);
      var groupTmp := And(group, 0x07);
      assert groupTmp == GroupOf(group);
      var value := aircr;
      value := value & !(VECTKEY_MSK | PRIGROUP_MSK);
      value := value | (VECTKEY << 16) | ((groupTmp as bv32) << 8);
      WriteAIRCR(value);
    }

    /** The AIRCR write of NVIC_SystemReset. */
    method NVIC_SystemReset()
      requires Valid()
      modifies this`aircr
      ensures Valid() && Registers() == Step(bits, old(Registers()), RequestReset)
      ensures (aircr >> 2) & 1 == 1
      ensures GetPriorityGrouping(Registers()) == old(GetPriorityGrouping(Registers()))
    {
      StepRefines(bits, Registers(), RequestReset);
      AircrEffect(Registers(), 0);
      WriteAIRCR((VECTKEY << 16) | (aircr & PRIGROUP_MSK) | SYSRESETREQ_MSK);
    }

    method SysTick_Config(ticks: u32) returns (status: nat)
      requires Valid()
      modifies this`tickCtrl, this`tickLoad, this`tickVal, ip, shp
      ensures Valid()
      ensures status == if 1 <= ticks <= 0x100_0000 then 0 else 1
      ensures status == 1 ==> Registers() == old(Registers()) && Tick() == old(Tick())
      ensures status == 0 ==>
                && !Rejected(ticks) && Tick() == Configured(ticks)
                && Registers() == Step(bits, old(Registers()), Prioritise(SYSTICK_IRQ, LowestPriority(bits)))
      ensures status == 0 ==>
                && tickLoad == ticks - 1 && tickVal == 0 && (forall k: nat :: Bit(tickCtrl, k) <==> k < 3)
                && View(bits, Registers()).priority == old(View(bits, Registers()).priority)[-1 := Pow2(bits) - 1]
    {
      hide View, Step, Bit, WellFormed;
      AcceptedRange(ticks);
      StartedBits(ReloadOf(ticks));
      SmallMod(LowestPriority(bits), Pow2(bits));
      if (ticks + TWO_32 - 1) % TWO_32 > RELOAD_MSK {
        return 1;
      }
      tickLoad := (ticks + TWO_32 - 1) % TWO_32;
      NVIC_SetPriority(SYSTICK_IRQ, LowestPriority(bits));
      tickVal := 0;
      tickCtrl := CLKSOURCE_MSK + TICKINT_MSK + ENABLE_MSK;
      status := 0;
    }
  }
}
