/** Boot, then SystemCoreClockUpdate: the computed frequency, end to end, and how it
    compares with the value SystemCoreClock is declared with.
 */
module BootReadBack {
  import opened Words
  import opened ClockTree
  import opened Boot
  import opened BootSafety
  import opened BootSwitch
  import opened ClockRegisters

  /** The PLL frequency the device's factors stand for. */
  function Planned(d: Device, hse: u32, hsi: u32): u32
    requires d.Valid()
  {
    FactorsAsNumbers(d);
    PllClock(VcoInput(d.source, hse, hsi, d.UsesHse()), d.pllM as nat, d.pllN as nat, d.pllP as nat)
  }

  lemma NonZero(x: bv32)
    requires x != 0
    ensures x as nat > 0
  {
  }

  lemma FactorsAsNumbers(d: Device)
    requires d.Valid()
    ensures d.pllM as nat > 0 && d.pllP as nat > 0
  {
    NonZero(d.pllM);
    NonZero(d.pllP);
  }

  lemma NoPrescaler(cfgr: bv32, x: nat)
    requires Field(cfgr, CFGR_HPRE) == HPRE_DIV1
    ensures Shr(x, AhbShift(cfgr)) == x
  {
    assert (cfgr & CFGR_HPRE) >> 4 == 0;
    assert HpreIndex(cfgr) == 0;
  }

  lemma SwitchStatus(cfgr: bv32)
    ensures SourceOf(cfgr) == SW_PLL <==> cfgr & CFGR_SWS == SWS_PLL
    ensures SourceOf(cfgr) == SW_HSE <==> cfgr & CFGR_SWS == SWS_HSE
    ensures SourceOf(cfgr) == SW_HSI <==> cfgr & CFGR_SWS == SWS_HSI
  {
  }

  /** What the reset value of PLLCFGR stands for. */
  lemma ResetFactors()
    ensures PllM(PLLCFGR_RESET) == 16 && PllN(PLLCFGR_RESET) == 192 && PllP(PLLCFGR_RESET) == 2
    ensures PllMField(PLLCFGR_RESET) != 0 && PllSourceField(PLLCFGR_RESET) == 0
  {
  }

  /** What the build computes for a clock that is in use although PLLCFGR holds its reset
      value and HSI is requested; an F411 bypass build computes 0 for the PLL. */
  function Fallback(d: Device, clock: bv32, hse: u32, hsi: u32): u32 {
    if clock == SW_HSE then hse
    else if clock == SW_PLL then PllClock(VcoInput(d.source, hse, hsi, false), 16, 192, 2)
    else hsi
  }

  lemma PlannedIsComputed(d: Device, cfgr: bv32, hse: u32, hsi: u32)
    requires d.Valid() && cfgr & CFGR_SWS == SWS_PLL
    ensures PllMField(PackPll(d)) != 0
    ensures SysClock(d.source, hse, hsi, cfgr, PackPll(d)) == Planned(d, hse, hsi)
  {
    hide PackPll, PllSourceField, PllMField, PllNField, PllPField, PllClock;
    PackedFieldsAreRecovered(d);
  }

  lemma FallbackIsComputed(d: Device, cfgr: bv32, hse: u32, hsi: u32)
    requires d.Valid()
    ensures PllMField(PLLCFGR_RESET) != 0
    ensures SysClock(d.source, hse, hsi, cfgr, PLLCFGR_RESET) == Fallback(d, SourceOf(cfgr), hse, hsi)
  {
    hide SourceOf, PllM, PllN, PllP, PllMField, PllSourceField, PllClock;
    ResetFactors();
    SwitchStatus(cfgr);
  }

  /** After a finished boot the update computes the planned PLL frequency, or after the
      fallback what the build makes of the clock which is still in use. */
  lemma ReadBack(b: Board, m: Machine, r: Registers, hse: u32, hsi: u32)
    requires b.device.Valid() && Finished(b, m) && Unpack(r) == m.clock
    requires m.clock.sw == SW_PLL ==> SourceOf(r.cfgr) == SW_PLL
    ensures r.cfgr & CFGR_SWS == SWS_PLL ==> PllMField(r.pllcfgr) != 0
    ensures CoreClock(b.device.source, hse, hsi, r.cfgr, r.pllcfgr) ==
            if m.clock.sw == SW_PLL then Planned(b.device, hse, hsi)
            else Fallback(b.device, SourceOf(r.cfgr), hse, hsi)
  {
    hide PackPll, SysClock, Planned, Fallback, SourceOf, PllMField, AhbShift, Shr, PllConfigured;
    SwitchStatus(r.cfgr);
    if m.clock.sw == SW_PLL {
      ConfiguredPll(b, m);
      PlannedIsComputed(b.device, r.cfgr, hse, hsi);
    } else {
      FallbackIsComputed(b.device, r.cfgr, hse, hsi);
    }
    NoPrescaler(r.cfgr, SysClock(b.device.source, hse, hsi, r.cfgr, r.pllcfgr));
  }

  lemma ConfiguredPll(b: Board, m: Machine)
    requires PllConfigured(b, m)
    ensures m.clock.pllcfgr == PackPll(b.device)
  {
  }

  /** The registers r hold what the machine says, and show the clock that flags say is in
      use. */
  predicate Shows(r: Registers, m: Machine, f: Flags) {
    Unpack(r) == m.clock && SourceOf(r.cfgr) == f.source
  }

  /** End to end, from any registers and any clock in use, on hardware that switches only
      to what is requested: if the read after polling saw HSE ready, the PLL is the clock
      and the update computes its planned frequency. If not, HSI is requested, and it is
      what the update computes if the status showed HSI at some access after CFGR had been
      cleared; otherwise the clock of before is still in use, and that is computed. */
  lemma BootThenUpdate(b: Board, c: Clock, flags: nat -> Flags, t: nat, n: nat, r: Registers, hse: u32, hsi: u32)
    requires b.device.Valid()
    requires SwitchFollowsRequest(b, Start(c), flags, t)
    requires Run(b, Start(c), flags, t, n).pc == DONE
    requires Shows(r, Run(b, Start(c), flags, t, n), flags(t + n))
    ensures r.cfgr & CFGR_SWS == SWS_PLL ==> PllMField(r.pllcfgr) != 0
    ensures var f := CoreClock(b.device.source, hse, hsi, r.cfgr, r.pllcfgr);
            var seen, kept := OscillatorSeen(b, flags, t), flags(Cleared(t)).source;
            && (seen ==> SourceOf(r.cfgr) == SW_PLL && f == Planned(b.device, hse, hsi))
            && (!seen ==> Field(r.cfgr, CFGR_SW) == SW_HSI)
            && (!seen ==> (SourceOf(r.cfgr) == SW_HSI <==> HsiShown(flags, Cleared(t), t + n)))
            && (!seen && HsiShown(flags, Cleared(t), t + n) ==> f == hsi)
            && (!seen && !HsiShown(flags, Cleared(t), t + n) ==>
                  SourceOf(r.cfgr) == kept != SW_HSI && f == Fallback(b.device, kept, hse, hsi))
  {
    hide CoreClock, Planned, PllMField, Inv, SwitchFollowsRequest, OscillatorSeen, Finished, SourceOf, Field;
    var m := Run(b, Start(c), flags, t, n);
    RunHasInv(b, c, flags, t, n);
    Done(b, m);
    PathTaken(b, c, flags, t, n);
    RequestField(r);
    if OscillatorSeen(b, flags, t) {
      PllIsAcknowledged(b, c, flags, t, n);
    } else {
      FallbackStatus(b, c, flags, t, n);
      ShownAtTheClearing(b, c, flags, t, n);
    }
    ReadBack(b, m, r, hse, hsi);
  }

  /** From reset, where HSI is requested and in use, it is the planned frequency or HSI. */
  lemma ResetThenUpdate(b: Board, c: Clock, flags: nat -> Flags, t: nat, n: nat, r: Registers, hse: u32, hsi: u32)
    requires b.device.Valid() && c.sw == SW_HSI && flags(t).source == SW_HSI
    requires SwitchFollowsRequest(b, Start(c), flags, t)
    requires Run(b, Start(c), flags, t, n).pc == DONE
    requires Shows(r, Run(b, Start(c), flags, t, n), flags(t + n))
    ensures r.cfgr & CFGR_SWS == SWS_PLL ==> PllMField(r.pllcfgr) != 0
    ensures SourceOf(r.cfgr) == Field(r.cfgr, CFGR_SW)
    ensures CoreClock(b.device.source, hse, hsi, r.cfgr, r.pllcfgr) ==
            if OscillatorSeen(b, flags, t) then Planned(b.device, hse, hsi) else hsi
  {
    hide CoreClock, Planned, PllMField, SwitchFollowsRequest, OscillatorSeen, SourceOf, Field;
    BootThenUpdate(b, c, flags, t, n, r, hse, hsi);
    FromResetTheSwitchIsMade(b, c, flags, t, n);
    RequestField(r);
  }

  lemma RequestField(r: Registers)
    ensures Unpack(r).sw == Field(r.cfgr, CFGR_SW)
  {
    hide Has, HasAll, Field;
  }

  lemma Done(b: Board, m: Machine)
    requires Inv(b, m) && m.pc == DONE
    ensures Finished(b, m)
  {
  }

  lemma ShownAtTheClearing(b: Board, c: Clock, flags: nat -> Flags, t: nat, n: nat)
    requires n >= RESET_CFGR + 1
    ensures flags(Cleared(t)).source == SW_HSI ==> HsiShown(flags, Cleared(t), t + n)
  {
    assert ShowsHsi(flags, Cleared(t)) <==> flags(Cleared(t)).source == SW_HSI;
  }

  /** A restart of an F40/41 that runs from its PLL, with a crystal that is never seen ready,
      on hardware that has not left the PLL by the end of the boot: the PLL has stayed on,
      HSI is requested, and the update computes 96 MHz from a PLLCFGR that was written while
      the PLL was on. */
  lemma RestartWithoutCrystal(b: Board, c: Clock) returns (n: nat)
    requires b.device == F40_41xxx && c.pllon
    ensures var flags := Unready(SW_PLL, SW_PLL);
            var m := Run(b, Start(c), flags, 0, n);
            && FellBackAt(b, c, flags, n) && KeepsPll(c, flags, 0)
            && m.clock.sw == SW_HSI && m.clock.pllon
            && Run(b, Start(c), flags, 0, RESET_PLLCFGR).clock.pllon
            && forall r: Registers :: Shows(r, m, flags(n)) ==>
                 && r.cfgr & CFGR_SWS == SWS_PLL && PllMField(r.pllcfgr) != 0
                 && CoreClock(b.device.source, 8_000_000, 16_000_000, r.cfgr, r.pllcfgr) == 96_000_000
  {
    hide CoreClock, PllMField, SwitchFollowsRequest, OscillatorSeen, SourceOf, Unpack, Step, RequestIsSafe;
    n := UnreadyFallsBack(b, c, SW_PLL, SW_PLL);
    var flags := Unready(SW_PLL, SW_PLL);
    PathTaken(b, c, flags, 0, n);
    RunHasInv(b, c, flags, 0, n);
    Done(b, Run(b, Start(c), flags, 0, n));
    KeptSince(b, c, flags, 0, n);
    ResetStatements(b, c, flags, 0, RESET_PLLCFGR);
    BootIsSafe(b, c, flags, RESET_PLLCFGR);
    FellBackClock(b, Run(b, Start(c), flags, 0, n));
    forall r: Registers | Shows(r, Run(b, Start(c), flags, 0, n), flags(n))
      ensures && r.cfgr & CFGR_SWS == SWS_PLL && PllMField(r.pllcfgr) != 0
              && CoreClock(b.device.source, 8_000_000, 16_000_000, r.cfgr, r.pllcfgr) == 96_000_000
    {
      StillOnPll(b, Run(b, Start(c), flags, 0, n), r);
    }
  }

  lemma FellBackClock(b: Board, m: Machine)
    requires Finished(b, m) && m.clock.sw == SW_HSI
    ensures m.clock.pllon <==> m.pllKept
  {
  }

  lemma StillOnPll(b: Board, m: Machine, r: Registers)
    requires b.device == F40_41xxx && Finished(b, m) && m.clock.sw == SW_HSI
    requires Unpack(r) == m.clock && SourceOf(r.cfgr) == SW_PLL
    ensures r.cfgr & CFGR_SWS == SWS_PLL && PllMField(r.pllcfgr) != 0
    ensures CoreClock(b.device.source, 8_000_000, 16_000_000, r.cfgr, r.pllcfgr) == 96_000_000
  {
    hide Finished, Unpack, CoreClock, PllMField, SourceOf;
    FamiliesAreValid();
    SwitchStatus(r.cfgr);
    ReadBack(b, m, r, 8_000_000, 16_000_000);
  }

  // ---------- The declared value ----------

  // The VCO product of each family, cut to 32 bits, for every input after PLL_M.

  lemma VcoOf336(q: nat)
    requires q < 0x2000_0000
    ensures q * 336 % TWO_32 / 2 == 168_000_000 <==> q == 1_000_000 || q == 1_000_000 + 0x1000_0000
    ensures q * 336 % TWO_32 / 4 == 84_000_000 <==> q == 1_000_000 || q == 1_000_000 + 0x1000_0000
  {
    var j := q * 336 / TWO_32;
    assert 0 <= j < 42;
    assert q * 336 % TWO_32 == 16 * (21 * q - j * 0x1000_0000);
    if q * 336 % TWO_32 / 2 == 168_000_000 || q * 336 % TWO_32 / 4 == 84_000_000 {
      assert 21 * (q - 1_000_000) == j * 0x1000_0000;
      assert j % 21 == 0;
    }
  }

  lemma VcoOf360(q: nat)
    requires q < 0x2000_0000
    ensures q * 360 % TWO_32 / 2 == 180_000_000 <==> q == 1_000_000
  {
    var j := q * 360 / TWO_32;
    assert 0 <= j < 45;
    assert q * 360 % TWO_32 == 8 * (45 * q - j * 0x2000_0000);
    if q * 360 % TWO_32 / 2 == 180_000_000 {
      assert 45 * (q - 1_000_000) == j * 0x2000_0000;
      assert j % 45 == 0;
    }
  }

  lemma VcoOf400(q: nat)
    requires q < 0x1000_0000
    ensures q * 400 % TWO_32 / 4 == 100_000_000 <==> q == 1_000_000
  {
    var j := q * 400 / TWO_32;
    assert 0 <= j < 25;
    assert q * 400 % TWO_32 == 16 * (25 * q - j * 0x1000_0000);
    if q * 400 % TWO_32 / 4 == 100_000_000 {
      assert 25 * (q - 1_000_000) == j * 0x1000_0000;
      assert j % 25 == 0;
    }
  }

  /** Crystals from 8 MHz to 7 Hz above. */
  predicate EightMegahertz(f: u32) {
    8_000_000 <= f <= 8_000_007
  }

  /** The inputs for which the declared value is right. With a factor of 336 the product
      wraps onto the right one for eight more crystals; the F411 build with bypass knows
      its input frequency. */
  predicate Declares(d: Device, hse: u32, hsi: u32) {
    if d == F40_41xxx || d == F401xx then EightMegahertz(hse) || 2_155_483_648 <= hse <= 2_155_483_655
    else if d == F427_F429 then EightMegahertz(hse)
    else if d == F411xE_HSI then 16_000_000 <= hsi <= 16_000_015
    else true
  }

  lemma PllClockOf(src: u32, m: nat, n: nat, p: nat)
    requires m > 0 && p > 0
    ensures PllClock(src, m, n, p) == (src / m) * n % TWO_32 / p
  {
  }

  lemma FactorsOfFamilies(hse: u32, hsi: u32)
    ensures F40_41xxx.Valid() && Planned(F40_41xxx, hse, hsi) == PllClock(hse, 8, 336, 2)
    ensures F427_F429.Valid() && Planned(F427_F429, hse, hsi) == PllClock(hse, 8, 360, 2)
    ensures F401xx.Valid() && Planned(F401xx, hse, hsi) == PllClock(hse, 8, 336, 4)
    ensures F411xE_HSI.Valid() && Planned(F411xE_HSI, hse, hsi) == PllClock(hsi, 16, 400, 4)
    ensures F411xE_BYPASS.Valid() && Planned(F411xE_BYPASS, hse, hsi) == PllClock(8_000_000, 8, 400, 4)
  {
    hide PllClock;
  }

  /** For every family and all oscillators, with the 32-bit wrap: exactly when the planned
      frequency is the declared one. */
  lemma DeclaredIff(d: Device, hse: u32, hsi: u32)
    requires d in {F40_41xxx, F427_F429, F401xx, F411xE_HSI, F411xE_BYPASS}
    ensures d.Valid() && (Planned(d, hse, hsi) == d.declared <==> Declares(d, hse, hsi))
  {
    hide Planned, PllClock;
    FactorsOfFamilies(hse, hsi);
    if d == F40_41xxx {
      PllClockOf(hse, 8, 336, 2);
      VcoOf336(hse / 8);
    } else if d == F427_F429 {
      PllClockOf(hse, 8, 360, 2);
      VcoOf360(hse / 8);
    } else if d == F401xx {
      PllClockOf(hse, 8, 336, 4);
      VcoOf336(hse / 8);
    } else if d == F411xE_HSI {
      PllClockOf(hsi, 16, 400, 4);
      VcoOf400(hsi / 16);
    } else {
      PllClockOf(8_000_000, 8, 400, 4);
    }
  }

  /** Each family's initial SystemCoreClock is the planned frequency for an 8 MHz crystal
      and the 16 MHz internal oscillator. */
  lemma DeclaredIsPlanned(d: Device)
    requires d in {F40_41xxx, F427_F429, F401xx, F411xE_HSI, F411xE_BYPASS}
    ensures d.Valid() && Planned(d, 8_000_000, 16_000_000) == d.declared
  {
    hide Planned;
    DeclaredIff(d, 8_000_000, 16_000_000);
  }
}
