/** What a finished boot leaves in the registers, bit by bit, and the clocks that the RCC
    driver (RCC_GetClocksFreq of stm32f4xx_rcc.c) reads from them.
 */
module BusClocks {
  import opened Words
  import opened ClockTree
  import opened Boot
  import opened BootSafety
  import opened ClockRegisters
  import opened BootReadBack

  // ---------- The final registers ----------

  /** Bits of the registers after a boot that ends on the PLL, or falls back; HSEBYP is set
      exactly for a bypass device or where it was kept. */
  predicate FinalWords(d: Device, r: Registers, onPll: bool, bypassKept: bool) {
    && r.cr & 0x0000_0001 != 0 && r.cr & 0x0008_0000 == 0
    && (d.UsesHse() ==> r.cr & 0x0001_0000 != 0)
    && (r.cr & 0x0004_0000 != 0 <==> bypassKept || d.source == HseBypass)
    && r.cfgr & 0x00F0 == 0 && r.cir == 0 && r.vtor == 0x0800_0000
    && if onPll then PllWords(d, r) else FallbackWords(r)
  }

  predicate PllWords(d: Device, r: Registers) {
    && r.cr & 0x0100_0000 != 0 && r.pllcfgr == PackPll(d)
    && r.cfgr & 0x3 == 2 && r.cfgr & 0x1C00 == d.ppre1 && r.cfgr & 0xE000 == d.ppre2
    && r.acr == 0x0700 | d.latency
    && r.apb1enr & 0x1000_0000 != 0 && r.pwrcr & 0xC000 == 0xC000
    && (d.overdrive ==> r.pwrcr & 0x0001_0000 != 0 && r.pwrcr & 0x0002_0000 != 0)
  }

  predicate FallbackWords(r: Registers) {
    r.cfgr & 0x3 == 0 && r.cfgr & 0x1C00 == 0 && r.cfgr & 0xE000 == 0 && r.pllcfgr == 0x2400_3010
  }

  lemma PllRegisters(b: Board, m: Machine, r: Registers)
    requires PllConfigured(b, m) && m.clock.sw == SW_PLL && Unpack(r) == m.clock
    ensures PllWords(b.device, r)
  {
    hide PackPll, Has, HasAll, Field;
    CrByBits(r);
    CfgrFieldsByBits(r);
    PowerByBits(r);
    UnpackedWords(r);
    assert ACR_CACHES == 0x0700;
  }

  lemma UnpackedWords(r: Registers)
    ensures var c := Unpack(r);
            c.pllcfgr == r.pllcfgr && c.cir == r.cir && c.acr == r.acr && c.vtor == r.vtor
  {
    hide Has, HasAll, Field;
  }

  /** The registers of a finished boot. */
  lemma FinalRegisters(b: Board, m: Machine, r: Registers)
    requires Finished(b, m) && Unpack(r) == m.clock
    ensures FinalWords(b.device, r, m.clock.sw == SW_PLL, m.bypassKept)
    ensures m.clock.sw != SW_PLL ==> (r.cr & 0x0100_0000 != 0 <==> m.pllKept)
  {
    hide PackPll, Unpack, PllConfigured, PllWords;
    CrByBits(r);
    CfgrFieldsByBits(r);
    UnpackedWords(r);
    if m.clock.sw == SW_PLL {
      PllRegisters(b, m, r);
    }
  }

  // ---------- The bus clocks ----------

  /** APBAHBPrescTable */
  const APB_AHB_PRESC_TABLE: seq<nat> := [0, 0, 0, 0, 1, 2, 3, 4, 1, 2, 3, 4, 6, 7, 8, 9]

  /** The driver's table and the one of SystemCoreClockUpdate agree on exactly the HPRE codes
      0 to 3 and 8 to 15; codes 4 to 7 are divided by the driver only. */
  lemma TablesAgreeIff(code: nat)
    requires code < 16
    ensures APB_AHB_PRESC_TABLE[code] == AHB_PRESC_TABLE[code] <==> code < 4 || code >= 8
  {
  }

  function Pclk1Code(cfgr: bv32): (i: nat)
    ensures i < 8
  {
    assert (cfgr & CFGR_PPRE1) >> 10 <= 7;
    ((cfgr & CFGR_PPRE1) >> 10) as nat
  }

  function Pclk2Code(cfgr: bv32): (i: nat)
    ensures i < 8
  {
    assert (cfgr & CFGR_PPRE2) >> 13 <= 7;
    ((cfgr & CFGR_PPRE2) >> 13) as nat
  }

  function Pclk1(hclk: nat, cfgr: bv32): nat {
    Shr(hclk, APB_AHB_PRESC_TABLE[Pclk1Code(cfgr)])
  }

  function Pclk2(hclk: nat, cfgr: bv32): nat {
    Shr(hclk, APB_AHB_PRESC_TABLE[Pclk2Code(cfgr)])
  }

  lemma ApbCodes(cfgr: bv32)
    ensures cfgr & 0x1C00 == 0 ==> Pclk1Code(cfgr) == 0
    ensures cfgr & 0x1C00 == 0x1000 ==> Pclk1Code(cfgr) == 4
    ensures cfgr & 0x1C00 == 0x1400 ==> Pclk1Code(cfgr) == 5
    ensures cfgr & 0xE000 == 0 ==> Pclk2Code(cfgr) == 0
    ensures cfgr & 0xE000 == 0x8000 ==> Pclk2Code(cfgr) == 4
  {
  }

  lemma SmallShifts(x: nat)
    ensures Shr(x, 0) == x && Shr(x, 1) == x / 2 && Shr(x, 2) == x / 4
  {
    Pow2UpTo8();
  }

  // ---------- The families ----------

  /** Core and bus clocks, the clock for USB, and the flash wait states. */
  datatype Clocks = Clocks(hclk: nat, pclk1: nat, pclk2: nat, usb: nat, waitStates: bv32)

  /** VCO / PLLQ */
  function Usb(source: PllSource, pllcfgr: bv32, hse: u32, hsi: u32): nat
    requires PllMField(pllcfgr) != 0 && PllQField(pllcfgr) != 0
  {
    MAsNumber(pllcfgr);
    NonZero(PllQField(pllcfgr));
    var vco := Vco(PllInput(source, hse, hsi, PllSourceField(pllcfgr) != 0), PllM(pllcfgr), PllN(pllcfgr));
    QuotientFits(vco, PllQField(pllcfgr) as nat);
    vco / PllQField(pllcfgr) as nat
  }

  /** By the registers: with hse and hsi as frequencies of the oscillators. */
  function ClocksOf(d: Device, r: Registers, hse: u32, hsi: u32): Clocks
    requires r.cfgr & CFGR_SWS == SWS_PLL && PllMField(r.pllcfgr) != 0 && PllQField(r.pllcfgr) != 0
  {
    var hclk := CoreClock(d.source, hse, hsi, r.cfgr, r.pllcfgr);
    Clocks(hclk, Pclk1(hclk, r.cfgr), Pclk2(hclk, r.cfgr), Usb(d.source, r.pllcfgr, hse, hsi), r.acr & 0xF)
  }

  /** What each family's boot gives with an 8 MHz crystal and the 16 MHz oscillator. The
      prescalers, factors and wait states are those of the header comment of the source,
      except PLL_M, which is 25 there and 8 in the code, and the wait states of the F411,
      which are 3 there and 2 in the code. */
  function FamilyClocks(d: Device): Clocks {
    if d == F40_41xxx then Clocks(168_000_000, 42_000_000, 84_000_000, 48_000_000, 5)
    else if d == F427_F429 then Clocks(180_000_000, 45_000_000, 90_000_000, 51_428_571, 5)
    else if d == F401xx then Clocks(84_000_000, 42_000_000, 84_000_000, 48_000_000, 2)
    else Clocks(100_000_000, 50_000_000, 100_000_000, 57_142_857, 2)
  }

  predicate IsFamily(d: Device) {
    d in {F40_41xxx, F427_F429, F401xx, F411xE_HSI, F411xE_BYPASS}
  }

  lemma FamilyFrequency(d: Device)
    ensures IsFamily(d) ==> d.Valid() && Planned(d, 8_000_000, 16_000_000) == FamilyClocks(d).hclk
  {
    hide Planned;
    if IsFamily(d) {
      DeclaredIsPlanned(d);
      DeclaredValues();
    }
  }

  lemma WordsOfFamilies(r: Registers)
    ensures PllWords(F40_41xxx, r) ==>
              r.pllcfgr == 0x0740_5408 && r.cfgr & 0x1C00 == 0x1400 && r.cfgr & 0xE000 == 0x8000 && r.acr == 0x0705
    ensures PllWords(F427_F429, r) ==>
              r.pllcfgr == 0x0740_5A08 && r.cfgr & 0x1C00 == 0x1400 && r.cfgr & 0xE000 == 0x8000 && r.acr == 0x0705
    ensures PllWords(F401xx, r) ==>
              r.pllcfgr == 0x0741_5408 && r.cfgr & 0x1C00 == 0x1000 && r.cfgr & 0xE000 == 0 && r.acr == 0x0702
    ensures PllWords(F411xE_HSI, r) ==>
              r.pllcfgr == 0x0701_6410 && r.cfgr & 0x1C00 == 0x1000 && r.cfgr & 0xE000 == 0 && r.acr == 0x0702
    ensures PllWords(F411xE_BYPASS, r) ==>
              r.pllcfgr == 0x0741_6408 && r.cfgr & 0x1C00 == 0x1000 && r.cfgr & 0xE000 == 0 && r.acr == 0x0702
  {
    hide PackPll;
    FamilyWords();
  }

  /** The clocks that follow from SYSCLK and the words. */
  lemma BusesOf(hclk: nat, r: Registers)
    ensures r.cfgr & 0x1C00 == 0x1400 && r.cfgr & 0xE000 == 0x8000 ==>
              Pclk1(hclk, r.cfgr) == hclk / 4 && Pclk2(hclk, r.cfgr) == hclk / 2
    ensures r.cfgr & 0x1C00 == 0x1000 && r.cfgr & 0xE000 == 0 ==>
              Pclk1(hclk, r.cfgr) == hclk / 2 && Pclk2(hclk, r.cfgr) == hclk
  {
    hide Shr, Pclk1Code, Pclk2Code;
    ApbCodes(r.cfgr);
    SmallShifts(hclk);
  }

  /** M, N, Q and the source of the five words. */
  lemma FactorsOfWords()
    ensures PllM(0x0740_5408) == 8 && PllN(0x0740_5408) == 336 && PllQField(0x0740_5408) == 7
    ensures PllM(0x0740_5A08) == 8 && PllN(0x0740_5A08) == 360 && PllQField(0x0740_5A08) == 7
    ensures PllM(0x0741_5408) == 8 && PllN(0x0741_5408) == 336 && PllQField(0x0741_5408) == 7
    ensures PllM(0x0701_6410) == 16 && PllN(0x0701_6410) == 400 && PllQField(0x0701_6410) == 7
    ensures PllM(0x0741_6408) == 8 && PllN(0x0741_6408) == 400 && PllQField(0x0741_6408) == 7
    ensures PllSourceField(0x0740_5408) != 0 && PllSourceField(0x0740_5A08) != 0 && PllSourceField(0x0741_5408) != 0
    ensures PllSourceField(0x0701_6410) == 0 && PllSourceField(0x0741_6408) != 0
    ensures PllMField(0x0740_5408) != 0 && PllMField(0x0740_5A08) != 0 && PllMField(0x0741_5408) != 0
    ensures PllMField(0x0701_6410) != 0 && PllMField(0x0741_6408) != 0
  {
  }

  lemma SevenAsNumber()
    ensures (7 as bv32) as nat == 7
  {
  }

  lemma FamilyUsb(d: Device, r: Registers)
    requires IsFamily(d) && PllWords(d, r)
    ensures PllMField(r.pllcfgr) != 0 && PllQField(r.pllcfgr) != 0
    ensures Usb(d.source, r.pllcfgr, 8_000_000, 16_000_000) == FamilyClocks(d).usb
  {
    hide PllWords, PllMField, PllSourceField, PllM, PllN;
    WordsOfFamilies(r);
    FactorsOfWords();
    SevenAsNumber();
  }

  lemma FamilyWaitStates(d: Device, r: Registers)
    requires IsFamily(d) && PllWords(d, r)
    ensures r.acr & 0xF == FamilyClocks(d).waitStates
  {
    hide PllWords;
    WordsOfFamilies(r);
  }

  lemma FamilyBuses(d: Device, r: Registers)
    requires IsFamily(d) && PllWords(d, r)
    ensures Pclk1(FamilyClocks(d).hclk, r.cfgr) == FamilyClocks(d).pclk1
    ensures Pclk2(FamilyClocks(d).hclk, r.cfgr) == FamilyClocks(d).pclk2
  {
    hide PllWords, Pclk1, Pclk2;
    WordsOfFamilies(r);
    BusesOf(FamilyClocks(d).hclk, r);
  }

  /** A finished boot of a family that runs from its PLL has the family's clocks. */
  lemma FamilyBoot(b: Board, m: Machine, r: Registers)
    requires IsFamily(b.device)
    requires Finished(b, m) && Unpack(r) == m.clock && m.clock.sw == SW_PLL && SourceOf(r.cfgr) == SW_PLL
    ensures r.cfgr & CFGR_SWS == SWS_PLL && PllMField(r.pllcfgr) != 0 && PllQField(r.pllcfgr) != 0
    ensures ClocksOf(b.device, r, 8_000_000, 16_000_000) == FamilyClocks(b.device)
  {
    hide PllWords, Unpack, SourceOf, PllMField, PllQField, CoreClock, Pclk1, Pclk2, Usb, Finished, PllConfigured,
         Planned, FamilyClocks, IsFamily;
    FamilyFrequency(b.device);
    ConfiguredBoot(b, m);
    PllRegisters(b, m, r);
    SwitchStatus(r.cfgr);
    ReadBack(b, m, r, 8_000_000, 16_000_000);
    FamilyUsb(b.device, r);
    FamilyWaitStates(b.device, r);
    FamilyBuses(b.device, r);
  }

  lemma ConfiguredBoot(b: Board, m: Machine)
    requires Finished(b, m) && m.clock.sw == SW_PLL
    ensures PllConfigured(b, m)
  {
  }

  lemma DeclaredValues()
    ensures F40_41xxx.declared == 168_000_000 && F427_F429.declared == 180_000_000
    ensures F401xx.declared == 84_000_000
    ensures F411xE_HSI.declared == 100_000_000 && F411xE_BYPASS.declared == 100_000_000
  {
  }
}
