/** The clock registers of the STM32F4 and the clock computation of
    USER/system_stm32f4xx.c.

    Registers are 32-bit vectors with the masks of USER/stm32f4xx.h; field values enter
    the frequency arithmetic as natural numbers, cut to 32 bits where the source's
    unsigned arithmetic can wrap.
 */
module ClockTree {
  import opened Words

  // ---------- Devices ----------

  /** What the PLL is fed from, and how the external oscillator is started. */
  datatype PllSource = HseCrystal | HseBypass | Hsi

  /** One device family: the PLL factors, bus prescalers, flash wait states and start-up
      steps that the preprocessor selects. */
  datatype Device = Device(
    source: PllSource,
    pllM: bv32, pllN: bv32, pllP: bv32, pllQ: bv32,
    ppre1: bv32, ppre2: bv32,
    latency: bv32,
    overdrive: bool,
    declared: nat)
  {
    predicate Valid() {
      && 2 <= pllM <= 63 && pllN <= 511 && pllQ <= 15
      && (pllP == 2 || pllP == 4 || pllP == 6 || pllP == 8)
      && ppre1 & !CFGR_PPRE1 == 0 && ppre2 & !CFGR_PPRE2 == 0
      && latency & !ACR_LATENCY == 0
    }

    predicate UsesHse() {
      source != Hsi
    }
  }

  const F40_41xxx := Device(HseCrystal, 8, 336, 2, 7, PPRE1_DIV4, PPRE2_DIV2, 5, false, 168_000_000)
  const F427_F429 := Device(HseCrystal, 8, 360, 2, 7, PPRE1_DIV4, PPRE2_DIV2, 5, true, 180_000_000)
  const F401xx := Device(HseCrystal, 8, 336, 4, 7, PPRE1_DIV2, 0, 2, false, 84_000_000)
  const F411xE_HSI := Device(Hsi, 16, 400, 4, 7, PPRE1_DIV2, 0, 2, false, 100_000_000)
  const F411xE_BYPASS := Device(HseBypass, 8, 400, 4, 7, PPRE1_DIV2, 0, 2, false, 100_000_000)

  lemma FamiliesAreValid()
    ensures F40_41xxx.Valid() && F427_F429.Valid() && F401xx.Valid()
    ensures F411xE_HSI.Valid() && F411xE_BYPASS.Valid()
  {
  }

  // ---------- Register masks ----------

  const CR_HSION: bv32 := 0x0000_0001
  const CR_HSEON: bv32 := 0x0001_0000
  const CR_HSERDY: bv32 := 0x0002_0000
  const CR_HSEBYP: bv32 := 0x0004_0000
  const CR_CSSON: bv32 := 0x0008_0000
  const CR_PLLON: bv32 := 0x0100_0000
  const CR_PLLRDY: bv32 := 0x0200_0000

  const CFGR_SW: bv32 := 0x0000_0003
  const SW_HSI: bv32 := 0
  const SW_HSE: bv32 := 1
  const SW_PLL: bv32 := 2
  const CFGR_SWS: bv32 := 0x0000_000C
  const SWS_HSI: bv32 := 0x00
  const SWS_HSE: bv32 := 0x04
  const SWS_PLL: bv32 := 0x08
  const CFGR_HPRE: bv32 := 0x0000_00F0
  const HPRE_DIV1: bv32 := 0
  const CFGR_PPRE1: bv32 := 0x0000_1C00
  const PPRE1_DIV2: bv32 := 0x0000_1000
  const PPRE1_DIV4: bv32 := 0x0000_1400
  const CFGR_PPRE2: bv32 := 0x0000_E000
  const PPRE2_DIV2: bv32 := 0x0000_8000

  const PLLCFGR_PLLM: bv32 := 0x0000_003F
  const PLLCFGR_PLLN: bv32 := 0x0000_7FC0
  const PLLCFGR_PLLP: bv32 := 0x0003_0000
  const PLLCFGR_PLLSRC: bv32 := 0x0040_0000
  const PLLCFGR_PLLQ: bv32 := 0x0F00_0000

  const ACR_LATENCY: bv32 := 0x0000_000F

  // ---------- PLLCFGR ----------

  /** No bit outside the five fields is set. */
  predicate OnlyPllFields(w: bv32) {
    w & !(PLLCFGR_PLLM | PLLCFGR_PLLN | PLLCFGR_PLLP | PLLCFGR_PLLSRC | PLLCFGR_PLLQ) == 0
  }

  function PackFields(m: bv32, n: bv32, f: bv32, src: bv32, q: bv32): bv32 {
    m | (n << 6) | (f << 16) | src | (q << 24)
  }

  function DividerCode(p: bv32): bv32 {
    (p >> 1) - 1
  }

  /** The word SetSysClock writes to PLLCFGR. */
  function PackPll(d: Device): bv32 {
    PackFields(d.pllM, d.pllN, DividerCode(d.pllP), if d.UsesHse() then PLLCFGR_PLLSRC else 0, d.pllQ)
  }

  // The decoding expressions of SystemCoreClockUpdate.

  function PllSourceField(pllcfgr: bv32): bv32 {
    (pllcfgr & PLLCFGR_PLLSRC) >> 22
  }

  function PllMField(pllcfgr: bv32): bv32 {
    pllcfgr & PLLCFGR_PLLM
  }

  function PllNField(pllcfgr: bv32): bv32 {
    (pllcfgr & PLLCFGR_PLLN) >> 6
  }

  function PllPField(pllcfgr: bv32): bv32 {
    (((pllcfgr & PLLCFGR_PLLP) >> 16) + 1) * 2
  }

  function PllQField(pllcfgr: bv32): bv32 {
    (pllcfgr & PLLCFGR_PLLQ) >> 24
  }

  /** The decoded fields by bit number: PLLM is bits 5..0, PLLN 14..6, PLLP 17..16, the
      source bit 22, PLLQ 27..24. */
  lemma PllcfgrByBits(w: bv32)
    ensures PllMField(w) == w & 0x3F
    ensures PllNField(w) == (w >> 6) & 0x1FF
    ensures PllPField(w) == (((w >> 16) & 3) + 1) * 2
    ensures PllSourceField(w) == (w >> 22) & 1
    ensures PllQField(w) == (w >> 24) & 0xF
  {
    hide PllMField, PllNField, PllPField, PllSourceField, PllQField;
    MBits(w);
    NBits(w);
    DividerBits(w);
    SourceBit(w);
    QBits(w);
  }

  lemma MBits(w: bv32)
    ensures PllMField(w) == w & 0x3F
  {
  }

  lemma NBits(w: bv32)
    ensures PllNField(w) == (w >> 6) & 0x1FF
  {
  }

  lemma DividerField(w: bv32)
    ensures (w & PLLCFGR_PLLP) >> 16 == (w >> 16) & 3
  {
  }

  lemma DividerBits(w: bv32)
    ensures PllPField(w) == (((w >> 16) & 3) + 1) * 2
  {
    DividerField(w);
  }

  lemma QBits(w: bv32)
    ensures PllQField(w) == (w >> 24) & 0xF
  {
  }

  lemma SourceBit(w: bv32)
    ensures PllSourceField(w) == (w >> 22) & 1
    ensures PllSourceField(w) != 0 <==> (w >> 22) & 1 == 1
  {
  }

  /** CFGR by bit number: the clock in use is bits 3..2, HPRE bits 7..4. */
  lemma CfgrByBits(cfgr: bv32)
    ensures cfgr & CFGR_SWS == SWS_PLL <==> (cfgr >> 2) & 3 == 2
    ensures cfgr & CFGR_SWS == SWS_HSE <==> (cfgr >> 2) & 3 == 1
    ensures cfgr & CFGR_SWS == SWS_HSI <==> (cfgr >> 2) & 3 == 0
    ensures (cfgr & CFGR_HPRE) >> 4 == (cfgr >> 4) & 0xF
  {
  }

  /** The packed fields do not overlap, no other bit is set, and each is at its bits: PLLM in
      5..0, PLLN in 14..6, PLLP / 2 - 1 in 17..16, the source in 22, PLLQ in 27..24; decoding
      recovers each of them. */
  lemma PackedFieldsAreRecovered(d: Device)
    requires d.Valid()
    ensures var w := PackPll(d);
            && PllMField(w) == d.pllM
            && PllNField(w) == d.pllN
            && PllPField(w) == d.pllP
            && PllQField(w) == d.pllQ
            && (PllSourceField(w) != 0 <==> d.UsesHse())
            && w & 0x3F == d.pllM && (w >> 6) & 0x1FF == d.pllN && (((w >> 16) & 3) + 1) * 2 == d.pllP
            && ((w >> 22) & 1 == 1 <==> d.UsesHse()) && (w >> 24) & 0xF == d.pllQ
            && w & 0xF0BC_8000 == 0
  {
    hide PllMField, PllNField, PllPField, PllQField, PllSourceField, PackFields, DividerCode, OnlyPllFields;
    PllcfgrByBits(PackPll(d));
    SourceBit(PackPll(d));
    OtherBits(PackPll(d));
    DividerIsCoded(d.pllP);
    PackedFields(d.pllM, d.pllN, DividerCode(d.pllP), if d.UsesHse() then PLLCFGR_PLLSRC else 0, d.pllQ);
  }

  lemma OtherBits(w: bv32)
    ensures OnlyPllFields(w) <==> w & 0xF0BC_8000 == 0
  {
  }

  /** The words that the five families write. */
  lemma FamilyWords()
    ensures PackPll(F40_41xxx) == 0x0740_5408
    ensures PackPll(F427_F429) == 0x0740_5A08
    ensures PackPll(F401xx) == 0x0741_5408
    ensures PackPll(F411xE_HSI) == 0x0701_6410
    ensures PackPll(F411xE_BYPASS) == 0x0741_6408
  {
  }

  lemma PackedFields(m: bv32, n: bv32, f: bv32, src: bv32, q: bv32)
    requires m <= 63 && n <= 511 && f <= 3 && q <= 15 && (src == 0 || src == PLLCFGR_PLLSRC)
    ensures var w := PackFields(m, n, f, src, q);
            && PllMField(w) == m && PllNField(w) == n && PllPField(w) == (f + 1) * 2 && PllQField(w) == q
            && (PllSourceField(w) != 0 <==> src != 0)
            && OnlyPllFields(w)
  {
    hide PackFields, PllMField, PllNField, PllQField, PllSourceField, OnlyPllFields;
    MIsRecovered(m, n, f, src, q);
    NIsRecovered(m, n, f, src, q);
    PIsRecovered(m, n, f, src, q);
    QIsRecovered(m, n, f, src, q);
    SourceIsRecovered(m, n, f, src, q);
    NoOtherBits(m, n, f, src, q);
  }

  lemma DividerIsCoded(p: bv32)
    requires p == 2 || p == 4 || p == 6 || p == 8
    ensures DividerCode(p) <= 3 && (DividerCode(p) + 1) * 2 == p
  {
  }

  lemma MIsRecovered(m: bv32, n: bv32, f: bv32, src: bv32, q: bv32)
    requires m <= 63 && n <= 511 && f <= 3 && q <= 15 && (src == 0 || src == PLLCFGR_PLLSRC)
    ensures var w := PackFields(m, n, f, src, q);
            PllMField(w) == m
  {
  }

  lemma NIsRecovered(m: bv32, n: bv32, f: bv32, src: bv32, q: bv32)
    requires m <= 63 && n <= 511 && f <= 3 && q <= 15 && (src == 0 || src == PLLCFGR_PLLSRC)
    ensures var w := PackFields(m, n, f, src, q);
            PllNField(w) == n
  {
  }

  lemma PIsRecovered(m: bv32, n: bv32, f: bv32, src: bv32, q: bv32)
    requires m <= 63 && n <= 511 && f <= 3 && q <= 15 && (src == 0 || src == PLLCFGR_PLLSRC)
    ensures var w := PackFields(m, n, f, src, q);
            (w & PLLCFGR_PLLP) >> 16 == f
  {
  }

  lemma SourceIsRecovered(m: bv32, n: bv32, f: bv32, src: bv32, q: bv32)
    requires m <= 63 && n <= 511 && f <= 3 && q <= 15 && (src == 0 || src == PLLCFGR_PLLSRC)
    ensures var w := PackFields(m, n, f, src, q);
            PllSourceField(w) != 0 <==> src != 0
  {
  }

  lemma QIsRecovered(m: bv32, n: bv32, f: bv32, src: bv32, q: bv32)
    requires m <= 63 && n <= 511 && f <= 3 && q <= 15 && (src == 0 || src == PLLCFGR_PLLSRC)
    ensures var w := PackFields(m, n, f, src, q);
            PllQField(w) == q
  {
  }

  lemma NoOtherBits(m: bv32, n: bv32, f: bv32, src: bv32, q: bv32)
    requires m <= 63 && n <= 511 && f <= 3 && q <= 15 && (src == 0 || src == PLLCFGR_PLLSRC)
    ensures var w := PackFields(m, n, f, src, q);
            OnlyPllFields(w)
  {
  }

  // ---------- Clock computation ----------

  /** AHBPrescTable */
  const AHB_PRESC_TABLE: seq<nat> := [0, 0, 0, 0, 0, 0, 0, 0, 1, 2, 3, 4, 6, 7, 8, 9]

  function HpreIndex(cfgr: bv32): (i: nat)
    ensures i < 16
  {
    assert (cfgr & CFGR_HPRE) >> 4 <= 15;
    ((cfgr & CFGR_HPRE) >> 4) as nat
  }

  function AhbShift(cfgr: bv32): nat {
    AHB_PRESC_TABLE[HpreIndex(cfgr)]
  }

  /** By bits 7..4 of CFGR the divisor is the one of the prescaler encodings of the RCC
      driver header; the codes without an encoding, 1 to 7, count as undivided. */
  lemma AhbTableMatchesEncodings(cfgr: bv32)
    ensures var code := (cfgr >> 4) & 0xF;
            && (code < 8 ==> Pow2(AhbShift(cfgr)) == 1)
            && (code == 0x8 ==> Pow2(AhbShift(cfgr)) == 2)
            && (code == 0x9 ==> Pow2(AhbShift(cfgr)) == 4)
            && (code == 0xA ==> Pow2(AhbShift(cfgr)) == 8)
            && (code == 0xB ==> Pow2(AhbShift(cfgr)) == 16)
            && (code == 0xC ==> Pow2(AhbShift(cfgr)) == 64)
            && (code == 0xD ==> Pow2(AhbShift(cfgr)) == 128)
            && (code == 0xE ==> Pow2(AhbShift(cfgr)) == 256)
            && (code == 0xF ==> Pow2(AhbShift(cfgr)) == 512)
  {
    HpreByBits(cfgr);
    CodeAsNumber((cfgr >> 4) & 0xF);
    Pow2UpTo8();
    assert Pow2(9) == 2 * Pow2(8);
  }

  lemma HpreByBits(cfgr: bv32)
    ensures HpreIndex(cfgr) == ((cfgr >> 4) & 0xF) as nat
  {
    CfgrByBits(cfgr);
  }

  lemma CodeAsNumber(code: bv32)
    requires code <= 0xF
    ensures code < 8 ==> code as nat < 8
    ensures code == 8 ==> code as nat == 8
    ensures code == 9 ==> code as nat == 9
    ensures code == 10 ==> code as nat == 10
    ensures code == 11 ==> code as nat == 11
    ensures code == 12 ==> code as nat == 12
    ensures code == 13 ==> code as nat == 13
    ensures code == 14 ==> code as nat == 14
    ensures code == 15 ==> code as nat == 15
  {
  }

  /** pllvco, in unsigned 32-bit steps */
  function Vco(src: u32, m: nat, n: nat): u32
    requires m > 0
  {
    ((src / m) * n) % TWO_32
  }

  /** The PLL output. */
  function PllClock(src: u32, m: nat, n: nat, p: nat): u32
    requires m > 0 && p > 0
  {
    QuotientFits(Vco(src, m, n), p);
    Vco(src, m, n) / p
  }

  lemma QuotientFits(x: u32, p: nat)
    requires p > 0
    ensures 0 <= x / p < TWO_32
  {
    QuotientIsNatural(x, p);
  }

  // The decoded factors as numbers.

  function PllM(pllcfgr: bv32): nat {
    PllMField(pllcfgr) as nat
  }

  function PllN(pllcfgr: bv32): nat {
    PllNField(pllcfgr) as nat
  }

  function PllP(pllcfgr: bv32): nat {
    PllPField(pllcfgr) as nat
  }

  lemma NAsNumber(pllcfgr: bv32)
    ensures PllN(pllcfgr) < 512
  {
    assert PllNField(pllcfgr) <= 511;
  }

  lemma MAsNumber(pllcfgr: bv32)
    requires PllMField(pllcfgr) != 0
    ensures 0 < PllM(pllcfgr) < 64
  {
    var m := PllMField(pllcfgr);
    assert m <= 63;
    assert m == (m as nat) as bv32;
  }

  lemma PAsNumber(pllcfgr: bv32)
    ensures PllP(pllcfgr) in {2, 4, 6, 8}
  {
    var f := (pllcfgr & PLLCFGR_PLLP) >> 16;
    assert f == 0 || f == 1 || f == 2 || f == 3;
  }

  /** HSE_BYPASS_INPUT_FREQUENCY */
  const HSE_BYPASS_INPUT_FREQUENCY: u32 := 8_000_000

  /** What is divided by PLL_M, by the build and the PLL source bit. The two F411 builds
      know only the source they configure, and leave pllvco at 0 for the other one. */
  function VcoInput(source: PllSource, hse: u32, hsi: u32, fromHse: bool): u32 {
    match source
    case HseCrystal => if fromHse then hse else hsi
    case HseBypass => if fromHse then HSE_BYPASS_INPUT_FREQUENCY else 0
    case Hsi => if fromHse then 0 else hsi
  }

  /** What the hardware feeds to the PLL. */
  function PllInput(source: PllSource, hse: u32, hsi: u32, fromHse: bool): u32 {
    if !fromHse then hsi else if source == HseBypass then HSE_BYPASS_INPUT_FREQUENCY else hse
  }

  /** The build has a branch for this source. */
  predicate Knows(source: PllSource, fromHse: bool) {
    source == HseCrystal || (source == HseBypass && fromHse) || (source == Hsi && !fromHse)
  }

  /** SYSCLK as SystemCoreClockUpdate, in the build for a PLL source, computes it from the
      registers. */
  function SysClock(source: PllSource, hse: u32, hsi: u32, cfgr: bv32, pllcfgr: bv32): u32
    requires cfgr & CFGR_SWS == SWS_PLL ==> PllMField(pllcfgr) != 0
  {
    var sws := cfgr & CFGR_SWS;
    if sws == SWS_HSI then hsi
    else if sws == SWS_HSE then hse
    else if sws == SWS_PLL then
      MAsNumber(pllcfgr);
      PAsNumber(pllcfgr);
      PllClock(VcoInput(source, hse, hsi, PllSourceField(pllcfgr) != 0),
               PllM(pllcfgr), PllN(pllcfgr), PllP(pllcfgr))
    else hsi
  }

  /** The value SystemCoreClockUpdate leaves in SystemCoreClock. */
  function CoreClock(source: PllSource, hse: u32, hsi: u32, cfgr: bv32, pllcfgr: bv32): nat
    requires cfgr & CFGR_SWS == SWS_PLL ==> PllMField(pllcfgr) != 0
  {
    Shr(SysClock(source, hse, hsi, cfgr, pllcfgr), AhbShift(cfgr))
  }

  // ---------- Distance from the exact frequency ----------

  /** R is the truncation of src * n / (m * d): what is lost is less than one unit of the
      result plus the remainder of the first division. */
  predicate Truncates(r: nat, src: nat, m: nat, n: nat, d: nat) {
    m * d * r <= src * n < m * d * (r + 1) + (m - 1) * n
  }

  lemma QuotientOf(v: nat, d: nat, r: nat)
    requires d > 0 && r == v / d
    ensures d * r <= v < d * (r + 1)
    ensures d * r == v <==> v % d == 0
  {
    assert d * (r + 1) == d * r + d;
  }

  /** m * (src / m) * n and src * n, with q = src / m and e = src % m */
  lemma ScaledSource(src: nat, m: nat, n: nat, q: nat, e: nat)
    requires src == m * q + e && e < m
    ensures src * n == m * (q * n) + e * n
    ensures 0 <= e * n <= (m - 1) * n
    ensures e * n == 0 <==> e == 0 || n == 0
  {
    assert (m * q + e) * n == m * q * n + e * n;
    assert m * q * n == m * (q * n);
  }

  lemma Scale(m: nat, x: nat, y: nat)
    requires m > 0 && x < y
    ensures m * x + m <= m * y
  {
    assert m * (x + 1) <= m * y;
  }

  lemma ScaleWeakly(m: nat, x: nat, y: nat)
    requires x <= y
    ensures m * x <= m * y
  {
  }

  lemma TruncatesWithoutWrap(src: nat, m: nat, n: nat, d: nat, r: nat)
    requires m > 0 && d > 0 && r == ((src / m) * n) / d
    ensures Truncates(r, src, m, n, d)
    ensures m * d * r == src * n <==> (src % m == 0 || n == 0) && ((src / m) * n) % d == 0
  {
    var v := (src / m) * n;
    QuotientOf(v, d, r);
    ScaledSource(src, m, n, src / m, src % m);
    ScaleWeakly(m, d * r, v);
    Scale(m, v, d * (r + 1));
    MulAssoc(m, d, r);
    MulAssoc(m, d, r + 1);
    if d * r < v {
      Scale(m, d * r, v);
    }
  }

  lemma WrapBreaksTruncation(src: nat, m: nat, n: nat, d: nat, r: nat)
    requires m > 0 && 0 < d <= 4096 && n <= 511
    requires (src / m) * n >= TWO_32 && r == (((src / m) * n) % TWO_32) / d
    ensures !Truncates(r, src, m, n, d)
  {
    var v := (src / m) * n;
    var w := v % TWO_32;
    QuotientOf(w, d, r);
    ScaledSource(src, m, n, src / m, src % m);
    assert d * (r + 1) == d * r + d;
    TooSmall(m, n, d * (r + 1), v);
    MulAssoc(m, d, r + 1);
  }

  lemma TooSmall(m: nat, n: nat, x: nat, v: nat)
    requires m > 0 && x + n <= v
    ensures m * x + (m - 1) * n <= m * v
  {
    ScaleWeakly(m, x + n, v);
    assert m * (x + n) == m * x + m * n;
    assert m * n == (m - 1) * n + n;
  }

  lemma TruncatesIffNoWrap(src: nat, m: nat, n: nat, d: nat, r: nat)
    requires m > 0 && 0 < d <= 4096 && n <= 511
    requires r == (((src / m) * n) % TWO_32) / d
    ensures (src / m) * n < TWO_32 <==> Truncates(r, src, m, n, d)
    ensures (src / m) * n < TWO_32 ==>
              (m * d * r == src * n <==> (src % m == 0 || n == 0) && ((src / m) * n) % d == 0)
  {
    var v := (src / m) * n;
    if v < TWO_32 {
      SmallMod(v, TWO_32);
      TruncatesWithoutWrap(src, m, n, d, r);
    } else {
      WrapBreaksTruncation(src, m, n, d, r);
    }
  }

  lemma ShiftedPllClock(src: u32, m: nat, n: nat, p: nat, k: nat)
    requires m > 0 && 1 <= p <= 8 && k <= 9
    ensures 0 < p * Pow2(k) <= 4096
    ensures Shr(PllClock(src, m, n, p), k) == (((src / m) * n) % TWO_32) / (p * Pow2(k))
  {
    DivisorBound(p, k);
    DivModProduct(((src / m) * n) % TWO_32, p, Pow2(k));
  }

  /** The computed frequency is the truncated exact one if and only if the VCO product
      fits 32 bits; without wrap it is the exact one if and only if both divisions are. */
  lemma PllClockIsTruncation(src: u32, m: nat, n: nat, p: nat, k: nat)
    requires 1 <= m && n <= 511 && 1 <= p <= 8 && k <= 9
    ensures var r := Shr(PllClock(src, m, n, p), k);
            var d := p * Pow2(k);
            && d > 0
            && ((src / m) * n < TWO_32 <==> Truncates(r, src, m, n, d))
            && ((src / m) * n < TWO_32 ==>
                  (m * d * r == src * n <==> (src % m == 0 || n == 0) && ((src / m) * n) % d == 0))
  {
    ShiftedPllClock(src, m, n, p, k);
    TruncatesIffNoWrap(src, m, n, p * Pow2(k), Shr(PllClock(src, m, n, p), k));
  }

  lemma DivisorBound(p: nat, k: nat)
    requires 1 <= p <= 8 && k <= 9
    ensures 0 < p * Pow2(k) <= 4096
  {
    Pow2Monotone(k, 9);
    Pow2UpTo8();
    assert Pow2(9) == 2 * Pow2(8);
    ProductBound(p, 8, Pow2(k), 512);
    ProductBound(1, p, 1, Pow2(k));
  }

  lemma ProductBound(x: nat, x': nat, y: nat, y': nat)
    requires x <= x' && y <= y'
    ensures x * y <= x' * y'
  {
    assert x * y <= x' * y <= x' * y';
  }

  lemma NoWrapInRange(src: u32, m: nat, n: nat)
    requires 1 <= m && src / m <= 2_000_000 && n <= 432
    ensures (src / m) * n < TWO_32
  {
    ProductBound(src / m, 2_000_000, n, 432);
  }

  /** The computed value against the input that the build assumes. */
  lemma CoreClockFromVco(source: PllSource, hse: u32, hsi: u32, cfgr: bv32, pllcfgr: bv32,
                         src: u32, m: nat, n: nat, d: nat)
    requires cfgr & CFGR_SWS == SWS_PLL && PllMField(pllcfgr) != 0
    requires src == VcoInput(source, hse, hsi, PllSourceField(pllcfgr) != 0)
    requires m == PllM(pllcfgr) && n == PllN(pllcfgr)
    requires d == PllP(pllcfgr) * Pow2(AhbShift(cfgr))
    ensures m > 0 && d > 0
    ensures var r := CoreClock(source, hse, hsi, cfgr, pllcfgr);
            && (Truncates(r, src, m, n, d) <==> (src / m) * n < TWO_32)
            && ((src / m) * n < TWO_32 ==>
                  (m * d * r == src * n <==> (src % m == 0 || n == 0) && ((src / m) * n) % d == 0))
            && (src / m <= 2_000_000 && n <= 432 ==> Truncates(r, src, m, n, d))
  {
    hide Truncates, PllClock, Shr;
    MAsNumber(pllcfgr);
    NAsNumber(pllcfgr);
    PAsNumber(pllcfgr);
    PllClockIsTruncation(src, m, n, PllP(pllcfgr), AhbShift(cfgr));
    if src / m <= 2_000_000 && n <= 432 {
      NoWrapInRange(src, m, n);
    }
  }

  lemma NothingIn(m: nat, n: nat, p: nat, k: nat)
    requires m > 0 && p > 0
    ensures Vco(0, m, n) == 0 && Shr(PllClock(0, m, n, p), k) == 0
  {
    SmallQuotient(0, m);
    SmallQuotient(0, p);
    SmallQuotient(0, Pow2(k));
  }

  /** An F411 build computes 0 for a PLL that runs from the source it does not know. */
  lemma UnknownSourceGivesZero(source: PllSource, hse: u32, hsi: u32, cfgr: bv32, pllcfgr: bv32)
    requires cfgr & CFGR_SWS == SWS_PLL && PllMField(pllcfgr) != 0
    requires !Knows(source, PllSourceField(pllcfgr) != 0)
    ensures CoreClock(source, hse, hsi, cfgr, pllcfgr) == 0
  {
    MAsNumber(pllcfgr);
    PAsNumber(pllcfgr);
    NothingIn(PllM(pllcfgr), PllN(pllcfgr), PllP(pllcfgr), AhbShift(cfgr));
  }

  /** SystemCoreClockUpdate against the PLL in use, in every build, from any registers
      that say the PLL is the clock; the fields are given by their bits, and d = PLLP * 2^k.
      In a build that knows its source the value is the truncated exact frequency if and only
      if nothing wraps, and without wrap the exact one if and only if both divisions are. In
      one that does not, the value is 0, which is right only for a frequency below what
      truncation loses. */
  lemma CoreClockFromPll(source: PllSource, hse: u32, hsi: u32, cfgr: bv32, pllcfgr: bv32,
                         src: u32, m: nat, n: nat, d: nat)
    requires (cfgr >> 2) & 3 == 2 && pllcfgr & 0x3F != 0
    requires src == PllInput(source, hse, hsi, (pllcfgr >> 22) & 1 == 1)
    requires m == (pllcfgr & 0x3F) as nat && n == ((pllcfgr >> 6) & 0x1FF) as nat
    requires d == ((((pllcfgr >> 16) & 3) + 1) * 2) as nat * Pow2(AhbShift(cfgr))
    ensures m > 0 && d > 0 && cfgr & CFGR_SWS == SWS_PLL && PllMField(pllcfgr) != 0
    ensures var r, known := CoreClock(source, hse, hsi, cfgr, pllcfgr), Knows(source, (pllcfgr >> 22) & 1 == 1);
            && (Truncates(r, src, m, n, d) <==>
                  if known then (src / m) * n < TWO_32 else src * n < m * d + (m - 1) * n)
            && (known && (src / m) * n < TWO_32 ==>
                  (m * d * r == src * n <==> (src % m == 0 || n == 0) && ((src / m) * n) % d == 0))
            && (known && src / m <= 2_000_000 && n <= 432 ==> Truncates(r, src, m, n, d))
            && (!known ==> r == 0)
  {
    hide CoreClock, PllSourceField, PllMField, PllNField, PllPField, AhbShift;
    CfgrByBits(cfgr);
    PllcfgrByBits(pllcfgr);
    SourceBit(pllcfgr);
    var fromHse := PllSourceField(pllcfgr) != 0;
    CoreClockFromVco(source, hse, hsi, cfgr, pllcfgr, VcoInput(source, hse, hsi, fromHse), m, n, d);
    if Knows(source, fromHse) {
      assert src == VcoInput(source, hse, hsi, fromHse);
      hide Truncates;
    } else {
      UnknownSourceGivesZero(source, hse, hsi, cfgr, pllcfgr);
      ZeroTruncates(src, m, n, d);
    }
  }

  lemma ZeroTruncates(src: nat, m: nat, n: nat, d: nat)
    requires m > 0
    ensures Truncates(0, src, m, n, d) <==> src * n < m * d + (m - 1) * n
  {
    assert m * d * (0 + 1) == m * d;
  }

  /** An F411 build for HSI whose PLL runs from an 8 MHz crystal at 168 MHz: the product
      does not wrap, and 0 is not its frequency. */
  lemma UnknownSourceIsWrong()
    ensures (8_000_000 / 8) * 336 < TWO_32 && !Truncates(0, 8_000_000, 8, 336, 2)
    ensures !Knows(Hsi, true) && PllInput(Hsi, 8_000_000, 16_000_000, true) == 8_000_000
  {
  }

  /** From any registers that say an oscillator is the clock, the unused fourth code
      counting as HSI: the oscillator divided by the AHB prescaler, rounded down. */
  lemma CoreClockFromOscillator(source: PllSource, hse: u32, hsi: u32, cfgr: bv32, pllcfgr: bv32)
    requires (cfgr >> 2) & 3 != 2
    ensures cfgr & CFGR_SWS != SWS_PLL
    ensures var r, d := CoreClock(source, hse, hsi, cfgr, pllcfgr), Pow2(AhbShift(cfgr));
            && ((cfgr >> 2) & 3 == 1 ==> d * r <= hse < d * (r + 1))
            && ((cfgr >> 2) & 3 != 1 ==> d * r <= hsi < d * (r + 1))
  {
    hide AhbShift;
    CfgrByBits(cfgr);
    QuotientOf(SysClock(source, hse, hsi, cfgr, pllcfgr), Pow2(AhbShift(cfgr)),
               CoreClock(source, hse, hsi, cfgr, pllcfgr));
  }
}
