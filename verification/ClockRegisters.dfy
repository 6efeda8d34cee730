/** The clock, power, flash and system control registers as the 32-bit words the code reads
    and writes, and what each of its masked writes means for the fields of module Boot.
 */
module ClockRegisters {
  import opened Words
  import opened ClockTree
  import opened Boot

  // ---------- Masks ----------

  /** Bits of RCC_CR that only hardware writes: ready flags and calibration. */
  const CR_STATUS: bv32 := 0x2A02_FF02
  const APB1ENR_PWREN: bv32 := 0x1000_0000
  const PWR_VOS: bv32 := 0x0000_C000
  const PWR_ODEN: bv32 := 0x0001_0000
  const PWR_ODSWEN: bv32 := 0x0002_0000
  const CSR_ODRDY: bv32 := 0x0001_0000
  const CSR_ODSWRDY: bv32 := 0x0002_0000
  const CPACR_FPU: bv32 := 0x00F0_0000
  const ALL: bv32 := 0xFFFF_FFFF

  predicate Has(word: bv32, mask: bv32) {
    word & mask != 0
  }

  predicate HasAll(word: bv32, mask: bv32) {
    word & mask == mask
  }

  function Field(word: bv32, mask: bv32): bv32 {
    word & mask
  }

  /** The clock in use, coded like the SW field. */
  function SourceOf(cfgr: bv32): bv32 {
    Field(cfgr, CFGR_SWS) >> 2
  }

  // ---------- Registers ----------

  datatype Register = CPACR | CR | CFGR | PLLCFGR | CIR | APB1ENR | PWR_CR | ACR | VTOR

  datatype Registers = Registers(
    cpacr: bv32, cr: bv32, cfgr: bv32, pllcfgr: bv32, cir: bv32,
    apb1enr: bv32, pwrcr: bv32, acr: bv32, vtor: bv32)

  /** Software bits from `software`, the bits of `mask` from the hardware. */
  function Mix(software: bv32, hardware: bv32, mask: bv32): bv32 {
    (software & !mask) | (hardware & mask)
  }

  function Read(r: Registers, which: Register): bv32 {
    match which
    case CPACR => r.cpacr
    case CR => r.cr
    case CFGR => r.cfgr
    case PLLCFGR => r.pllcfgr
    case CIR => r.cir
    case APB1ENR => r.apb1enr
    case PWR_CR => r.pwrcr
    case ACR => r.acr
    case VTOR => r.vtor
  }

  function Stored(r: Registers, which: Register, w: bv32): Registers {
    match which
    case CPACR => r.(cpacr := w)
    case CR => r.(cr := w)
    case CFGR => r.(cfgr := w)
    case PLLCFGR => r.(pllcfgr := w)
    case CIR => r.(cir := w)
    case APB1ENR => r.(apb1enr := w)
    case PWR_CR => r.(pwrcr := w)
    case ACR => r.(acr := w)
    case VTOR => r.(vtor := w)
  }

  /** The bits of a register that only hardware writes. */
  function Status(which: Register): bv32 {
    match which
    case CR => CR_STATUS
    case CFGR => CFGR_SWS
    case _ => 0
  }

  /** A write; status bits ignore it. */
  function Written(r: Registers, which: Register, value: bv32): Registers {
    Stored(r, which, Mix(value, Read(r, which), Status(which)))
  }

  /** Read, keep the bits of `keep`, set those of `bits`, write back. */
  function Modified(r: Registers, which: Register, keep: bv32, bits: bv32): Registers {
    Written(r, which, Set(Read(r, which) & keep, bits))
  }

  function Unpack(r: Registers): Clock {
    Clock(
      hsion := Has(r.cr, CR_HSION),
      hseon := Has(r.cr, CR_HSEON),
      hsebyp := Has(r.cr, CR_HSEBYP),
      csson := Has(r.cr, CR_CSSON),
      pllon := Has(r.cr, CR_PLLON),
      sw := Field(r.cfgr, CFGR_SW),
      hpre := Field(r.cfgr, CFGR_HPRE),
      ppre1 := Field(r.cfgr, CFGR_PPRE1),
      ppre2 := Field(r.cfgr, CFGR_PPRE2),
      pllcfgr := r.pllcfgr,
      cir := r.cir,
      pwren := Has(r.apb1enr, APB1ENR_PWREN),
      vos := HasAll(r.pwrcr, PWR_VOS),
      oden := Has(r.pwrcr, PWR_ODEN),
      odswen := Has(r.pwrcr, PWR_ODSWEN),
      acr := r.acr,
      vtor := r.vtor,
      fpuAccess := HasAll(r.cpacr, CPACR_FPU))
  }

  // The fields by bit number.

  lemma CrByBits(r: Registers)
    ensures var c := Unpack(r);
            && (c.hsion <==> r.cr & 0x0000_0001 != 0) && (c.hseon <==> r.cr & 0x0001_0000 != 0)
            && (c.hsebyp <==> r.cr & 0x0004_0000 != 0) && (c.csson <==> r.cr & 0x0008_0000 != 0)
            && (c.pllon <==> r.cr & 0x0100_0000 != 0)
  {
    hide HasAll, Field;
  }

  lemma CfgrFieldsByBits(r: Registers)
    ensures var c := Unpack(r);
            && c.sw == r.cfgr & 0x3 && c.hpre == r.cfgr & 0xF0
            && c.ppre1 == r.cfgr & 0x1C00 && c.ppre2 == r.cfgr & 0xE000
  {
    hide Has, HasAll;
  }

  lemma PowerByBits(r: Registers)
    ensures var c := Unpack(r);
            && (c.pwren <==> r.apb1enr & 0x1000_0000 != 0)
            && (c.vos <==> r.pwrcr & 0xC000 == 0xC000)
            && (c.oden <==> r.pwrcr & 0x0001_0000 != 0) && (c.odswen <==> r.pwrcr & 0x0002_0000 != 0)
            && (c.fpuAccess <==> r.cpacr & 0x00F0_0000 == 0x00F0_0000)
  {
    hide Field;
  }

  // The bits that belong to no field.

  function OtherBits(which: Register): bv32 {
    match which
    case CPACR => 0xFF0F_FFFF
    case CR => 0xD4F0_00FC
    case CFGR => 0xFFFF_0300
    case APB1ENR => 0xEFFF_FFFF
    case PWR_CR => 0xFFFC_3FFF
    case _ => 0
  }

  function Kept(x: bv32, keep: bv32): bv32 {
    x & keep
  }

  function Others(r: Registers, which: Register): bv32 {
    Kept(Read(r, which), OtherBits(which))
  }

  /** r has the other bits of `before`, those of CFGR cleared once it has been reset. */
  predicate Spared(before: Registers, pc: nat, r: Registers) {
    forall which: Register ::
      Others(r, which) == if which == CFGR && pc > RESET_CFGR then 0 else Others(before, which)
  }

  /** The access leaves the other bits of its register alone, or clears them all. */
  predicate Spares(which: Register, keep: bv32, bits: bv32, clears: bool) {
    && Kept(keep, OtherBits(which)) == (if clears then 0 else OtherBits(which))
    && Kept(bits, OtherBits(which)) == 0
  }

  lemma KeptOutside(w: bv32, keep: bv32, bits: bv32, mask: bv32, status: bv32)
    requires mask & status == 0 && keep & mask == mask && bits & mask == 0
    ensures ((((w & keep) | bits) & !status) | (w & status)) & mask == w & mask
  {
  }

  lemma ClearedOutside(w: bv32, keep: bv32, bits: bv32, mask: bv32, status: bv32)
    requires mask & status == 0 && keep & mask == 0 && bits & mask == 0
    ensures ((((w & keep) | bits) & !status) | (w & status)) & mask == 0
  {
  }

  /** The word that a read-modify-write leaves. */
  function Word(w: bv32, keep: bv32, bits: bv32, status: bv32): bv32 {
    Mix(Set(w & keep, bits), w, status)
  }

  lemma WordOutside(w: bv32, keep: bv32, bits: bv32, mask: bv32, status: bv32, clears: bool)
    requires Kept(mask, status) == 0 && Kept(keep, mask) == (if clears then 0 else mask) && Kept(bits, mask) == 0
    ensures Kept(Word(w, keep, bits, status), mask) == if clears then 0 else Kept(w, mask)
  {
    if clears {
      ClearedOutside(w, keep, bits, mask, status);
    } else {
      KeptOutside(w, keep, bits, mask, status);
    }
  }

  lemma ModifiedIsStored(r: Registers, which: Register, keep: bv32, bits: bv32)
    ensures Modified(r, which, keep, bits) == Stored(r, which, Word(Read(r, which), keep, bits, Status(which)))
  {
    hide Set, Mix, Stored, Read, Status;
  }

  lemma NoStatusInOthers(which: Register)
    ensures Kept(OtherBits(which), Status(which)) == 0
  {
  }

  lemma OthersModified(r: Registers, which: Register, keep: bv32, bits: bv32, clears: bool)
    requires Spares(which, keep, bits, clears)
    ensures Kept(Word(Read(r, which), keep, bits, Status(which)), OtherBits(which))
         == if clears then 0 else Others(r, which)
  {
    hide OtherBits, Status, Read, Kept, Word;
    NoStatusInOthers(which);
    WordOutside(Read(r, which), keep, bits, OtherBits(which), Status(which), clears);
  }

  lemma ReadStored(r: Registers, which: Register, w: bv32, q: Register)
    ensures Read(Stored(r, which, w), q) == if q == which then w else Read(r, q)
  {
  }

  lemma OthersSettled(r: Registers, which: Register, hw: bv32, q: Register)
    ensures Others(Stored(r, which, Mix(Read(r, which), hw, Status(which))), q) == Others(r, q)
  {
    hide Read, Stored, OtherBits, Status, Mix, Kept;
    ReadStored(r, which, Mix(Read(r, which), hw, Status(which)), q);
    NoStatusInOthers(which);
    MixOutside(Read(r, which), hw, Status(which), OtherBits(which));
  }

  lemma MixOutside(software: bv32, hardware: bv32, status: bv32, mask: bv32)
    requires Kept(mask, status) == 0
    ensures Kept(Mix(software, hardware, status), mask) == Kept(software, mask)
  {
    MixOutsideBits(software, hardware, status, mask);
  }

  lemma MixOutsideBits(software: bv32, hardware: bv32, status: bv32, mask: bv32)
    requires mask & status == 0
    ensures ((software & !status) | (hardware & status)) & mask == software & mask
  {
  }

  /** The fields of one register replaced by those of the word w. */
  function With(c: Clock, which: Register, w: bv32): Clock {
    match which
    case CPACR => c.(fpuAccess := HasAll(w, CPACR_FPU))
    case CR => c.(hsion := Has(w, CR_HSION), hseon := Has(w, CR_HSEON), hsebyp := Has(w, CR_HSEBYP),
                  csson := Has(w, CR_CSSON), pllon := Has(w, CR_PLLON))
    case CFGR => c.(sw := Field(w, CFGR_SW), hpre := Field(w, CFGR_HPRE),
                    ppre1 := Field(w, CFGR_PPRE1), ppre2 := Field(w, CFGR_PPRE2))
    case PLLCFGR => c.(pllcfgr := w)
    case CIR => c.(cir := w)
    case APB1ENR => c.(pwren := Has(w, APB1ENR_PWREN))
    case PWR_CR => c.(vos := HasAll(w, PWR_VOS), oden := Has(w, PWR_ODEN), odswen := Has(w, PWR_ODSWEN))
    case ACR => c.(acr := w)
    case VTOR => c.(vtor := w)
  }

  lemma CrSoftwareBits(v: bv32, hw: bv32)
    ensures var c := Mix(v, hw, CR_STATUS);
            && Has(c, CR_HSION) == Has(v, CR_HSION) && Has(c, CR_HSEON) == Has(v, CR_HSEON)
            && Has(c, CR_HSEBYP) == Has(v, CR_HSEBYP) && Has(c, CR_CSSON) == Has(v, CR_CSSON)
            && Has(c, CR_PLLON) == Has(v, CR_PLLON)
            && Has(c, CR_HSERDY) == Has(hw, CR_HSERDY) && Has(c, CR_PLLRDY) == Has(hw, CR_PLLRDY)
  {
  }

  lemma CfgrSoftwareBits(v: bv32, hw: bv32)
    ensures var c := Mix(v, hw, CFGR_SWS);
            && Field(c, CFGR_SW) == Field(v, CFGR_SW) && Field(c, CFGR_HPRE) == Field(v, CFGR_HPRE)
            && Field(c, CFGR_PPRE1) == Field(v, CFGR_PPRE1) && Field(c, CFGR_PPRE2) == Field(v, CFGR_PPRE2)
            && Field(c, CFGR_SWS) == Field(hw, CFGR_SWS)
  {
  }

  lemma UnpackStoredWhole(r: Registers, which: Register, w: bv32)
    requires which == PLLCFGR || which == CIR || which == ACR || which == VTOR
    ensures Unpack(Stored(r, which, w)) == With(Unpack(r), which, w)
  {
    hide Has, HasAll, Field;
  }

  lemma UnpackStoredFlags(r: Registers, which: Register, w: bv32)
    requires which == CPACR || which == CR || which == APB1ENR || which == PWR_CR
    ensures Unpack(Stored(r, which, w)) == With(Unpack(r), which, w)
  {
    hide Has, HasAll, Field;
  }

  lemma UnpackStoredCfgr(r: Registers, w: bv32)
    ensures Unpack(Stored(r, CFGR, w)) == With(Unpack(r), CFGR, w)
  {
    hide Has, HasAll, Field;
  }

  /** A register holds its own fields and no others. */
  lemma UnpackStored(r: Registers, which: Register, w: bv32)
    ensures Unpack(Stored(r, which, w)) == With(Unpack(r), which, w)
  {
    hide Unpack, With, Stored;
    if which == CFGR {
      UnpackStoredCfgr(r, w);
    } else if which == PLLCFGR || which == CIR || which == ACR || which == VTOR {
      UnpackStoredWhole(r, which, w);
    } else {
      UnpackStoredFlags(r, which, w);
    }
  }

  lemma UnpackRead(r: Registers, which: Register)
    ensures Unpack(r) == With(Unpack(r), which, Read(r, which))
  {
    hide Unpack, With;
    UnpackStored(r, which, Read(r, which));
    assert Stored(r, which, Read(r, which)) == r;
  }

  lemma NoStatus(v: bv32, hw: bv32)
    ensures Mix(v, hw, 0) == v
  {
  }

  lemma WithCr(c: Clock, v: bv32, hw: bv32)
    ensures With(c, CR, Mix(v, hw, CR_STATUS)) == With(c, CR, v)
  {
    hide Has, HasAll, Field, Mix;
    CrSoftwareBits(v, hw);
  }

  lemma WithCfgr(c: Clock, v: bv32, hw: bv32)
    ensures With(c, CFGR, Mix(v, hw, CFGR_SWS)) == With(c, CFGR, v)
  {
    hide Has, HasAll, Field, Mix;
    CfgrSoftwareBits(v, hw);
  }

  /** No field lies in the status bits. */
  lemma WithIgnoresStatus(c: Clock, which: Register, v: bv32, hw: bv32)
    ensures With(c, which, Mix(v, hw, Status(which))) == With(c, which, v)
  {
    hide With, Mix;
    if which == CR {
      WithCr(c, v, hw);
    } else if which == CFGR {
      WithCfgr(c, v, hw);
    } else {
      NoStatus(v, hw);
    }
  }

  /** A write replaces the fields of its register and no others. */
  lemma UnpackWritten(r: Registers, which: Register, v: bv32)
    ensures Unpack(Written(r, which, v)) == With(Unpack(r), which, v)
  {
    hide Unpack, With, Mix, Status, Read, Stored;
    UnpackStored(r, which, Mix(v, Read(r, which), Status(which)));
    WithIgnoresStatus(Unpack(r), which, v, Read(r, which));
  }

  /** Status bits are in no field. */
  lemma UnpackSettled(r: Registers, which: Register, hw: bv32)
    ensures Unpack(Stored(r, which, Mix(Read(r, which), hw, Status(which)))) == Unpack(r)
  {
    hide Unpack, With, Mix, Status, Read, Stored;
    UnpackStored(r, which, Mix(Read(r, which), hw, Status(which)));
    WithIgnoresStatus(Unpack(r), which, Read(r, which), hw);
    UnpackRead(r, which);
  }

  // ---------- The clock in use ----------

  /** The bits of RCC_CR whose clear the hardware ignores. */
  function HeldBits(pll: bool, hse: bool): bv32 {
    (if pll then CR_PLLON else 0) | (if hse then CR_HSEON | CR_HSEBYP else 0)
  }

  function KeptOn(before: bv32, asked: bv32, pll: bool, hse: bool): bv32 {
    Set(asked, before & HeldBits(pll, hse))
  }

  /** The registers after a write that was to make r into asked. */
  function Accepted(r: Registers, asked: Registers): Registers {
    var source := SourceOf(r.cfgr);
    Stored(asked, CR, KeptOn(r.cr, asked.cr, source == SW_PLL, HseInUse(r.pllcfgr, source)))
  }

  lemma HeldWord(before: bv32, asked: bv32, held: bv32)
    ensures var w := asked | (before & held);
            && (held & (CR_HSION | CR_CSSON) == 0 ==>
                  w & CR_HSION == asked & CR_HSION && w & CR_CSSON == asked & CR_CSSON)
            && w & CR_PLLON == (asked & CR_PLLON) | (before & CR_PLLON & held)
            && w & CR_HSEON == (asked & CR_HSEON) | (before & CR_HSEON & held)
            && w & CR_HSEBYP == (asked & CR_HSEBYP) | (before & CR_HSEBYP & held)
  {
  }

  lemma HeldBitsOf(pll: bool, hse: bool, x: bv32)
    ensures var held := HeldBits(pll, hse);
            && held & (CR_HSION | CR_CSSON) == 0
            && x & CR_PLLON & held == (if pll then x & CR_PLLON else 0)
            && x & CR_HSEON & held == (if hse then x & CR_HSEON else 0)
            && x & CR_HSEBYP & held == (if hse then x & CR_HSEBYP else 0)
  {
  }

  lemma OrIsZero(x: bv32, y: bv32)
    ensures x | y == 0 <==> x == 0 && y == 0
  {
  }

  lemma HeldFlags(before: bv32, asked: bv32, pll: bool, hse: bool)
    ensures var w := KeptOn(before, asked, pll, hse);
            && Has(w, CR_HSION) == Has(asked, CR_HSION) && Has(w, CR_CSSON) == Has(asked, CR_CSSON)
            && Has(w, CR_PLLON) == (Has(asked, CR_PLLON) || (Has(before, CR_PLLON) && pll))
            && Has(w, CR_HSEON) == (Has(asked, CR_HSEON) || (Has(before, CR_HSEON) && hse))
            && Has(w, CR_HSEBYP) == (Has(asked, CR_HSEBYP) || (Has(before, CR_HSEBYP) && hse))
  {
    hide HeldBits;
    var held := HeldBits(pll, hse);
    HeldBitsOf(pll, hse, before);
    HeldWord(before, asked, held);
    OrIsZero(asked & CR_PLLON, before & CR_PLLON & held);
    OrIsZero(asked & CR_HSEON, before & CR_HSEON & held);
    OrIsZero(asked & CR_HSEBYP, before & CR_HSEBYP & held);
  }

  lemma UnpackedCr(r: Registers)
    ensures var c := Unpack(r);
            && c.hsion == Has(r.cr, CR_HSION) && c.hseon == Has(r.cr, CR_HSEON)
            && c.hsebyp == Has(r.cr, CR_HSEBYP) && c.csson == Has(r.cr, CR_CSSON)
            && c.pllon == Has(r.cr, CR_PLLON) && c.pllcfgr == r.pllcfgr
  {
    hide Has, HasAll, Field;
  }

  function WithFlags(c: Clock, hsion: bool, hseon: bool, hsebyp: bool, csson: bool, pllon: bool): Clock {
    c.(hsion := hsion, hseon := hseon, hsebyp := hsebyp, csson := csson, pllon := pllon)
  }

  lemma CrWithFlags(c: Clock, w: bv32)
    ensures With(c, CR, w) ==
            WithFlags(c, Has(w, CR_HSION), Has(w, CR_HSEON), Has(w, CR_HSEBYP), Has(w, CR_CSSON), Has(w, CR_PLLON))
  {
    hide Has;
  }

  lemma HeldWithFlags(before: Clock, asked: Clock, source: bv32)
    ensures Held(before, asked, source) ==
            WithFlags(asked, asked.hsion,
                      asked.hseon || (before.hseon && HseInUse(before.pllcfgr, source)),
                      asked.hsebyp || (before.hsebyp && HseInUse(before.pllcfgr, source)),
                      asked.csson,
                      asked.pllon || (before.pllon && source == SW_PLL))
  {
    hide HseInUse;
  }

  /** What the hardware holds back in the register is what it holds back in the fields. */
  lemma UnpackAccepted(r: Registers, asked: Registers)
    ensures Unpack(Accepted(r, asked)) == Held(Unpack(r), Unpack(asked), SourceOf(r.cfgr))
  {
    hide Has, Unpack, With, SourceOf, HseInUse, KeptOn, Stored, Held, WithFlags;
    var source := SourceOf(r.cfgr);
    var w := KeptOn(r.cr, asked.cr, source == SW_PLL, HseInUse(r.pllcfgr, source));
    HeldFlags(r.cr, asked.cr, source == SW_PLL, HseInUse(r.pllcfgr, source));
    UnpackedCr(r);
    UnpackedCr(asked);
    UnpackStored(asked, CR, w);
    CrWithFlags(Unpack(asked), w);
    HeldWithFlags(Unpack(r), Unpack(asked), source);
  }

  /** From any register contents, this access is the statement numbered pc. */
  ghost predicate Does(b: Board, pc: nat, which: Register, keep: bv32, bits: bv32) {
    forall r: Registers :: Unpack(Modified(r, which, keep, bits)) == Execute(b, pc, Unpack(r))
  }

  /** What such an access leaves, after the hardware has kept the clock in use on. */
  lemma AcceptedDoes(b: Board, pc: nat, which: Register, keep: bv32, bits: bv32, r: Registers)
    requires Does(b, pc, which, keep, bits)
    ensures Unpack(Accepted(r, Modified(r, which, keep, bits)))
         == Held(Unpack(r), Execute(b, pc, Unpack(r)), SourceOf(r.cfgr))
  {
    hide Unpack, Execute, Modified, Held, Accepted, SourceOf;
    UnpackAccepted(r, Modified(r, which, keep, bits));
  }

  /** The access is the statement numbered pc on the fields, and touches no other bit, except
      that the reset of CFGR clears them. */
  ghost predicate Statement(b: Board, pc: nat, which: Register, keep: bv32, bits: bv32) {
    && Does(b, pc, which, keep, bits)
    && Spares(which, keep, bits, which == CFGR && pc == RESET_CFGR) && (pc == RESET_CFGR ==> which == CFGR)
  }

  lemma OthersHeld(r: Registers, asked: Registers, q: Register)
    ensures Others(Accepted(r, asked), q) == Others(asked, q)
  {
    hide Read, Stored, SourceOf, HseInUse, OtherBits, Kept, KeptOn;
    var source := SourceOf(r.cfgr);
    var pll, hse := source == SW_PLL, HseInUse(r.pllcfgr, source);
    ReadStored(asked, CR, KeptOn(r.cr, asked.cr, pll, hse), q);
    ReadsCr(asked);
    if q == CR {
      KeptOnOutside(r.cr, asked.cr, pll, hse);
    }
  }

  lemma ReadsCr(r: Registers)
    ensures Read(r, CR) == r.cr
  {
  }

  lemma KeptOnOutside(before: bv32, asked: bv32, pll: bool, hse: bool)
    ensures Kept(KeptOn(before, asked, pll, hse), OtherBits(CR)) == Kept(asked, OtherBits(CR))
  {
    hide HeldBits, OtherBits, Kept, Set;
    HeldOutside(pll, hse);
    OrOutside(before, asked, HeldBits(pll, hse), OtherBits(CR));
  }

  lemma HeldOutside(pll: bool, hse: bool)
    ensures Kept(HeldBits(pll, hse), OtherBits(CR)) == 0
  {
  }

  lemma OrOutside(before: bv32, asked: bv32, held: bv32, mask: bv32)
    requires Kept(held, mask) == 0
    ensures Kept(Set(asked, before & held), mask) == Kept(asked, mask)
  {
    OrOutsideBits(before, asked, held, mask);
  }

  lemma OrOutsideBits(before: bv32, asked: bv32, held: bv32, mask: bv32)
    requires held & mask == 0
    ensures (asked | (before & held)) & mask == asked & mask
  {
  }

  /** A statement leaves the other bits as they are to be after it. */
  lemma StatementSpares(b: Board, before: Registers, pc: nat, pc': nat, r: Registers,
                        which: Register, keep: bv32, bits: bv32)
    requires Spared(before, pc, r) && Statement(b, pc, which, keep, bits)
    requires pc' > RESET_CFGR <==> pc >= RESET_CFGR
    ensures Spared(before, pc', Accepted(r, Modified(r, which, keep, bits)))
  {
    hide Does, Read, Stored, OtherBits, Status, Accepted, Spares, Modified, Word, Kept;
    var asked := Modified(r, which, keep, bits);
    ModifiedIsStored(r, which, keep, bits);
    var clears := which == CFGR && pc == RESET_CFGR;
    forall q: Register
      ensures Others(Accepted(r, asked), q) == if q == CFGR && pc' > RESET_CFGR then 0 else Others(before, q)
    {
      OthersHeld(r, asked, q);
      ReadStored(r, which, Word(Read(r, which), keep, bits, Status(which)), q);
      OthersModified(r, which, keep, bits, clears);
      assert Others(r, q) == if q == CFGR && pc > RESET_CFGR then 0 else Others(before, q);
    }
  }

  /** It is enough to look at one register. */
  lemma OneRegister(b: Board, pc: nat, which: Register, keep: bv32, bits: bv32)
    requires forall c: Clock, w: bv32 :: With(c, which, Set(w & keep, bits)) == Execute(b, pc, With(c, which, w))
    ensures Does(b, pc, which, keep, bits)
  {
    hide Unpack, With, Execute, Written, Read;
    forall r: Registers
      ensures Unpack(Modified(r, which, keep, bits)) == Execute(b, pc, Unpack(r))
    {
      UnpackRead(r, which);
      UnpackWritten(r, which, Set(Read(r, which) & keep, bits));
      assert Execute(b, pc, With(Unpack(r), which, Read(r, which)))
          == With(Unpack(r), which, Set(Read(r, which) & keep, bits));
    }
  }

  lemma WholeSpares(which: Register, keep: bv32, bits: bv32)
    requires which == PLLCFGR || which == CIR || which == ACR || which == VTOR
    ensures Spares(which, keep, bits, false)
  {
  }

  // ---------- Statements that store a whole word ----------

  lemma KeepNothing(w: bv32, x: bv32)
    ensures Set(w & 0, x) == x
  {
  }

  lemma StoreDoes(b: Board, pc: nat, which: Register, x: bv32)
    requires forall c: Clock :: Execute(b, pc, c) == With(c, which, x)
    ensures Does(b, pc, which, 0, x)
  {
    hide Unpack, With, Execute, Written, Read;
    forall r: Registers
      ensures Unpack(Modified(r, which, 0, x)) == Execute(b, pc, Unpack(r))
    {
      KeepNothing(Read(r, which), x);
      UnpackWritten(r, which, x);
    }
  }

  lemma ResetCfgrSpares()
    ensures Spares(CFGR, 0, 0, true)
  {
  }

  lemma ResetCfgrDoes(b: Board)
    ensures Statement(b, RESET_CFGR, CFGR, 0, 0)
  {
    hide Does, PackPll, Spares;
    ResetCfgrSpares();
    StoreDoes(b, RESET_CFGR, CFGR, 0);
  }

  lemma ResetPllcfgrDoes(b: Board)
    ensures Statement(b, RESET_PLLCFGR, PLLCFGR, 0, PLLCFGR_RESET)
  {
    hide Does, PackPll, Spares;
    WholeSpares(PLLCFGR, 0, PLLCFGR_RESET);
    StoreDoes(b, RESET_PLLCFGR, PLLCFGR, PLLCFGR_RESET);
  }

  lemma ResetCirDoes(b: Board)
    ensures Statement(b, RESET_CIR, CIR, 0, 0)
  {
    hide Does, PackPll, Spares;
    WholeSpares(CIR, 0, 0);
    StoreDoes(b, RESET_CIR, CIR, 0);
  }

  lemma PllDoes(b: Board)
    ensures Statement(b, CONFIGURE_PLL, PLLCFGR, 0, PackPll(b.device))
  {
    hide Does, PackPll, Spares;
    WholeSpares(PLLCFGR, 0, PackPll(b.device));
    StoreDoes(b, CONFIGURE_PLL, PLLCFGR, PackPll(b.device));
  }

  lemma WaitStatesDoes(b: Board)
    ensures Statement(b, FLASH_WAIT_STATES, ACR, 0, ACR_CACHES | b.device.latency)
  {
    hide Does, PackPll, Spares;
    WholeSpares(ACR, 0, ACR_CACHES | b.device.latency);
    StoreDoes(b, FLASH_WAIT_STATES, ACR, ACR_CACHES | b.device.latency);
  }

  lemma VectorTableDoes(b: Board)
    ensures Statement(b, VECTOR_TABLE, VTOR, 0, FLASH_BASE)
  {
    hide Does, PackPll, Spares;
    WholeSpares(VTOR, 0, FLASH_BASE);
    StoreDoes(b, VECTOR_TABLE, VTOR, FLASH_BASE);
  }

  // ---------- Statements that set or clear flags ----------

  lemma FpuSpares()
    ensures Spares(CPACR, ALL, CPACR_FPU, false)
  {
  }

  lemma FpuDoes(b: Board)
    requires b.fpu
    ensures Statement(b, ENABLE_FPU, CPACR, ALL, CPACR_FPU)
  {
    hide Does, PackPll, Spares;
    FpuSpares();
    OneRegister(b, ENABLE_FPU, CPACR, ALL, CPACR_FPU);
  }

  lemma HsiOnSpares()
    ensures Spares(CR, ALL, CR_HSION, false)
  {
  }

  lemma HsiOnDoes(b: Board)
    ensures Statement(b, HSI_ON, CR, ALL, CR_HSION)
  {
    hide Does, PackPll, Spares;
    HsiOnSpares();
    OneRegister(b, HSI_ON, CR, ALL, CR_HSION);
  }

  lemma ResetCrSpares()
    ensures Spares(CR, 0xFEF6_FFFF, 0, false)
  {
  }

  lemma ResetCrDoes(b: Board)
    ensures Statement(b, RESET_CR, CR, 0xFEF6_FFFF, 0)
  {
    hide Does, PackPll, Spares;
    ResetCrSpares();
    OneRegister(b, RESET_CR, CR, 0xFEF6_FFFF, 0);
  }

  lemma ResetBypassSpares()
    ensures Spares(CR, 0xFFFB_FFFF, 0, false)
  {
  }

  lemma ResetBypassDoes(b: Board)
    ensures Statement(b, RESET_BYPASS, CR, 0xFFFB_FFFF, 0)
  {
    hide Does, PackPll, Spares;
    ResetBypassSpares();
    OneRegister(b, RESET_BYPASS, CR, 0xFFFB_FFFF, 0);
  }

  lemma PowerOnSpares()
    ensures Spares(APB1ENR, ALL, APB1ENR_PWREN, false)
  {
  }

  lemma PowerOnDoes(b: Board)
    ensures Statement(b, POWER_ON, APB1ENR, ALL, APB1ENR_PWREN)
  {
    hide Does, PackPll, Spares;
    PowerOnSpares();
    OneRegister(b, POWER_ON, APB1ENR, ALL, APB1ENR_PWREN);
  }

  lemma VoltageSpares()
    ensures Spares(PWR_CR, ALL, PWR_VOS, false)
  {
  }

  lemma VoltageDoes(b: Board)
    ensures Statement(b, VOLTAGE_SCALE, PWR_CR, ALL, PWR_VOS)
  {
    hide Does, PackPll, Spares;
    VoltageSpares();
    OneRegister(b, VOLTAGE_SCALE, PWR_CR, ALL, PWR_VOS);
  }

  lemma PllOnSpares()
    ensures Spares(CR, ALL, CR_PLLON, false)
  {
  }

  lemma PllOnDoes(b: Board)
    ensures Statement(b, PLL_ON, CR, ALL, CR_PLLON)
  {
    hide Does, PackPll, Spares;
    PllOnSpares();
    OneRegister(b, PLL_ON, CR, ALL, CR_PLLON);
  }

  lemma OverdriveOnSpares()
    ensures Spares(PWR_CR, ALL, PWR_ODEN, false)
  {
  }

  lemma OverdriveOnDoes(b: Board)
    ensures Statement(b, OVERDRIVE_ON, PWR_CR, ALL, PWR_ODEN)
  {
    hide Does, PackPll, Spares;
    OverdriveOnSpares();
    OneRegister(b, OVERDRIVE_ON, PWR_CR, ALL, PWR_ODEN);
  }

  lemma OverdriveSwitchSpares()
    ensures Spares(PWR_CR, ALL, PWR_ODSWEN, false)
  {
  }

  lemma OverdriveSwitchDoes(b: Board)
    ensures Statement(b, OVERDRIVE_SWITCH, PWR_CR, ALL, PWR_ODSWEN)
  {
    hide Does, PackPll, Spares;
    OverdriveSwitchSpares();
    OneRegister(b, OVERDRIVE_SWITCH, PWR_CR, ALL, PWR_ODSWEN);
  }

  lemma HseRawBits(w: bv32, bits: bv32)
    requires bits == CR_HSEON || bits == CR_HSEON | CR_HSEBYP
    ensures var v := (w & ALL) | bits;
            && v & CR_HSION == w & CR_HSION && v & CR_HSEON == CR_HSEON
            && v & CR_HSEBYP == (w & CR_HSEBYP) | (bits & CR_HSEBYP)
            && v & CR_CSSON == w & CR_CSSON && v & CR_PLLON == w & CR_PLLON
  {
  }

  lemma HseOnBits(w: bv32, bits: bv32)
    requires bits == CR_HSEON || bits == CR_HSEON | CR_HSEBYP
    ensures var v := Set(w & ALL, bits);
            && Has(v, CR_HSION) == Has(w, CR_HSION) && Has(v, CR_HSEON)
            && Has(v, CR_HSEBYP) == (Has(w, CR_HSEBYP) || bits != CR_HSEON)
            && Has(v, CR_CSSON) == Has(w, CR_CSSON) && Has(v, CR_PLLON) == Has(w, CR_PLLON)
  {
    HseRawBits(w, bits);
  }

  function HseBits(d: Device): bv32 {
    if d.source == HseBypass then CR_HSEON | CR_HSEBYP else CR_HSEON
  }

  lemma HseOnSpares(b: Board)
    ensures Spares(CR, ALL, HseBits(b.device), false)
  {
  }

  lemma HseOnDoes(b: Board)
    ensures Statement(b, HSE_ON, CR, ALL, HseBits(b.device))
  {
    hide Does, PackPll, Has, HasAll, Field, Set, Spares;
    HseOnSpares(b);
    var bits := HseBits(b.device);
    forall c: Clock, w: bv32
      ensures With(c, CR, Set(w & ALL, bits)) == Execute(b, HSE_ON, With(c, CR, w))
    {
      HseOnBits(w, bits);
    }
    OneRegister(b, HSE_ON, CR, ALL, bits);
  }

  // ---------- Statements that change a field of CFGR ----------

  datatype Part = Switch | Hpre | Ppre1 | Ppre2

  function MaskOf(p: Part): bv32 {
    match p
    case Switch => CFGR_SW
    case Hpre => CFGR_HPRE
    case Ppre1 => CFGR_PPRE1
    case Ppre2 => CFGR_PPRE2
  }

  function PartOf(c: Clock, p: Part): bv32 {
    match p
    case Switch => c.sw
    case Hpre => c.hpre
    case Ppre1 => c.ppre1
    case Ppre2 => c.ppre2
  }

  function WithPart(c: Clock, p: Part, x: bv32): Clock {
    match p
    case Switch => c.(sw := x)
    case Hpre => c.(hpre := x)
    case Ppre1 => c.(ppre1 := x)
    case Ppre2 => c.(ppre2 := x)
  }

  /** Only the part p of CFGR is touched. */
  predicate Touches(p: Part, keep: bv32, bits: bv32) {
    forall q: Part :: q != p ==> Outside(MaskOf(q), keep, bits)
  }

  predicate Outside(mask: bv32, keep: bv32, bits: bv32) {
    keep & mask == mask && bits & mask == 0
  }

  // Of any masks.

  predicate Within(x: bv32, mask: bv32) {
    x & !mask == 0
  }

  lemma BitsOutside(w: bv32, mask: bv32, keep: bv32, bits: bv32)
    requires keep & mask == mask && bits & mask == 0
    ensures ((w & keep) | bits) & mask == w & mask
  {
  }

  lemma BitsInside(w: bv32, mask: bv32, keep: bv32, bits: bv32)
    ensures ((w & keep) | bits) & mask == ((w & mask) & keep) | (bits & mask)
    ensures (w & mask) & !mask == 0
  {
  }

  lemma KeptField(w: bv32, mask: bv32, keep: bv32, bits: bv32)
    requires Outside(mask, keep, bits)
    ensures Field(Set(w & keep, bits), mask) == Field(w, mask)
  {
    BitsOutside(w, mask, keep, bits);
  }

  lemma ChangedField(w: bv32, mask: bv32, keep: bv32, bits: bv32)
    ensures Field(Set(w & keep, bits), mask) == Set(Kept(Field(w, mask), keep), Kept(bits, mask))
    ensures Within(Field(w, mask), mask)
  {
    BitsInside(w, mask, keep, bits);
  }

  lemma OnlySwitch(c: Clock, w: bv32, v: bv32)
    requires Field(v, CFGR_HPRE) == Field(w, CFGR_HPRE)
    requires Field(v, CFGR_PPRE1) == Field(w, CFGR_PPRE1)
    requires Field(v, CFGR_PPRE2) == Field(w, CFGR_PPRE2)
    ensures With(c, CFGR, v) == WithPart(With(c, CFGR, w), Switch, Field(v, CFGR_SW))
    ensures PartOf(With(c, CFGR, w), Switch) == Field(w, CFGR_SW)
  {
    hide Field;
  }

  lemma OnlyHpre(c: Clock, w: bv32, v: bv32)
    requires Field(v, CFGR_SW) == Field(w, CFGR_SW)
    requires Field(v, CFGR_PPRE1) == Field(w, CFGR_PPRE1)
    requires Field(v, CFGR_PPRE2) == Field(w, CFGR_PPRE2)
    ensures With(c, CFGR, v) == WithPart(With(c, CFGR, w), Hpre, Field(v, CFGR_HPRE))
    ensures PartOf(With(c, CFGR, w), Hpre) == Field(w, CFGR_HPRE)
  {
    hide Field;
  }

  lemma OnlyPpre1(c: Clock, w: bv32, v: bv32)
    requires Field(v, CFGR_SW) == Field(w, CFGR_SW)
    requires Field(v, CFGR_HPRE) == Field(w, CFGR_HPRE)
    requires Field(v, CFGR_PPRE2) == Field(w, CFGR_PPRE2)
    ensures With(c, CFGR, v) == WithPart(With(c, CFGR, w), Ppre1, Field(v, CFGR_PPRE1))
    ensures PartOf(With(c, CFGR, w), Ppre1) == Field(w, CFGR_PPRE1)
  {
    hide Field;
  }

  lemma OnlyPpre2(c: Clock, w: bv32, v: bv32)
    requires Field(v, CFGR_SW) == Field(w, CFGR_SW)
    requires Field(v, CFGR_HPRE) == Field(w, CFGR_HPRE)
    requires Field(v, CFGR_PPRE1) == Field(w, CFGR_PPRE1)
    ensures With(c, CFGR, v) == WithPart(With(c, CFGR, w), Ppre2, Field(v, CFGR_PPRE2))
    ensures PartOf(With(c, CFGR, w), Ppre2) == Field(w, CFGR_PPRE2)
  {
    hide Field;
  }

  lemma OnlyOnePart(c: Clock, w: bv32, v: bv32, p: Part)
    requires forall q: Part :: q != p ==> Field(v, MaskOf(q)) == Field(w, MaskOf(q))
    ensures With(c, CFGR, v) == WithPart(With(c, CFGR, w), p, Field(v, MaskOf(p)))
    ensures PartOf(With(c, CFGR, w), p) == Field(w, MaskOf(p))
  {
    hide Field, With, WithPart, PartOf;
    assert p != Switch ==> Field(v, MaskOf(Switch)) == Field(w, MaskOf(Switch));
    assert p != Hpre ==> Field(v, MaskOf(Hpre)) == Field(w, MaskOf(Hpre));
    assert p != Ppre1 ==> Field(v, MaskOf(Ppre1)) == Field(w, MaskOf(Ppre1));
    assert p != Ppre2 ==> Field(v, MaskOf(Ppre2)) == Field(w, MaskOf(Ppre2));
    match p
    case Switch => OnlySwitch(c, w, v);
    case Hpre => OnlyHpre(c, w, v);
    case Ppre1 => OnlyPpre1(c, w, v);
    case Ppre2 => OnlyPpre2(c, w, v);
  }

  /** An access that touches one part is a statement of the machine if it is one on that
      part. */
  lemma PartDoes(b: Board, pc: nat, p: Part, keep: bv32, bits: bv32)
    requires Touches(p, keep, bits)
    requires forall c: Clock :: Within(PartOf(c, p), MaskOf(p)) ==>
               Execute(b, pc, c) == WithPart(c, p, Set(Kept(PartOf(c, p), keep), Kept(bits, MaskOf(p))))
    ensures Does(b, pc, CFGR, keep, bits)
  {
    hide Does, Execute, Field, With, Set, WithPart, PartOf, MaskOf, Outside, Within, Kept;
    forall c: Clock, w: bv32
      ensures With(c, CFGR, Set(w & keep, bits)) == Execute(b, pc, With(c, CFGR, w))
    {
      var v := Set(w & keep, bits);
      forall q: Part | q != p
        ensures Field(v, MaskOf(q)) == Field(w, MaskOf(q))
      {
        KeptField(w, MaskOf(q), keep, bits);
      }
      ChangedField(w, MaskOf(p), keep, bits);
      OnlyOnePart(c, w, v, p);
    }
    OneRegister(b, pc, CFGR, keep, bits);
  }

  lemma KeepAll(x: bv32, mask: bv32)
    requires Within(x, mask)
    ensures Kept(x, ALL) == x && Kept(x, mask) == x
  {
  }

  lemma KeepNone(x: bv32, mask: bv32)
    requires Within(x, mask)
    ensures Set(Kept(x, !mask), Kept(0, mask)) == 0
  {
  }

  /** An or with bits of the part p touches p only. */
  lemma OrTouches(p: Part, bits: bv32)
    requires Within(bits, MaskOf(p))
    ensures Touches(p, ALL, bits)
  {
    hide Within, MaskOf, Outside;
    forall q: Part | q != p
      ensures Outside(MaskOf(q), ALL, bits)
    {
      MasksAreDisjoint(p, q);
      OutsideOf(bits, MaskOf(p), MaskOf(q));
    }
  }

  lemma MasksAreDisjoint(p: Part, q: Part)
    requires p != q
    ensures Within(MaskOf(q), !MaskOf(p))
  {
  }

  lemma OutsideOf(bits: bv32, mask: bv32, other: bv32)
    requires Within(bits, mask) && Within(other, !mask)
    ensures Outside(other, ALL, bits)
  {
  }

  /** A statement that ors bits into a part, keeping the others. */
  lemma OrDoes(b: Board, pc: nat, p: Part, bits: bv32)
    requires Within(bits, MaskOf(p))
    requires forall c: Clock :: Execute(b, pc, c) == WithPart(c, p, Set(PartOf(c, p), bits))
    ensures Does(b, pc, CFGR, ALL, bits)
  {
    hide Does, Execute, WithPart, PartOf, MaskOf, Set, Touches, Within, Kept;
    OrTouches(p, bits);
    KeepAll(bits, MaskOf(p));
    forall c: Clock | Within(PartOf(c, p), MaskOf(p))
      ensures Execute(b, pc, c) == WithPart(c, p, Set(Kept(PartOf(c, p), ALL), Kept(bits, MaskOf(p))))
    {
      KeepAll(PartOf(c, p), MaskOf(p));
    }
    PartDoes(b, pc, p, ALL, bits);
  }

  lemma AhbSpares()
    ensures Spares(CFGR, ALL, HPRE_DIV1, false)
  {
  }

  lemma AhbDoes(b: Board)
    ensures Statement(b, AHB_PRESCALER, CFGR, ALL, HPRE_DIV1)
  {
    hide Does, PackPll, Set, Spares;
    AhbSpares();
    OrDoes(b, AHB_PRESCALER, Hpre, HPRE_DIV1);
  }

  lemma Apb2Spares(b: Board)
    requires b.device.ppre2 & !CFGR_PPRE2 == 0
    ensures Spares(CFGR, ALL, b.device.ppre2, false)
  {
  }

  lemma Prescaler2Within(x: bv32)
    requires x & !CFGR_PPRE2 == 0
    ensures Within(x, MaskOf(Ppre2))
  {
  }

  lemma Apb2Does(b: Board)
    requires b.device.ppre2 & !CFGR_PPRE2 == 0
    ensures Statement(b, APB2_PRESCALER, CFGR, ALL, b.device.ppre2)
  {
    hide Does, PackPll, Set, Spares, Within, MaskOf;
    Prescaler2Within(b.device.ppre2);
    Apb2Spares(b);
    OrDoes(b, APB2_PRESCALER, Ppre2, b.device.ppre2);
  }

  lemma Apb1Spares(b: Board)
    requires b.device.ppre1 & !CFGR_PPRE1 == 0
    ensures Spares(CFGR, ALL, b.device.ppre1, false)
  {
  }

  lemma Prescaler1Within(x: bv32)
    requires x & !CFGR_PPRE1 == 0
    ensures Within(x, MaskOf(Ppre1))
  {
  }

  lemma Apb1Does(b: Board)
    requires b.device.ppre1 & !CFGR_PPRE1 == 0
    ensures Statement(b, APB1_PRESCALER, CFGR, ALL, b.device.ppre1)
  {
    hide Does, PackPll, Set, Spares, Within, MaskOf;
    Prescaler1Within(b.device.ppre1);
    Apb1Spares(b);
    OrDoes(b, APB1_PRESCALER, Ppre1, b.device.ppre1);
  }

  lemma SelectPllSpares()
    ensures Spares(CFGR, ALL, SW_PLL, false)
  {
  }

  lemma SelectPllDoes(b: Board)
    ensures Statement(b, SELECT_PLL, CFGR, ALL, SW_PLL)
  {
    hide Does, PackPll, Set, Spares;
    SelectPllSpares();
    OrDoes(b, SELECT_PLL, Switch, SW_PLL);
  }

  lemma ClearTouches()
    ensures Touches(Switch, !CFGR_SW, 0)
  {
  }

  lemma ClearSwitchSpares()
    ensures Spares(CFGR, !CFGR_SW, 0, false)
  {
  }

  lemma ClearSwitchDoes(b: Board)
    ensures Statement(b, CLEAR_SWITCH, CFGR, !CFGR_SW, 0)
  {
    hide Does, PackPll, Set, Touches, Within, Kept, Spares;
    ClearSwitchSpares();
    ClearTouches();
    forall c: Clock | Within(PartOf(c, Switch), MaskOf(Switch))
      ensures Execute(b, CLEAR_SWITCH, c) ==
              WithPart(c, Switch, Set(Kept(PartOf(c, Switch), !CFGR_SW), Kept(0, MaskOf(Switch))))
    {
      KeepNone(c.sw, CFGR_SW);
    }
    PartDoes(b, CLEAR_SWITCH, Switch, !CFGR_SW, 0);
  }
}
