# Verified model of the STM32F4 firmware core

The firmware is a µC/OS-II application for the STM32F407 on top of CMSIS. This project
models the three places where it holds real logic, and proves what they promise:

* **Interrupt controller, system tick and debug mailbox** (`CORE/core_cm4.h`). The access
  functions pack 240 interrupt lines into word-indexed bit registers and byte arrays of
  priorities. `NvicRefinement` proves that over every sequence of calls, interleaved with
  what the hardware does to pending and active bits, those registers stand for three sets
  and a map. `PriorityCodec` proves the priority codec for every number of priority bits
  and every group, and that the order a caller asks for is the order in which the processor
  takes exceptions. `SysTick` follows the reload counter clock by clock; `Itm` interleaves
  the program and a debugger on the receive buffer in every possible way.
* **Clock boot and clock computation** (`USER/system_stm32f4xx.c`). `Boot` is the boot as a
  machine of single statements against hardware that may show any ready flags at any time and keeps the clock in use on;
  `BootSafety` holds at every statement of every such boot, finished or not, and
  `BootProgress` says exactly when a boot finishes, and `BootSwitch` which clock the core is
  left running from. `ClockRegisters` and `BootDriver` are
  the same boot as imperative code on the packed 32-bit registers, proved to follow the
  machine statement by statement and to touch no other bit. `ClockTree` is the frequency
  arithmetic, with its 32-bit wrap, `BootReadBack` joins boot and read-back, and `BusClocks`
  has the final registers bit by bit and the bus clocks that follow from them.
* **The µC/OS-II port** (`UCOSII/PORT/os_cpu_c.c`, `os_cpu_a.asm`). `TaskFrame` is the
  builder of an initial stack frame, writing through a decrementing pointer; `ContextSwitch`
  is the switch itself, proved over all runs to give every µC/OS task a processor of its
  own; `TickHook` is the divider behind the timer task.

Code that changes registers, buffers or counters step by step is written as classes and
methods over mutable state, each proved against a function of the old state; the laws are
then proved about those functions. Numbers that go through run-time shifts or arithmetic are
natural numbers with explicit 32-bit wrap (`Words` proves the mask and shift idioms);
registers handled with fixed masks are 32-bit vectors. `Iteration` holds the generic facts
about runs of a machine.

## What turned out not to hold

Each of these has a lemma with the exact condition.

* A boot that falls back to HSI does not wait for the switch. That it leaves the core on HSI
  whatever the hardware does is true if and only if HSI is in use and requested when the boot
  begins (`BootSwitch.FallbackIsSafeIff`), or, seen from inside, if and only if HSI is in use
  at the first access after CFGR has been cleared (`BootSwitch.FallbackReachesHsiIff`). On the
  PLL path the clock requested is the clock in use, from any registers.
* PLLCFGR is written only while the PLL is off if and only if the PLL was off before the boot
  or is not the clock in use when RCC_CR is reset (`BootSafety.BootIsSafe`): the hardware
  ignores a clear of PLLON for the clock in use. From reset it always holds
  (`BootSafety.ActualClockIsSafe`). A restart from the PLL can break both: on hardware that has
  not left the PLL when a boot without its crystal ends, the PLL has stayed on, PLLCFGR was
  written meanwhile, and `SystemCoreClockUpdate` computes 96 MHz
  (`BootReadBack.RestartWithoutCrystal`).
* The declared `SystemCoreClock` is right for exactly the oscillators that
  `BootReadBack.DeclaredIff` lists for each family, 32-bit wrap included: for the F40/41 the
  crystals from 8 000 000 to 8 000 007 Hz, and eight at which the unsigned VCO product wraps
  onto the right one. The header comments of `USER/system_stm32f4xx.c` speak of a 25 MHz
  crystal and a `PLL_M` of 25; the code has `PLL_M` 8, and the model follows the code.
* For a PLL whose source the build knows, the computed frequency is the truncated exact one if
  and only if the VCO product fits 32 bits. Each of the two F411 builds knows only the source
  it configures and computes 0 for the other, which is right if and only if the frequency is
  below what truncation loses (`ClockTree.CoreClockFromPll`); it is not for an 8 MHz crystal
  and 168 MHz (`ClockTree.UnknownSourceIsWrong`).
* The header comment of `USER/system_stm32f4xx.c` gives the F411 three flash wait states at
  100 MHz; the code sets two (`BusClocks.FamilyBoot`, which has core clock, bus clocks, USB
  clock and wait states of every family).
* `SystemCoreClockUpdate` and `RCC_GetClocksFreq` of the RCC driver read HPRE through different
  tables, which agree on exactly the codes 0 to 3 and 8 to 15 (`BusClocks.TablesAgreeIff`).
* In an FPU build the initial frame is one word short between xPSR and FPSCR, because the
  xPSR store overwrites the S0 word: each of S0 to S14 starts with the value meant for its
  neighbour, S15 with the one meant for FPSCR, FPSCR with 0 (`TaskFrame.FpValuesAreShifted`).
* `PendSV_Handler` restores the incoming context in the format of the outgoing one. In a system
  that begins without floating-point contexts, every µC/OS task always finds its own registers
  and stack if and only if no switch to another one follows a use of the FPU
  (`ContextSwitch.RunIsTransparentIff`); after the first such switch the stack pointer is 34
  words too high (`ContextSwitch.FpWorkThenSwitch`). In one that begins with them the switch is
  always transparent (`ContextSwitch.RunRefines`).
* The first start is right if and only if the caller of `OSStart` has a floating-point context
  exactly in an FPU build. Without one in an FPU build, execution starts at address 0x22; with
  one elsewhere, at whatever word lies 15 above the top of the stack
  (`ContextSwitch.FirstTaskStartsIff`).
* Characters through the debug mailbox are conserved if and only if the debugger never sends
  the "empty" marker, and callers can tell characters from "none" if and only if no character
  is -1 (`Itm.CharactersAreConserved`, `Itm.CallersSeeAPrefix`, with the failing schedules in
  `Itm.MarkerIsLost` and `Itm.MinusOneLooksLikeNone`).
* The tick divider divides exactly if and only if the period is below 65536: a larger one is
  never reached by the 16-bit counter (`TickHook.DividerIsExactIff`). Whole seconds hold exactly
  the timer's rate of signals if and only if the tick rate is a multiple of it
  (`TickHook.SecondsAreExactIff`).
* `delay_init` loads the reload register without subtracting one, so its interval is one
  clock longer than computed, whatever the counter held before (`SysTick.DelayInitRunsSlow`).
* The comments of three functions promise that on a conflict "the smallest possible priority
  group is set". Encode and decode do work as if it were (`PriorityCodec.CodecUsesSmallest`).
  `NVIC_SetPriorityGrouping` stores the group it is given: the promised one reads back if and
  only if the group modulo 8 and the number of bits sum to at least 7
  (`Nvic.SmallestIsSetIff`); four bits and group 0 fail (`Nvic.GroupZeroIsStored`).

## Model

`UCOSII/PORT/os_cpu_a.asm`, `USER/stm32f4xx.h` and `SYSTEM/delay/delay.c` are not UTF-8 text;
rows about them cite the lines of the C files they work with and name their own lines.

| member | source | states |
|---|---|---|
| PriorityCodec.GroupOf | CORE/core_cm4.h:1594 | only the group modulo 8 is used |
| PriorityCodec.SubBits | CORE/core_cm4.h:1598-1599 | the two field widths always sum to the number of priority bits |
| PriorityCodec.SmallestIsSmallest | CORE/core_cm4.h:1584-1585 | the group that the comment promises: on a conflict the first one without, otherwise the group given |
| PriorityCodec.CodecUsesSmallest | CORE/core_cm4.h:1580-1631 | encode and decode work as if the smallest possible group were set, for all bits, groups and values |
| PriorityCodec.EncodePriority | CORE/core_cm4.h:1592-1605 | the encoded priority fits the implemented bits |
| PriorityCodec.JoinValue | CORE/core_cm4.h:1601-1604 | the masked and shifted pair is a sum of two fields that do not overlap |
| PriorityCodec.DecodeOfEncode | CORE/core_cm4.h:1592-1631 | decoding an encoded pair gives the pair, each part cut to its width, for every group and number of bits |
| PriorityCodec.EncodeOfDecode | CORE/core_cm4.h:1592-1631 | encoding a decoded value gives its implemented bits |
| PriorityCodec.EncodeIsLexicographic | CORE/core_cm4.h:1592-1605 | encoded priorities compare as the cut pairs compare lexicographically, in both directions |
| PriorityCodec.NVIC_DecodePriority | CORE/core_cm4.h:1620-1631 | the two results fit their widths and recombine to the implemented bits of the value |
| PriorityCodec.StoredValue | CORE/core_cm4.h:1550-1577 | a stored priority has zero unimplemented bits and reads back modulo 2^bits |
| PriorityCodec.DecodedGroupPriority | CORE/core_cm4.h:1570-1631 | bits [7:g+1] of the stored byte are the decoded preemption part, scaled by the gap below the implemented bits when g + bits < 7 |
| PriorityCodec.PreemptionOrderIsArchitectural | CORE/core_cm4.h:1550-1631 | decoded preemption parts compare exactly as the processor's group priorities, for all groups, bits and bytes |
| PriorityCodec.TakenBeforeIsByteOrder | CORE/core_cm4.h:1550-1556 | whatever the group, the processor's choice between pending exceptions is the order of the raw bytes, then of exception numbers |
| PriorityCodec.RequestedOrderIsRealised | CORE/core_cm4.h:1550-1605 | preemption and choice between two requested pairs are those of the cut pairs |
| Nvic.IndexOfExternal | CORE/core_cm4.h:1467-1538 | an external number selects word irq/32 and bit irq%32, in bounds |
| Nvic.SlotOfSystem | CORE/core_cm4.h:1552-1553 | the unsigned slot of a core exception is inside SHP exactly for -12..-1 among -16..-1, and is then irq + 12 |
| NvicRefinement.SetPriorityWritesOneByte | CORE/core_cm4.h:1550-1556 | of all 252 priority bytes exactly the one of this interrupt is written, with the shifted value |
| Nvic.AircrWords | CORE/core_cm4.h:1435-1446 | every AIRCR write carries the key 0x5FA in bits 31..16; setting the group writes bits 10..8 and keeps every other lower bit; a reset request keeps bits 10..8 and sets bit 2 alone |
| Nvic.AircrEffect | CORE/core_cm4.h:1435-1458 | the group reads back as the value set modulo 8, a reset request keeps it and leaves bit 2 set, nothing else of AIRCR that software owns changes |
| Nvic.GroupIsBits8To10 | CORE/core_cm4.h:1455-1458 | the group read is bits 10..8 |
| Nvic.KeyIsNeeded | CORE/core_cm4.h:1442-1445 | a write takes effect with the key 0x5FA and with no other |
| Nvic.SmallestIsSetIff | CORE/core_cm4.h:1430-1446 | the group that the comment promises is set if and only if group and bits do not conflict |
| Nvic.GroupZeroIsStored | CORE/core_cm4.h:1430-1446 | four bits and group 0: 0 is stored where 3 is promised |
| Nvic.WrittenGroup | CORE/core_cm4.h:1638-1644 | a keyed write stores the group and the reset request and keeps the read-only bits |
| NvicRefinement.SetBitsAddsOne | CORE/core_cm4.h:1467-1471 | a write-one-to-set of one bit adds exactly that interrupt to the set |
| NvicRefinement.ClearBitsRemovesOne | CORE/core_cm4.h:1480-1483 | a write-one-to-clear of one bit removes exactly that interrupt |
| NvicRefinement.TestBitIsMembership | CORE/core_cm4.h:1496-1538 | the masked read is membership in the set |
| NvicRefinement.SetPriorityUpdatesOne | CORE/core_cm4.h:1550-1577 | a priority write changes one entry of the priority map, to the value modulo 2^bits, and nothing else |
| NvicRefinement.StepRefines | CORE/core_cm4.h:1435-1577 | each call and each hardware event on the registers is that event on sets and map |
| NvicRefinement.Run | CORE/core_cm4.h:1435-1577 | every run keeps the registers well formed |
| NvicRefinement.RunRefines | CORE/core_cm4.h:1435-1577 | over every run from every registers, the packed form equals the abstract controller |
| NvicRefinement.GroupingReadsBack | CORE/core_cm4.h:1435-1458 | after any run the group read is the last one set, modulo 8 |
| NvicRefinement.RunKeepsPriority | CORE/core_cm4.h:1550-1577 | a run that neither sets an interrupt's priority nor the group leaves both, and the raw byte, unchanged |
| NvicRefinement.PriorityRoundTrip | CORE/core_cm4.h:1435-1631 | a requested pair reads back, cut to its widths, after any run that leaves that priority and the group alone |
| NvicRefinement.RegroupingKeepsPriorities | CORE/core_cm4.h:1435-1631 | changing the group keeps every combined priority, and re-encoding under the new group restores it |
| NvicRefinement.RequestsDecidePreemption | CORE/core_cm4.h:1435-1631 | after any such run two requested interrupts preempt and are chosen exactly as their cut pairs say |
| CoreDriver.Core.constructor | CORE/core_cm4.h:1435-1577 | a controller with nothing enabled, pending or active, all priorities zero and group 0 |
| CoreDriver.Core.NVIC_EnableIRQ | CORE/core_cm4.h:1467-1471 | the whole new register state, and the enabled set plus this interrupt |
| CoreDriver.Core.NVIC_DisableIRQ | CORE/core_cm4.h:1480-1483 | the whole new register state, and the enabled set less this interrupt |
| CoreDriver.Core.NVIC_SetPendingIRQ | CORE/core_cm4.h:1508-1511 | the whole new register state, and the pending set plus this interrupt |
| CoreDriver.Core.NVIC_ClearPendingIRQ | CORE/core_cm4.h:1520-1523 | the whole new register state, and the pending set less this interrupt |
| CoreDriver.Core.NVIC_GetPendingIRQ | CORE/core_cm4.h:1496-1499 | 1 exactly for members of the pending set, else 0 |
| CoreDriver.Core.NVIC_GetActive | CORE/core_cm4.h:1535-1538 | 1 exactly for members of the active set, else 0 |
| CoreDriver.Core.NVIC_SetPriority | CORE/core_cm4.h:1550-1556 | the whole new register state, and the priority map updated at this interrupt only |
| CoreDriver.Core.NVIC_GetPriority | CORE/core_cm4.h:1570-1577 | the entry of the priority map, below 2^bits |
| CoreDriver.Core.NVIC_SetPriorityGrouping | CORE/core_cm4.h:1435-1446 | the whole new register state, and the group modulo 8 |
| CoreDriver.Core.NVIC_SystemReset | CORE/core_cm4.h:1638-1644 | bit 2, the reset request, is set and the group kept |
| CoreDriver.Core.SysTick_Config | CORE/core_cm4.h:1677-1688 | success exactly for 1..2^24, registers untouched otherwise; on success LOAD is ticks - 1, exactly bits 0 to 2 of CTRL are set, and exception -1 alone gets priority 2^bits - 1 |
| SysTick.AcceptedRange | CORE/core_cm4.h:1679 | the unsigned test accepts exactly 1..2^24 |
| SysTick.TickPriorityIsLowest | CORE/core_cm4.h:1682 | the stored priority of exception -1 is at least every other one, and under every group it preempts nothing |
| SysTick.CounterValue | CORE/core_cm4.h:1681-1686 | from a cleared counter, its value after n clocks is the distance to the next multiple of the period |
| SysTick.FiresExactlyAtMultiples | CORE/core_cm4.h:1677-1688 | by a counter that needs bits 0 and 1 of CTRL: clock n interrupts exactly when n is a multiple of ticks (and ticks is at least 2) |
| SysTick.InterruptCount | CORE/core_cm4.h:1677-1688 | by that counter, n clocks bring exactly n / ticks interrupts |
| SysTick.SilentUnlessRunning | CORE/core_cm4.h:1684-1686 | without both bits no interrupt ever comes |
| SysTick.DelayInitRunsSlow | CORE/core_cm4.h:1681 | without the subtraction made there, as in delay_init (lines 110-119 of `SYSTEM/delay/delay.c`): from any counter and control value, one interrupt when it has run down and then one every reload + 1 clocks |
| Itm.RunKeepsInv | CORE/core_cm4.h:1736-1745 | so does every interleaving |
| Itm.CharactersAreConserved | CORE/core_cm4.h:1703-1745 | nothing lost, duplicated or reordered, at most one in flight, if and only if the empty marker is never sent |
| Itm.CallersSeeAPrefix | CORE/core_cm4.h:1736-1745 | the characters received are a prefix of those sent, and callers can tell them from -1 if and only if none is -1 |
| Itm.MarkerIsLost | CORE/core_cm4.h:1703-1745 | the schedule in which a sent empty marker is lost |
| Itm.MinusOneLooksLikeNone | CORE/core_cm4.h:1736-1745 | the schedule in which a received -1 cannot be told from none |
| Itm.CheckCharCountsInFlight | CORE/core_cm4.h:1755-1762 | ITM_CheckChar is the number of characters in flight, at every point |
| Itm.UninterruptedCall | CORE/core_cm4.h:1736-1745 | a call without interference takes and returns what is in flight, or returns -1, and empties the buffer |
| Itm.Port.ITM_ReceiveChar | CORE/core_cm4.h:1736-1745 | the character or -1, and an empty buffer |
| Itm.Port.ITM_CheckChar | CORE/core_cm4.h:1755-1762 | 1 exactly when the buffer is not empty |
| ClockTree.FamiliesAreValid | USER/system_stm32f4xx.c:314-350 | the factors of every device family fit their fields |
| ClockTree.PackedFieldsAreRecovered | USER/system_stm32f4xx.c:513-542 | for all factors each field of the packed PLLCFGR is at its bit numbers, no other bit is set, and decoding recovers each of them and the source |
| ClockTree.PllcfgrByBits | USER/system_stm32f4xx.c:513-542 | decoding by bit number: PLLM 5..0, PLLN 14..6, PLLP 17..16, source 22, PLLQ 27..24 |
| ClockTree.FamilyWords | USER/system_stm32f4xx.c:314-350 | the PLLCFGR words of the five families |
| ClockTree.AhbTableMatchesEncodings | USER/system_stm32f4xx.c:386 | by bits 7..4 of CFGR the shift is the divisor of the prescaler code in the RCC driver header |
| ClockTree.PllClockIsTruncation | USER/system_stm32f4xx.c:513-553 | the result is the truncation of the exact frequency if and only if the product does not wrap, and exact if and only if both divisions are |
| ClockTree.NoWrapInRange | FWLIB/STM32F4xx_StdPeriph_Driver/inc/stm32f4xx_rcc.h:92-94 | no wrap for a PLL input of at most 2 MHz and a factor of at most 432 |
| ClockTree.CoreClockFromPll | USER/system_stm32f4xx.c:494-554 | SystemCoreClockUpdate against the PLL in use, fields given by bit numbers, in every build and from any registers that select it: where the build knows the source, truncated exactly without wrap, exact exactly when both divisions are, and no wrap in the documented ranges; where it does not, 0, and right exactly below the loss of truncation |
| ClockTree.UnknownSourceIsWrong | USER/system_stm32f4xx.c:534-540 | the input for which an F411 build computes 0 for a PLL at 168 MHz |
| ClockTree.CoreClockFromOscillator | USER/system_stm32f4xx.c:501-553 | from any registers that select HSI, HSE or the unused code: that oscillator divided by the AHB prescaler, rounded down |
| Boot.StepKeepsInv | USER/system_stm32f4xx.c:417-664 | one statement keeps which clock is requested where, the oscillators on, HSEBYP set for a bypass device alone or where kept, the prescalers, PLLCFGR, wait states, voltage scale and over-drive, whatever the hardware shows |
| BootSafety.BootKeepsInv | USER/system_stm32f4xx.c:417-664 | every statement of every boot from any registers has them |
| BootSafety.BootIsSafe | USER/system_stm32f4xx.c:417-664 | once CFGR is cleared the requested clock is HSI switched on or a PLL fully configured and seen ready; only two statements write PLLCFGR, and with PLLON really clear if and only if the PLL was off before or is not the clock in use when RCC_CR is reset |
| BootSafety.ActualClockIsSafe | USER/system_stm32f4xx.c:652-659 | from reset, on hardware that switches only to what was requested, the core never runs from a PLL that is not configured, and PLLCFGR is written only while the PLL is off |
| BootSafety.WritesAreInOrder | USER/system_stm32f4xx.c:424-654 | what is in place at each write: HSI on before it is requested and requested before the others go off, the power controller clocked before it is written, the PLL configured before it is on, all in place before the switch |
| BootSafety.BypassIsKeptIff | USER/system_stm32f4xx.c:437 | HSEBYP survives the reset if and only if it was set and HSE is the clock in use then |
| BootSafety.PllIsKeptIff | USER/system_stm32f4xx.c:431 | the reset of RCC_CR leaves the PLL on if and only if it was on before the boot and is the clock in use then |
| BootSafety.ClockInUseStaysOn | USER/system_stm32f4xx.c:417-664 | from any registers in which a PLL that is requested or in use is on, that stays so at every statement |
| BootSafety.ReadAfterPollingDecides | USER/system_stm32f4xx.c:576-664 | a boot ends on the PLL exactly when the read after the polling loop saw HSE ready, otherwise on HSI |
| BootSafety.WithoutHseThePllIsChosen | USER/system_stm32f4xx.c:734-770 | a device that feeds the PLL from HSI always ends on the PLL |
| BootSafety.FinalConfiguration | USER/system_stm32f4xx.c:417-664 | the clock configuration of a finished boot, field by field, on both paths, HSEBYP included |
| BootProgress.PollingEnds | USER/system_stm32f4xx.c:576-580 | the polling loop leaves after exactly the polls it needs, with the clock untouched, for all flags |
| BootProgress.PollBound | USER/system_stm32f4xx.c:570-580 | at most HSE_STARTUP_TIMEOUT polls; a timeout of 0 means 2^32 |
| BootProgress.FairBootFinishes | USER/system_stm32f4xx.c:624-659 | a boot whose awaited flags all show finishes |
| BootProgress.FinishedIsFair | USER/system_stm32f4xx.c:624-659 | a boot that finishes has seen every flag it waited for |
| BootProgress.BootFinishesIff | USER/system_stm32f4xx.c:417-664 | a boot finishes if and only if every awaited flag eventually shows |
| BootSwitch.FallbackFinishes | USER/system_stm32f4xx.c:582-664 | a boot that does not see HSE finishes on every hardware, two statements after it has looked |
| BootSwitch.RecurringFlagsFinish | USER/system_stm32f4xx.c:624-659 | on the flags alone: a boot finishes if it does not see HSE, or if PLLRDY, the over-drive flags where they are used, and the PLL in SWS are each shown again and again |
| BootSwitch.CheckIsReached | USER/system_stm32f4xx.c:573-582 | the exact statement at which the ready flag is read after polling, from any registers |
| BootSwitch.PathTaken | USER/system_stm32f4xx.c:582-664 | that read alone decides the clock requested by every boot that finishes |
| BootSwitch.PllIsAcknowledged | USER/system_stm32f4xx.c:656-659 | after the last wait a boot that requested the PLL runs from the PLL, from any registers and any clock in use |
| BootSwitch.StatusMovesToHsi | USER/system_stm32f4xx.c:428 | while HSI is requested the clock in use is the old one or HSI, and stays HSI |
| BootSwitch.FallbackStatus | USER/system_stm32f4xx.c:661-664 | after the fallback the clock in use is HSI if and only if the status showed HSI at some access after the clearing of CFGR, otherwise the old one |
| BootSwitch.FallbackReachesHsiIff | USER/system_stm32f4xx.c:661-664 | on all hardware the fallback ends on HSI if and only if the status already shows HSI when CFGR has been cleared |
| BootSwitch.FallbackIsSafeIff | USER/system_stm32f4xx.c:661-664 | in terms of the state before the boot: on all hardware the fallback ends on HSI if and only if HSI is in use and requested when the boot begins |
| BootSwitch.UnreadyFallsBack | USER/system_stm32f4xx.c:576-664 | hardware that never shows HSE, and keeps its clock or switches at once to what was requested before, obeys the rule of the switch; its boot falls back and finishes |
| BootSwitch.FromResetTheSwitchIsMade | USER/system_stm32f4xx.c:417-664 | from reset the core ends on the clock requested |
| ClockRegisters.UnpackWritten | USER/system_stm32f4xx.c:425-440 | with the masks of `USER/stm32f4xx.h`: a register write replaces the fields of that register and no others |
| ClockRegisters.UnpackSettled | USER/system_stm32f4xx.c:577-582 | with the masks of `USER/stm32f4xx.h`: what hardware does to status bits changes no software field |
| ClockRegisters.CrByBits | USER/system_stm32f4xx.c:425-437 | the fields of RCC_CR by bit number |
| ClockRegisters.CfgrFieldsByBits | USER/system_stm32f4xx.c:598-613 | the fields of RCC_CFGR by bit number |
| ClockRegisters.PowerByBits | USER/system_stm32f4xx.c:594-595 | the fields of RCC_APB1ENR, PWR_CR and CPACR by bit number |
| ClockRegisters.StatementSpares | USER/system_stm32f4xx.c:420-456 | a statement leaves every bit that belongs to no field as it was, or clears it in the reset of CFGR |
| ClockRegisters.OneRegister | USER/system_stm32f4xx.c:417-456 | a read-modify-write is a statement of the machine if it is one on the fields of its register |
| ClockRegisters.PartDoes | USER/system_stm32f4xx.c:598-613 | likewise for an access that touches one field of CFGR |
| ClockRegisters.UnpackAccepted | FWLIB/STM32F4xx_StdPeriph_Driver/src/stm32f4xx_rcc.c:480 | the clears that the hardware ignores in the word of RCC_CR are those it ignores in the fields |
| BootDriver.SettledShowsFlags | USER/system_stm32f4xx.c:578-582 | masked reads see the bits the hardware shows |
| BootDriver.FlagsByBits | USER/system_stm32f4xx.c:578-657 | the flags by bit number: HSERDY 17 and PLLRDY 25 of RCC_CR, over-drive 16 and 17 of PWR_CSR, the clock in use 3..2 of RCC_CFGR |
| BootDriver.ClockController.constructor | USER/system_stm32f4xx.c:370-384 | any register contents, and the declared SystemCoreClock |
| BootDriver.ClockController.Modify | USER/system_stm32f4xx.c:425-440 | one masked read-modify-write, with the clears the hardware ignores, keeps the registers equal to the machine and all other bits as they were |
| BootDriver.ClockController.ResetClocks | USER/system_stm32f4xx.c:417-441 | the reset sequence, in its order, follows the machine |
| BootDriver.ClockController.StartHse | USER/system_stm32f4xx.c:570-589 | the counted polling loop terminates on every hardware, and the result is bit 17 of RCC_CR as the read after it saw it |
| BootDriver.ClockController.StartPll | USER/system_stm32f4xx.c:593-621 | power, prescalers, PLL factors and PLLON, in this order, follow the machine |
| BootDriver.ClockController.AwaitPll | USER/system_stm32f4xx.c:624-626 | the wait ends, with bit 25 of RCC_CR set |
| BootDriver.ClockController.AwaitOverdrive | USER/system_stm32f4xx.c:631-633 | the wait ends, with bit 16 of PWR_CSR set |
| BootDriver.ClockController.AwaitOverdriveSwitch | USER/system_stm32f4xx.c:635-637 | the wait ends, with bit 17 of PWR_CSR set |
| BootDriver.ClockController.Overdrive | USER/system_stm32f4xx.c:628-637 | both over-drive steps with their waits follow the machine |
| BootDriver.ClockController.SelectPll | USER/system_stm32f4xx.c:642-654 | wait states come before the switch request |
| BootDriver.ClockController.AwaitSwitch | USER/system_stm32f4xx.c:656-659 | the wait ends, with bits 3..2 of RCC_CFGR showing the PLL |
| BootDriver.ClockController.SetSysClock | USER/system_stm32f4xx.c:564-772 | the whole sequence with its fallback follows the machine |
| BootDriver.ClockController.SystemInit | USER/system_stm32f4xx.c:417-456 | on hardware that answers, the boot terminates, is a run of the machine from the initial registers, ends with the stated bits in every register and all other bits as they were or cleared in CFGR, and is on the PLL exactly when bit 17 of RCC_CR was set in the read after polling |
| BootDriver.ClockController.SystemCoreClockUpdate | USER/system_stm32f4xx.c:494-554 | SystemCoreClock becomes the frequency the registers stand for, and no other state changes |
| BootDriver.ClockController.InitThenUpdate | USER/system_stm32f4xx.c:417-554 | both in code: SystemCoreClock after a boot from any registers, from reset, and with its number for each family at nominal oscillators |
| BootDriver.ClockController.SetSourceClock | USER/system_stm32f4xx.c:499-548 | the frequency of the selected source, with the default case |
| BootDriver.ClockController.BuildVco | USER/system_stm32f4xx.c:516-541 | the VCO frequency by build and source bit, 0 where the build has no branch |
| BootReadBack.ReadBack | USER/system_stm32f4xx.c:494-554 | after a finished boot the update computes the planned PLL frequency, or after the fallback what the build makes of the clock still in use, 0 for a PLL kept in an F411 bypass build |
| BootReadBack.BootThenUpdate | USER/system_stm32f4xx.c:417-664 | end to end from any registers and any clock in use: on the PLL with its planned frequency exactly when the read after polling saw HSE; otherwise HSI requested, and in use and computed exactly under the stated condition, else the old clock in use and what the build makes of it |
| BootReadBack.ResetThenUpdate | USER/system_stm32f4xx.c:417-664 | from reset: the planned frequency if HSE was seen ready, else HSI, and the status equals the request |
| BootReadBack.RestartWithoutCrystal | USER/system_stm32f4xx.c:417-664 | on hardware that has not left the PLL when the boot ends: the PLL stays on, PLLCFGR is written meanwhile, HSI is requested, and 96 MHz is computed |
| BootReadBack.DeclaredIsPlanned | USER/system_stm32f4xx.c:370-384 | each family's declared SystemCoreClock is right at 8 MHz HSE and 16 MHz HSI |
| BootReadBack.DeclaredIff | USER/system_stm32f4xx.c:316-384 | for every family the exact oscillator frequencies for which it is right, wrap included |
| BusClocks.FinalRegisters | USER/system_stm32f4xx.c:417-664 | the final registers bit by bit, on both paths |
| BusClocks.FamilyBoot | USER/system_stm32f4xx.c:39-230 | HCLK, PCLK1, PCLK2, VCO / PLLQ and wait states of each family, read from the final registers as the RCC driver reads them |
| BusClocks.BusesOf | FWLIB/STM32F4xx_StdPeriph_Driver/src/stm32f4xx_rcc.c:1138-1157 | the bus clocks from the prescaler bits 12..10 and 15..13 |
| BusClocks.TablesAgreeIff | FWLIB/STM32F4xx_StdPeriph_Driver/src/stm32f4xx_rcc.c:141 | the HPRE codes on which the two prescaler tables agree |
| TickHook.DividerState | UCOSII/PORT/os_cpu_c.c:322-335 | counter and number of signals after n ticks, for every period |
| TickHook.DividerIsExactIff | UCOSII/PORT/os_cpu_c.c:329-333 | exactly n / period signals for all n if and only if the period is below 65536 |
| TickHook.WindowHoldsExactly | UCOSII/PORT/os_cpu_c.c:322-335 | k periods of consecutive ticks hold exactly k signals wherever they start |
| TickHook.SecondsAreExactIff | UCOSII/PORT/os_cpu_c.c:330 | k seconds of ticks hold k times the timer's rate of signals, for all k, if and only if the tick rate is a multiple of it |
| TickHook.ClockToTimerSignals | UCOSII/PORT/os_cpu_c.c:322-335 | counter and divider together signal once every ticks * period clocks |
| TickHook.TimerDivider.OSInitHookBegin | UCOSII/PORT/os_cpu_c.c:52-57 | the counter starts at zero |
| TickHook.TimerDivider.OSTimeTickHook | UCOSII/PORT/os_cpu_c.c:322-335 | one tick keeps counter and signals equal to remainder and quotient of the tick count by the two rates, and k * ticksPerSec ticks have signalled k * timerTicksPerSec times |
| Frames.ImageAt | UCOSII/PORT/os_cpu_c.c:221-258 | with PendSV_Handler (lines 160-176 of the assembly file): the order of the registers in a saved context, with and without the floating-point part |
| Frames.RestoreOfImage | UCOSII/PORT/os_cpu_c.c:221-258 | with PendSV_Handler (lines 160-208 of the assembly file): restoring in the format of the save gives back every register |
| TaskFrame.Push | UCOSII/PORT/os_cpu_c.c:202 | one pre-decrement store writes one word, below all written before |
| TaskFrame.PushFpLow | UCOSII/PORT/os_cpu_c.c:204-219 | the S15 to S0 words, and nothing else on the stack |
| TaskFrame.PushAutoSaved | UCOSII/PORT/os_cpu_c.c:222-229 | the exception frame, its top word stored where the pointer stands |
| TaskFrame.PushFpHigh | UCOSII/PORT/os_cpu_c.c:232-247 | the S31 to S16 words |
| TaskFrame.PushCalleeSaved | UCOSII/PORT/os_cpu_c.c:251-258 | the R11 to R4 words |
| TaskFrame.OSTaskStkInit | UCOSII/PORT/os_cpu_c.c:193-261 | the pointer returned and the whole stack afterwards, in both builds |
| TaskFrame.OnlyTheFrameIsWritten | UCOSII/PORT/os_cpu_c.c:193-261 | no cell outside the frame changes |
| TaskFrame.NewTaskStarts | UCOSII/PORT/os_cpu_c.c:193-261 | a restore of the frame gives R0 = argument, PC = entry, LR = OS_TaskReturn, bit 24 of xPSR and no other, R1 to R12 with their own numbers, an empty stack |
| TaskFrame.FpValuesAreShifted | UCOSII/PORT/os_cpu_c.c:200-222 | what S0 to S31 and FPSCR really start with in an FPU build, by register number |
| TaskFrame.FpFrameWithoutFp | UCOSII/PORT/os_cpu_c.c:221-258 | with PendSV_Handler (lines 193-208 of the assembly file): where execution starts when an FPU frame is restored without its floating-point words |
| TaskFrame.FrameWithFp | UCOSII/PORT/os_cpu_c.c:221-258 | with PendSV_Handler (lines 193-208 of the assembly file): where execution starts when a frame without floating-point words is restored with them |
| ContextSwitch.SavedIsRestored | UCOSII/PORT/os_cpu_c.c:264-275 | with PendSV_Handler (lines 160-208 of the assembly file): save, then restore: same registers, same stack in use |
| ContextSwitch.RestoredIffFormatsAgree | UCOSII/PORT/os_cpu_c.c:264-275 | with PendSV_Handler (lines 165-201 of the assembly file): of one save and one restore: the stack pointer is right if and only if they use one format |
| ContextSwitch.SwitchKeepsViews | UCOSII/PORT/os_cpu_c.c:264-275 | with PendSV_Handler (lines 160-208 of the assembly file): a switch changes nothing that any µC/OS task can see |
| ContextSwitch.StepRefines | UCOSII/PORT/os_cpu_c.c:264-275 | with PendSV_Handler (lines 160-208 of the assembly file): one event on the shared processor is that event on private processors |
| ContextSwitch.RunRefines | UCOSII/PORT/os_cpu_c.c:264-275 | with PendSV_Handler (lines 160-208 of the assembly file): over every run the shared processor is as good as one for each |
| ContextSwitch.RunIsTransparentIff | UCOSII/PORT/os_cpu_c.c:264-275 | with PendSV_Handler (lines 160-208 of the assembly file): in a system that begins without floating-point contexts, registers and stacks are kept over a run if and only if no switch to another µC/OS task follows a use of the FPU |
| ContextSwitch.FpWorkThenSwitch | UCOSII/PORT/os_cpu_c.c:264-275 | with PendSV_Handler (lines 165-201 of the assembly file): after one such switch the stack pointer is 34 words too high |
| ContextSwitch.EveryTaskBeginsAtItsEntry | UCOSII/PORT/os_cpu_c.c:193-261 | with OSStartHighRdy (lines 92-107 of the assembly file): in every run a µC/OS task that has done no work yet is at its entry with its argument |
| ContextSwitch.FirstTaskStartsIff | UCOSII/PORT/os_cpu_c.c:193-261 | with OSStartHighRdy (lines 92-107 of the assembly file): the first start is right if and only if the caller of OSStart uses the FPU exactly in an FPU build, and where execution starts in both other cases |

## Left out

- CoreDriver.Core.NVIC_SystemReset: the register write only; the two barriers and the endless wait for the reset are not modelled.
- CoreDriver.Core.NVIC_EnableIRQ: external numbers 0 to 239 only, as the comment of the function demands; the C expression `1 << 31` is taken as bit 31.
- CoreDriver.Core.NVIC_SetPriority: numbers below -12 are outside SHP; `Nvic.SlotOfSystem` says which, and the out-of-bounds store itself is not modelled.
- Itm.Port.ITM_ReceiveChar: a stretch of time without the debugger; the interleavings are in the machine of module `Itm`.
- BootDriver.ClockController.SystemInit: terminates only on hardware that answers, because the code waits for ever otherwise; `BootProgress.BootFinishesIff` is the exact condition and `BootSafety.BootIsSafe` needs none.
- BootDriver.ClockController.SystemCoreClockUpdate: asks for a nonzero PLLM while the PLL is the clock, as the source divides by it; and the hardware sets its bits once, before the first read, because the later reads use software bits only.
- BootReadBack.RestartWithoutCrystal: PLLCFGR takes a write although the PLL is on; `RCC_PLLConfig` only says that it must not be used then, so what a real PLL does with it is not modelled. A clear of HSION is never asked for.
- ContextSwitch.RestoredIffFormatsAgree: about one save and one restore; what it means for a run is in `ContextSwitch.RunIsTransparentIff`.
- ContextSwitch.StepRefines: the handler is modelled on values and not on mutable registers; a context is saved in one step, with exception entry and exit.
- ContextSwitch.RunRefines: the padding word of 8-byte stack alignment, lazy stacking of S0 to S15 and code that clears the FPCA bit are not modelled; stacks are disjoint and never overflow.
- BootReadBack.BootThenUpdate: the hardware switches only to what is requested; hardware that switches by itself, as the clock security system does, is not modelled (CSSON is cleared by the boot).
- TickHook.TimerDivider.OSTimeTickHook: the application hook it may call is not modelled; OSTmrSignal is the count of its calls.
- A status bit belongs to the hardware for good: a read-modify-write is one step, because the bits that change behind it ignore the write.
- External memory set-up (`SystemInit_ExtMemCtl`), vector table in SRAM, and the SRAM, FSMC, I2C, LCD and touch drivers.
- `ITM_SendChar`, fault handlers and barriers: input and output or deliberate non-termination.
- µC/OS-II scheduling, which picks the next µC/OS task: here every choice is possible.
- The one-instruction wrappers of `CORE/core_cmFunc.h`, `CORE/core_cmInstr.h` and `CORE/core_cm4_simd.h`, and the peripheral driver headers.
