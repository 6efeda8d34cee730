/** The packed registers refine a controller made of sets and a map: over every
    sequence of access-function calls, interleaved with what the hardware itself does to
    pending and active bits, the registers stand for the abstract state.
 */
module NvicRefinement {
  import opened Words
  import opened PriorityCodec
  import opened Nvic

  datatype Controller = Controller(
    enabled: set<int>,
    pending: set<int>,
    active: set<int>,
    priority: map<int, nat>,
    group: nat)

  datatype Event =
    | Enable(irq: int)
    | Disable(irq: int)
    | SetPending(irq: int)
    | ClearPending(irq: int)
    | Prioritise(irq: int, value: u32)
    | SetGrouping(group: u32)
    | RequestReset
      // Hardware events: a line is asserted; a pending interrupt is taken; its handler
      // returns.
    | Raised(irq: int)
    | Taken(irq: int)
    | Returned(irq: int)

  /** The interrupt numbers the functions accept. */
  predicate Allowed(e: Event) {
    match e
    case Prioritise(irq, _) => External(irq) || System(irq)
    case SetGrouping(_) => true
    case RequestReset => true
    case _ => External(e.irq)
  }

  // ---------- Registers ----------

  function Step(bits: PrioBits, r: Regs, e: Event): Regs
    requires Allowed(e)
    requires |r.enable| == 8 && |r.pending| == 8 && |r.active| == 8 && |r.ip| == 240 && |r.shp| == 12
  {
    match e
    case Enable(irq) => EnableIRQ(r, irq)
    case Disable(irq) => DisableIRQ(r, irq)
    case SetPending(irq) => SetPendingIRQ(r, irq)
    case ClearPending(irq) => ClearPendingIRQ(r, irq)
    case Prioritise(irq, value) => SetPriority(bits, r, irq, value)
    case SetGrouping(group) => SetPriorityGrouping(r, group)
    case RequestReset => SystemReset(r)
    case Raised(irq) => SetPendingIRQ(r, irq)
    case Taken(irq) =>
      IndexOfExternal(irq);
      ClearPendingIRQ(r, irq).(active := SetBits(r.active, WordIndex(irq), Shl(1, BitIndex(irq))))
    case Returned(irq) =>
      IndexOfExternal(irq);
      r.(active := ClearBits(r.active, WordIndex(irq), Shl(1, BitIndex(irq))))
  }

  // ---------- Sets and a map ----------

  function AbstractStep(bits: PrioBits, c: Controller, e: Event): Controller {
    match e
    case Enable(irq) => c.(enabled := c.enabled + {irq})
    case Disable(irq) => c.(enabled := c.enabled - {irq})
    case SetPending(irq) => c.(pending := c.pending + {irq})
    case ClearPending(irq) => c.(pending := c.pending - {irq})
    case Prioritise(irq, value) => c.(priority := c.priority[irq := value % Pow2(bits)])
    case SetGrouping(group) => c.(group := group % 8)
    case RequestReset => c
    case Raised(irq) => c.(pending := c.pending + {irq})
    case Taken(irq) => c.(pending := c.pending - {irq}, active := c.active + {irq})
    case Returned(irq) => c.(active := c.active - {irq})
  }

  ghost function AbstractRun(bits: PrioBits, c: Controller, events: seq<Event>): Controller
    decreases |events|
  {
    if events == [] then c else AbstractRun(bits, AbstractStep(bits, c, events[0]), events[1..])
  }

  // ---------- The view ----------

  function BitsOf(words: seq<u32>): set<int>
    requires |words| == 8
  {
    set irq | 0 <= irq < 240 && Bit(words[irq / 32], irq % 32)
  }

  ghost function View(bits: PrioBits, r: Regs): Controller
    requires WellFormed(bits, r)
  {
    Controller(
      BitsOf(r.enable),
      BitsOf(r.pending),
      BitsOf(r.active),
      map irq | -12 <= irq < 240 :: GetPriority(bits, r, irq),
      GetPriorityGrouping(r))
  }

  lemma SetBitsAddsOne(words: seq<u32>, irq: int)
    requires |words| == 8 && External(irq)
    ensures var w := SetBits(words, WordIndex(irq), Shl(1, BitIndex(irq)));
            |w| == 8 && BitsOf(w) == BitsOf(words) + {irq}
  {
    IndexOfExternal(irq);
    var w := SetBits(words, irq / 32, Pow2(irq % 32));
    forall j | 0 <= j < 240
      ensures Bit(w[j / 32], j % 32) <==> Bit(words[j / 32], j % 32) || j == irq
    {
      if j / 32 == irq / 32 {
        BitOfOr(words[j / 32], Pow2(irq % 32), j % 32);
        BitOfPow2(irq % 32, j % 32);
      }
    }
  }

  lemma ClearBitsRemovesOne(words: seq<u32>, irq: int)
    requires |words| == 8 && External(irq)
    ensures var w := ClearBits(words, WordIndex(irq), Shl(1, BitIndex(irq)));
            |w| == 8 && BitsOf(w) == BitsOf(words) - {irq}
  {
    IndexOfExternal(irq);
    var w := ClearBits(words, irq / 32, Pow2(irq % 32));
    forall j | 0 <= j < 240
      ensures Bit(w[j / 32], j % 32) <==> Bit(words[j / 32], j % 32) && j != irq
    {
      if j / 32 == irq / 32 {
        BitOfAndNot(words[j / 32], Pow2(irq % 32), j % 32);
        BitOfPow2(irq % 32, j % 32);
      }
    }
  }

  /** GetPendingIRQ and GetActive read membership in the set. */
  lemma TestBitIsMembership(words: seq<u32>, irq: int)
    requires |words| == 8 && External(irq)
    ensures TestBit(words, irq) <==> irq in BitsOf(words)
  {
    IndexOfExternal(irq);
    AndPow2IsBit(words[irq / 32], irq % 32);
  }

  /** Of all priority bytes the call writes one. */
  lemma SetPriorityWritesOneByte(bits: PrioBits, r: Regs, irq: int, value: u32, other: int)
    requires |r.ip| == 240 && |r.shp| == 12
    requires (External(irq) || System(irq)) && (External(other) || System(other))
    ensures RawPriority(SetPriority(bits, r, irq, value), other) ==
            if other == irq then StoredByte(bits, value) else RawPriority(r, other)
  {
    hide StoredByte, SystemSlot;
    if irq < 0 {
      SlotOfSystem(irq);
    }
    if other < 0 {
      SlotOfSystem(other);
    }
  }

  lemma ZeroPriority(bits: PrioBits, r: Regs, irq: int)
    requires |r.ip| == 240 && |r.shp| == 12 && (External(irq) || System(irq))
    requires (forall i :: 0 <= i < 240 ==> r.ip[i] == 0) && (forall i :: 0 <= i < 12 ==> r.shp[i] == 0)
    ensures GetPriority(bits, r, irq) == 0
  {
    if irq < 0 {
      SlotOfSystem(irq);
    }
    assert RawPriority(r, irq) == 0;
    SmallQuotient(0, Pow2(8 - bits));
  }

  lemma SetPriorityUpdatesOne(bits: PrioBits, r: Regs, irq: int, value: u32)
    requires WellFormed(bits, r) && (External(irq) || System(irq))
    ensures WellFormed(bits, SetPriority(bits, r, irq, value))
    ensures View(bits, SetPriority(bits, r, irq, value))
         == View(bits, r).(priority := View(bits, r).priority[irq := value % Pow2(bits)])
  {
    hide Shr, And, StoredByte;
    var r' := SetPriority(bits, r, irq, value);
    StoredValue(bits, value);
    if irq < 0 {
      SlotOfSystem(irq);
    }
    forall j | -12 <= j < 240
      ensures GetPriority(bits, r', j) == if j == irq then value % Pow2(bits) else GetPriority(bits, r, j)
    {
      if j < 0 {
        SlotOfSystem(j);
      }
    }
  }

  lemma AircrEventRefines(bits: PrioBits, r: Regs, e: Event)
    requires WellFormed(bits, r) && (e.SetGrouping? || e.RequestReset?)
    ensures WellFormed(bits, Step(bits, r, e))
    ensures View(bits, Step(bits, r, e)) == AbstractStep(bits, View(bits, r), e)
  {
    AircrEffect(r, if e.SetGrouping? then e.group else 0);
    var r' := Step(bits, r, e);
    assert r' == r.(aircr := r'.aircr);
    SamePriorities(bits, r, r');
  }

  lemma SamePriorities(bits: PrioBits, r: Regs, r': Regs)
    requires WellFormed(bits, r) && WellFormed(bits, r') && r.ip == r'.ip && r.shp == r'.shp
    ensures View(bits, r).priority == View(bits, r').priority
  {
    forall j | -12 <= j < 240
      ensures GetPriority(bits, r', j) == GetPriority(bits, r, j)
    {
    }
  }

  lemma BitEventRefines(bits: PrioBits, r: Regs, e: Event)
    requires WellFormed(bits, r) && Allowed(e) && !e.SetGrouping? && !e.RequestReset? && !e.Prioritise?
    ensures WellFormed(bits, Step(bits, r, e))
    ensures View(bits, Step(bits, r, e)) == AbstractStep(bits, View(bits, r), e)
  {
    hide SetBits, ClearBits, BitsOf, GetPriority, WordIndex, BitIndex, Shl;
    SetBitsAddsOne(r.enable, e.irq);
    ClearBitsRemovesOne(r.enable, e.irq);
    SetBitsAddsOne(r.pending, e.irq);
    ClearBitsRemovesOne(r.pending, e.irq);
    SetBitsAddsOne(r.active, e.irq);
    ClearBitsRemovesOne(r.active, e.irq);
    var r' := Step(bits, r, e);
    assert r' == r.(enable := r'.enable, pending := r'.pending, active := r'.active);
    SamePriorities(bits, r, r');
  }

  /** One event on the registers is that event on the view. */
  lemma StepRefines(bits: PrioBits, r: Regs, e: Event)
    requires WellFormed(bits, r) && Allowed(e)
    ensures WellFormed(bits, Step(bits, r, e))
    ensures View(bits, Step(bits, r, e)) == AbstractStep(bits, View(bits, r), e)
  {
    if e.Prioritise? {
      SetPriorityUpdatesOne(bits, r, e.irq, e.value);
    } else if e.SetGrouping? || e.RequestReset? {
      AircrEventRefines(bits, r, e);
    } else {
      BitEventRefines(bits, r, e);
    }
  }

  // ---------- Runs ----------

  ghost predicate AllAllowed(events: seq<Event>) {
    forall i :: 0 <= i < |events| ==> Allowed(events[i])
  }

  ghost function Run(bits: PrioBits, r: Regs, events: seq<Event>): (r': Regs)
    requires WellFormed(bits, r) && AllAllowed(events)
    ensures WellFormed(bits, r')
    decreases |events|
  {
    if events == [] then r
    else
      StepRefines(bits, r, events[0]);
      Run(bits, Step(bits, r, events[0]), events[1..])
  }

  /** Over every run from every register contents, the registers stand for the abstract
      controller. */
  lemma {:induction false} RunRefines(bits: PrioBits, r: Regs, events: seq<Event>)
    requires WellFormed(bits, r) && AllAllowed(events)
    ensures View(bits, Run(bits, r, events)) == AbstractRun(bits, View(bits, r), events)
    decreases |events|
  {
    if events != [] {
      StepRefines(bits, r, events[0]);
      RunRefines(bits, Step(bits, r, events[0]), events[1..]);
    }
  }

  // ---------- What runs keep ----------

  /** The group last set, modulo 8. */
  ghost function LastGroup(events: seq<Event>, initial: nat): nat
    decreases |events|
  {
    if events == [] then initial
    else LastGroup(events[1..], if events[0].SetGrouping? then events[0].group % 8 else initial)
  }

  lemma {:induction false} AbstractGroup(bits: PrioBits, c: Controller, events: seq<Event>)
    ensures AbstractRun(bits, c, events).group == LastGroup(events, c.group)
    decreases |events|
  {
    if events != [] {
      AbstractGroup(bits, AbstractStep(bits, c, events[0]), events[1..]);
    }
  }

  /** After any run, NVIC_GetPriorityGrouping returns the value last set, modulo 8. */
  lemma GroupingReadsBack(bits: PrioBits, r: Regs, events: seq<Event>)
    requires WellFormed(bits, r) && AllAllowed(events)
    ensures GetPriorityGrouping(Run(bits, r, events)) == LastGroup(events, GetPriorityGrouping(r))
  {
    RunRefines(bits, r, events);
    AbstractGroup(bits, View(bits, r), events);
  }

  /** The run neither sets the priority of `irq` nor changes the grouping. */
  ghost predicate Leaves(events: seq<Event>, irq: int) {
    forall i :: 0 <= i < |events| ==>
      !events[i].SetGrouping? && !(events[i].Prioritise? && events[i].irq == irq)
  }

  lemma {:induction false} AbstractKeeps(bits: PrioBits, c: Controller, events: seq<Event>, irq: int)
    requires irq in c.priority && Leaves(events, irq)
    ensures var c' := AbstractRun(bits, c, events);
            irq in c'.priority && c'.priority[irq] == c.priority[irq] && c'.group == c.group
    decreases |events|
  {
    if events != [] {
      AbstractKeeps(bits, AbstractStep(bits, c, events[0]), events[1..], irq);
    }
  }

  lemma RunKeepsPriority(bits: PrioBits, r: Regs, events: seq<Event>, irq: int)
    requires WellFormed(bits, r) && AllAllowed(events) && Leaves(events, irq)
    requires External(irq) || System(irq)
    ensures var r' := Run(bits, r, events);
            && GetPriority(bits, r', irq) == GetPriority(bits, r, irq)
            && RawPriority(r', irq) == RawPriority(r, irq)
            && GetPriorityGrouping(r') == GetPriorityGrouping(r)
  {
    var r' := Run(bits, r, events);
    RunRefines(bits, r, events);
    AbstractKeeps(bits, View(bits, r), events, irq);
    assert GetPriority(bits, r, irq) == View(bits, r).priority[irq];
    assert GetPriority(bits, r', irq) == View(bits, r').priority[irq];
    RawIsImplemented(bits, r, irq);
    RawIsImplemented(bits, r', irq);
  }

  lemma RawIsImplemented(bits: PrioBits, r: Regs, irq: int)
    requires WellFormed(bits, r) && (External(irq) || System(irq))
    ensures Implemented(bits, RawPriority(r, irq))
    ensures RawPriority(r, irq) == GetPriority(bits, r, irq) * Pow2(8 - bits)
    ensures GetPriority(bits, r, irq) < Pow2(bits) <= 256
  {
    if irq < 0 {
      SlotOfSystem(irq);
    }
    ImplementedIsStored(bits, RawPriority(r, irq));
    Pow2Monotone(bits, 8);
    Pow2UpTo8();
  }

  /** Registers after a request to give `irq` the pair (preempt, sub) under the current
      grouping. */
  ghost function Requested(bits: PrioBits, r: Regs, irq: int, preempt: u32, sub: u32): (r': Regs)
    requires WellFormed(bits, r) && (External(irq) || System(irq))
    ensures WellFormed(bits, r')
  {
    var x := EncodePriority(bits, GetPriorityGrouping(r), preempt, sub);
    SetPriorityUpdatesOne(bits, r, irq, x);
    SetPriority(bits, r, irq, x)
  }

  lemma RequestStores(bits: PrioBits, r: Regs, irq: int, preempt: u32, sub: u32)
    requires WellFormed(bits, r) && (External(irq) || System(irq))
    ensures var g := GetPriorityGrouping(r);
            var r' := Requested(bits, r, irq, preempt, sub);
            && GetPriority(bits, r', irq) == EncodePriority(bits, g, preempt, sub)
            && RawPriority(r', irq) == StoredByte(bits, EncodePriority(bits, g, preempt, sub))
            && GetPriorityGrouping(r') == g
  {
    StoreReadsBack(bits, r, irq, EncodePriority(bits, GetPriorityGrouping(r), preempt, sub));
  }

  lemma StoreReadsBack(bits: PrioBits, r: Regs, irq: int, x: u32)
    requires WellFormed(bits, r) && (External(irq) || System(irq)) && x < Pow2(bits)
    ensures var r' := SetPriority(bits, r, irq, x);
            GetPriority(bits, r', irq) == x && RawPriority(r', irq) == StoredByte(bits, x)
  {
    if irq < 0 {
      SlotOfSystem(irq);
    }
    StoredEncoding(bits, x);
  }

  /** The pair requested reads back, cut to its widths, after any run that leaves the
      interrupt's priority and the grouping alone. */
  lemma PriorityRoundTrip(bits: PrioBits, r: Regs, irq: int, preempt: u32, sub: u32, events: seq<Event>)
    requires WellFormed(bits, r) && AllAllowed(events) && Leaves(events, irq)
    requires External(irq) || System(irq)
    ensures var g := GetPriorityGrouping(r);
            var r' := Run(bits, Requested(bits, r, irq, preempt, sub), events);
            && GetPriorityGrouping(r') == g
            && GetPriority(bits, r', irq) < TWO_32
            && DecodePreempt(bits, GetPriority(bits, r', irq), g) == preempt % Pow2(PreemptBits(bits, g))
            && DecodeSub(bits, GetPriority(bits, r', irq), g) == sub % Pow2(SubBits(bits, g))
  {
    RequestStores(bits, r, irq, preempt, sub);
    RunKeepsPriority(bits, Requested(bits, r, irq, preempt, sub), events, irq);
    DecodeOfEncode(bits, GetPriorityGrouping(r), preempt, sub);
  }

  /** Changing the grouping re-partitions every stored priority but keeps its combined
      value, which decoding and re-encoding under the new grouping gives back. */
  lemma RegroupingKeepsPriorities(bits: PrioBits, r: Regs, group: u32, irq: int)
    requires WellFormed(bits, r) && (External(irq) || System(irq))
    ensures var r' := SetPriorityGrouping(r, group);
            var g := GetPriorityGrouping(r');
            && g == group % 8
            && GetPriority(bits, r', irq) == GetPriority(bits, r, irq) < TWO_32
            && EncodePriority(bits, g, DecodePreempt(bits, GetPriority(bits, r', irq), g),
                                       DecodeSub(bits, GetPriority(bits, r', irq), g))
               == GetPriority(bits, r, irq)
  {
    AircrEffect(r, group);
    RawIsImplemented(bits, r, irq);
    var x := GetPriority(bits, r, irq);
    EncodeOfDecode(bits, group % 8, x);
    SmallMod(x, Pow2(bits));
  }

  /** Two interrupts whose priorities are requested as pairs: after any run that leaves
      both priorities and the grouping alone, the processor preempts and chooses between
      them exactly as the cut pairs say. */
  lemma RequestsDecidePreemption(bits: PrioBits, r: Regs, events: seq<Event>,
                                 i: int, p1: u32, s1: u32, j: int, p2: u32, s2: u32)
    requires WellFormed(bits, r) && AllAllowed(events) && Leaves(events, i) && Leaves(events, j)
    requires (External(i) || System(i)) && (External(j) || System(j)) && i != j
    ensures var g := GetPriorityGrouping(r);
            var r' := Run(bits, Requested(bits, Requested(bits, r, i, p1, s1), j, p2, s2), events);
            var a1, a2 := p1 % Pow2(PreemptBits(bits, g)), p2 % Pow2(PreemptBits(bits, g));
            var b1, b2 := s1 % Pow2(SubBits(bits, g)), s2 % Pow2(SubBits(bits, g));
            && GetPriorityGrouping(r') == g
            && (GroupPriority(RawPriority(r', i), g) < GroupPriority(RawPriority(r', j), g) <==> a1 < a2)
            && (TakenBefore(g, RawPriority(r', i), i + 16, RawPriority(r', j), j + 16)
                <==> LexLess(a1, b1, a2, b2) || (a1 == a2 && b1 == b2 && i < j))
  {
    hide GroupPriority, TakenBefore, Pow2;
    var g := GetPriorityGrouping(r);
    var ri := Requested(bits, r, i, p1, s1);
    var rj := Requested(bits, ri, j, p2, s2);
    RequestStores(bits, r, i, p1, s1);
    RequestStores(bits, ri, j, p2, s2);
    assert RawPriority(rj, i) == RawPriority(ri, i) by {
      if i < 0 && j < 0 {
        SlotOfSystem(i);
        SlotOfSystem(j);
      }
    }
    RunKeepsPriority(bits, rj, events, i);
    RunKeepsPriority(bits, rj, events, j);
    RequestedOrderIsRealised(bits, g, p1, s1, i + 16, p2, s2, j + 16);
  }
}
