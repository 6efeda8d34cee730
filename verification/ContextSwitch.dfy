/** Task switching by PendSV_Handler and OSStartHighRdy of UCOSII/PORT/os_cpu_a.asm, over
    whole runs: every task has a processor of its own, as long as all agree on using the
    FPU.

    The exception return value tells whether the interrupted task has a floating-point
    context; the handler tests that one value both when it saves the outgoing task and when
    it restores the incoming one, and returns with it.
 */
module ContextSwitch {
  import opened Words
  import opened Frames
  import opened TaskFrame

  /** A task's stack, and OSTCBStkPtr: where its registers are while it does not run. */
  datatype Task = Task(stack: seq<u32>, saved: nat)

  /** fpca says whether the running task has a floating-point context. */
  datatype Kernel = Kernel(tasks: seq<Task>, current: nat, cpu: Cpu, fpca: bool)

  /** The running task computes on its registers and its own stack, with or without
      floating-point instructions; or PendSV switches to another one. */
  datatype Event =
    | Work(cpu: Cpu, stack: seq<u32>, usesFp: bool)
    | Switch(next: nat)

  /** The stack with the registers of c saved below c.sp. The reserved word keeps what it
      held. */
  function SavedOn(stack: seq<u32>, c: Cpu, fp: bool): (stack': seq<u32>)
    requires c.Valid() && Size(fp) <= c.sp <= |stack|
    ensures |stack'| == |stack|
  {
    Replaced(stack, c.sp - Size(fp), Image(c, fp, stack[c.sp - 1]))
  }

  /** PendSV_Handler: R14 decides the format of both halves. */
  function PendSV(k: Kernel, next: nat): Kernel
    requires CanSave(k) && CanRestore(k, next)
  {
    var tasks := Outgoing(k);
    Kernel(tasks, next, Restored(tasks[next].stack, tasks[next].saved, k.fpca, k.cpu), k.fpca)
  }

  predicate CanSave(k: Kernel) {
    && k.cpu.Valid() && k.current < |k.tasks|
    && Size(k.fpca) <= k.cpu.sp <= |k.tasks[k.current].stack|
  }

  function Outgoing(k: Kernel): (tasks: seq<Task>)
    requires CanSave(k)
    ensures |tasks| == |k.tasks|
  {
    k.tasks[k.current := Task(SavedOn(k.tasks[k.current].stack, k.cpu, k.fpca), k.cpu.sp - Size(k.fpca))]
  }

  predicate CanRestore(k: Kernel, next: nat)
    requires CanSave(k)
  {
    next < |k.tasks| && Outgoing(k)[next].saved + Size(k.fpca) <= |Outgoing(k)[next].stack|
  }

  predicate CanWork(k: Kernel, cpu: Cpu, stack: seq<u32>) {
    && k.current < |k.tasks| && cpu.Valid()
    && |stack| == |k.tasks[k.current].stack| && cpu.sp <= |stack|
  }

  /** One event; one that would leave the stack does not happen. */
  function Step(k: Kernel, e: Event): Kernel {
    match e
    case Work(cpu, stack, usesFp) =>
      if CanWork(k, cpu, stack)
      then Kernel(k.tasks[k.current := k.tasks[k.current].(stack := stack)], k.current, cpu, k.fpca || usesFp)
      else k
    case Switch(next) =>
      if CanSave(k) && CanRestore(k, next) then PendSV(k, next) else k
  }

  function Run(k: Kernel, events: seq<Event>): Kernel
    decreases |events|
  {
    if events == [] then k else Run(Step(k, events[0]), events[1..])
  }

  // ---------- A processor for every task ----------

  /** What a task can see: its registers and the part of its stack in use. Without the FPU
      the floating-point registers are nobody's. */
  datatype Private = Private(cpu: Cpu, live: seq<u32>)

  function Seen(c: Cpu, stack: seq<u32>, fp: bool): Private
    requires c.sp <= |stack|
  {
    Private(if fp then c else c.(s := [], fpscr := 0), stack[c.sp..])
  }

  /** Every context is in the same format. */
  predicate Uniform(k: Kernel, fp: bool) {
    && k.fpca == fp && k.cpu.Valid()
    && k.current < |k.tasks| && k.cpu.sp <= |k.tasks[k.current].stack|
    && forall i :: 0 <= i < |k.tasks| && i != k.current ==> k.tasks[i].saved + Size(fp) <= |k.tasks[i].stack|
  }

  function View(k: Kernel, fp: bool, i: nat): Private
    requires Uniform(k, fp) && i < |k.tasks|
  {
    var t := k.tasks[i];
    if i == k.current then Seen(k.cpu, t.stack, fp)
    else Seen(Restored(t.stack, t.saved, fp, k.cpu), t.stack, fp)
  }

  /** The same events on private processors: work touches only the running task's, a
      switch none at all. */
  datatype Abstract = Abstract(all: seq<Private>, current: nat)

  function ViewAll(k: Kernel, fp: bool): (a: Abstract)
    requires Uniform(k, fp)
    ensures |a.all| == |k.tasks| && a.current == k.current
    ensures forall i :: 0 <= i < |k.tasks| ==> a.all[i] == View(k, fp, i)
  {
    Abstract(seq(|k.tasks|, i requires 0 <= i < |k.tasks| => View(k, fp, i)), k.current)
  }

  /** The event can happen, and does not start using the FPU in a system that does not. */
  predicate Allowed(k: Kernel, fp: bool, e: Event) {
    match e
    case Work(cpu, stack, usesFp) => CanWork(k, cpu, stack) && (usesFp ==> fp)
    case Switch(next) => CanSave(k) && next < |k.tasks|
  }

  predicate AllAllowed(k: Kernel, fp: bool, events: seq<Event>)
    decreases |events|
  {
    events != [] ==> Allowed(k, fp, events[0]) && AllAllowed(Step(k, events[0]), fp, events[1..])
  }

  function AbstractStep(a: Abstract, fp: bool, e: Event): Abstract
    requires a.current < |a.all|
  {
    match e
    case Work(cpu, stack, _) =>
      if cpu.sp <= |stack| then a.(all := a.all[a.current := Seen(cpu, stack, fp)]) else a
    case Switch(next) =>
      if next < |a.all| then a.(current := next) else a
  }

  function AbstractRun(a: Abstract, fp: bool, events: seq<Event>): (a': Abstract)
    requires a.current < |a.all|
    ensures |a'.all| == |a.all| && a'.current < |a'.all|
    decreases |events|
  {
    if events == [] then a else AbstractRun(AbstractStep(a, fp, events[0]), fp, events[1..])
  }

  // ---------- Save and restore ----------

  lemma SavedIsRestored(stack: seq<u32>, c: Cpu, fp: bool, before: Cpu)
    requires c.Valid() && before.Valid() && Size(fp) <= c.sp <= |stack|
    ensures var m := SavedOn(stack, c, fp);
            var c' := Restored(m, c.sp - Size(fp), fp, before);
            && c' == (if fp then c else c.(s := before.s, fpscr := before.fpscr))
            && Seen(c', m, fp) == Seen(c, stack, fp)
  {
    hide Image, Restored;
    var m := SavedOn(stack, c, fp);
    var w := Image(c, fp, stack[c.sp - 1]);
    ReplacedAt(stack, c.sp - Size(fp), w, 0, |w|);
    assert w[0..|w|] == w;
    RestoreOfImage(m, c.sp - Size(fp), c, fp, stack[c.sp - 1], before);
    TailOf(stack, c.sp - Size(fp), w, |w|);
  }

  /** A context saved in one format and restored in another or the same one: the stack
      pointer is right if and only if the formats agree, and then so is everything. */
  lemma RestoredIffFormatsAgree(stack: seq<u32>, c: Cpu, saved: bool, now: bool, before: Cpu)
    requires c.Valid() && before.Valid() && Size(saved) <= c.sp <= |stack|
    requires c.sp - Size(saved) + Size(now) <= |stack|
    ensures var m := SavedOn(stack, c, saved);
            var c' := Restored(m, c.sp - Size(saved), now, before);
            && (c'.sp == c.sp <==> now == saved)
            && (now == saved ==> Seen(c', m, now) == Seen(c, stack, now))
  {
    if now == saved {
      SavedIsRestored(stack, c, saved, before);
    }
  }

  /** What a suspended task sees does not depend on the registers at the restore. */
  lemma SeenIgnoresBefore(m: seq<u32>, sp: nat, fp: bool, c: Cpu, d: Cpu)
    requires c.Valid() && d.Valid() && sp + Size(fp) <= |m|
    ensures Seen(Restored(m, sp, fp, c), m, fp) == Seen(Restored(m, sp, fp, d), m, fp)
  {
  }

  // ---------- Refinement ----------

  lemma SwitchKeepsViews(k: Kernel, fp: bool, next: nat)
    requires Uniform(k, fp) && CanSave(k) && next < |k.tasks|
    ensures CanRestore(k, next) && Uniform(PendSV(k, next), fp)
    ensures forall i :: 0 <= i < |k.tasks| ==> View(PendSV(k, next), fp, i) == View(k, fp, i)
  {
    hide Restored, SavedOn, Seen;
    var k' := PendSV(k, next);
    forall i | 0 <= i < |k.tasks|
      ensures View(k', fp, i) == View(k, fp, i)
    {
      var t := k'.tasks[i];
      SavedIsRestored(k.tasks[k.current].stack, k.cpu, fp, k.cpu);
      SeenIgnoresBefore(t.stack, t.saved, fp, k.cpu, k'.cpu);
    }
  }

  lemma WorkChangesOneView(k: Kernel, fp: bool, e: Event)
    requires Uniform(k, fp) && e.Work? && Allowed(k, fp, e)
    ensures Uniform(Step(k, e), fp)
    ensures forall i :: 0 <= i < |k.tasks| ==>
              View(Step(k, e), fp, i) == if i == k.current then Seen(e.cpu, e.stack, fp) else View(k, fp, i)
  {
    hide Restored, Seen;
    forall i | 0 <= i < |k.tasks| && i != k.current
      ensures View(Step(k, e), fp, i) == View(k, fp, i)
    {
      SeenIgnoresBefore(k.tasks[i].stack, k.tasks[i].saved, fp, k.cpu, e.cpu);
    }
  }

  lemma StepRefines(k: Kernel, fp: bool, e: Event)
    requires Uniform(k, fp) && Allowed(k, fp, e)
    ensures Uniform(Step(k, e), fp)
    ensures ViewAll(Step(k, e), fp) == AbstractStep(ViewAll(k, fp), fp, e)
  {
    hide View, Seen;
    if e.Work? {
      WorkChangesOneView(k, fp, e);
    } else {
      SwitchKeepsViews(k, fp, e.next);
    }
  }

  /** Over every run, the switched processor is as good as a processor for every task. */
  lemma {:induction false} RunRefines(k: Kernel, fp: bool, events: seq<Event>)
    requires Uniform(k, fp) && AllAllowed(k, fp, events)
    ensures Uniform(Run(k, events), fp)
    ensures ViewAll(Run(k, events), fp) == AbstractRun(ViewAll(k, fp), fp, events)
    decreases |events|
  {
    if events != [] {
      StepRefines(k, fp, events[0]);
      RunRefines(Step(k, events[0]), fp, events[1..]);
    }
  }

  // ---------- A system that begins without the FPU ----------

  /** The event can happen: a switch to an existing µC/OS task, or work within the stack. */
  predicate Possible(k: Kernel, e: Event) {
    match e
    case Work(cpu, stack, _) => CanWork(k, cpu, stack)
    case Switch(next) => CanSave(k) && next < |k.tasks|
  }

  /** A switch to another one while the running one has a floating-point context. */
  predicate Mixes(k: Kernel, e: Event) {
    e.Switch? && e.next != k.current && k.fpca
  }

  /** Every event of the run can happen, up to a switch that mixes formats. */
  predicate AllPossible(k: Kernel, events: seq<Event>)
    decreases |events|
  {
    events != [] ==>
      Possible(k, events[0]) && (Mixes(k, events[0]) || AllPossible(Step(k, events[0]), events[1..]))
  }

  /** No switch to another µC/OS task follows a use of the FPU. */
  predicate NoSwitchAfterFp(current: nat, fp: bool, events: seq<Event>)
    decreases |events|
  {
    events != [] ==>
      match events[0]
      case Work(_, _, usesFp) => NoSwitchAfterFp(current, fp || usesFp, events[1..])
      case Switch(next) => (next == current || !fp) && NoSwitchAfterFp(next, fp, events[1..])
  }

  /** The one that should be running is, and sees its own registers and stack. */
  predicate RunningSees(k: Kernel, a: Abstract) {
    && k.current == a.current && |k.tasks| == |a.all| && k.current < |k.tasks|
    && k.cpu.sp <= |k.tasks[k.current].stack|
    && Seen(k.cpu, k.tasks[k.current].stack, false) == a.all[a.current]
  }

  /** So it is at every point of the run. */
  predicate KeptThroughout(k: Kernel, a: Abstract, events: seq<Event>)
    decreases |events|
  {
    && RunningSees(k, a)
    && (events != [] ==> KeptThroughout(Step(k, events[0]), AbstractStep(a, false, events[0]), events[1..]))
  }

  /** All that are suspended were saved without the FPU, and a knows what they see. */
  predicate Record(k: Kernel, a: Abstract) {
    && RunningSees(k, a) && k.cpu.Valid()
    && forall i :: 0 <= i < |k.tasks| && i != k.current ==>
         && k.tasks[i].saved + Size(false) <= |k.tasks[i].stack|
         && a.all[i] == Seen(Restored(k.tasks[i].stack, k.tasks[i].saved, false, k.cpu), k.tasks[i].stack, false)
  }

  lemma WorkKeepsRecord(k: Kernel, a: Abstract, e: Event)
    requires Record(k, a) && e.Work? && Possible(k, e)
    ensures Record(Step(k, e), AbstractStep(a, false, e))
  {
    hide Restored, Seen;
    forall i | 0 <= i < |k.tasks| && i != k.current
      ensures Seen(Restored(k.tasks[i].stack, k.tasks[i].saved, false, e.cpu), k.tasks[i].stack, false) == a.all[i]
    {
      SeenIgnoresBefore(k.tasks[i].stack, k.tasks[i].saved, false, k.cpu, e.cpu);
    }
  }

  /** A switch to itself gives the running one its own context back, in either format. */
  lemma SelfSwitchKeepsRecord(k: Kernel, a: Abstract)
    requires Record(k, a) && CanSave(k)
    ensures Record(Step(k, Switch(k.current)), AbstractStep(a, false, Switch(k.current)))
  {
    hide Restored, SavedOn;
    var stack := k.tasks[k.current].stack;
    SavedIsRestored(stack, k.cpu, k.fpca, k.cpu);
    var k' := Step(k, Switch(k.current));
    assert k'.cpu == k.cpu;
    assert k'.tasks[k.current].stack == SavedOn(stack, k.cpu, k.fpca);
  }

  lemma OtherSwitchKeepsRecord(k: Kernel, a: Abstract, next: nat)
    requires Record(k, a) && CanSave(k) && next < |k.tasks| && !k.fpca
    ensures Record(Step(k, Switch(next)), AbstractStep(a, false, Switch(next)))
  {
    hide Restored, SavedOn, Seen;
    SwitchKeepsViews(k, false, next);
    var k' := PendSV(k, next);
    forall i | 0 <= i < |k.tasks|
      ensures View(k', false, i) == a.all[i]
    {
      assert View(k', false, i) == View(k, false, i);
    }
    assert Seen(k'.cpu, k'.tasks[next].stack, false) == View(k', false, next);
    forall i | 0 <= i < |k.tasks| && i != next
      ensures a.all[i] == Seen(Restored(k'.tasks[i].stack, k'.tasks[i].saved, false, k'.cpu), k'.tasks[i].stack, false)
    {
      assert View(k', false, i) == a.all[i];
    }
  }

  lemma MixedSwitchLoses(k: Kernel, a: Abstract, e: Event)
    requires Record(k, a) && Possible(k, e) && Mixes(k, e)
    ensures !RunningSees(Step(k, e), AbstractStep(a, false, e))
  {
    hide Restored, SavedOn;
    if CanRestore(k, e.next) {
      assert a.all[e.next].cpu.sp == k.tasks[e.next].saved + 16;
      assert Step(k, e).cpu.sp == k.tasks[e.next].saved + 50;
    }
  }

  lemma {:induction false} KeptThroughoutIff(k: Kernel, a: Abstract, events: seq<Event>)
    requires Record(k, a) && AllPossible(k, events)
    ensures KeptThroughout(k, a, events) <==> NoSwitchAfterFp(k.current, k.fpca, events)
    decreases |events|
  {
    hide Record, RunningSees, PendSV, Seen;
    SeesNow(k, a);
    if events != [] {
      var e := events[0];
      if Mixes(k, e) {
        MixedSwitchLoses(k, a, e);
      } else {
        NextRecord(k, a, e);
        KeptThroughoutIff(Step(k, e), AbstractStep(a, false, e), events[1..]);
      }
    }
  }

  lemma SeesNow(k: Kernel, a: Abstract)
    requires Record(k, a)
    ensures RunningSees(k, a) && a.current < |a.all|
  {
  }

  lemma NextRecord(k: Kernel, a: Abstract, e: Event)
    requires Record(k, a) && Possible(k, e) && !Mixes(k, e)
    ensures a.current < |a.all| && Record(Step(k, e), AbstractStep(a, false, e))
    ensures Step(k, e).current == (if e.Switch? then e.next else k.current)
    ensures Step(k, e).fpca == (k.fpca || (e.Work? && e.usesFp))
  {
    hide Restored, SavedOn, Seen;
    if e.Work? {
      WorkKeepsRecord(k, a, e);
    } else if e.next == k.current {
      SelfSwitchKeepsRecord(k, a);
    } else {
      OtherSwitchKeepsRecord(k, a, e.next);
    }
  }

  /** When all contexts begin without the FPU: over a run, each µC/OS task always finds its
      own registers and stack if and only if no switch to another one follows a use of the
      FPU. */
  lemma RunIsTransparentIff(k: Kernel, events: seq<Event>)
    requires Uniform(k, false) && AllPossible(k, events)
    ensures KeptThroughout(k, ViewAll(k, false), events) <==> NoSwitchAfterFp(k.current, false, events)
  {
    hide Restored, Seen, KeptThroughout, NoSwitchAfterFp, AllPossible;
    forall i | 0 <= i < |k.tasks|
      ensures ViewAll(k, false).all[i] == View(k, false, i)
    {
    }
    KeptThroughoutIff(k, ViewAll(k, false), events);
  }

  /** One use of the FPU, one switch: the next one gets a stack pointer 34 words too high. */
  lemma FpWorkThenSwitch(k: Kernel, cpu: Cpu, stack: seq<u32>, next: nat)
    requires Uniform(k, false) && CanWork(k, cpu, stack) && next < |k.tasks| && next != k.current
    requires CanSave(Step(k, Work(cpu, stack, true))) && CanRestore(Step(k, Work(cpu, stack, true)), next)
    ensures Step(Step(k, Work(cpu, stack, true)), Switch(next)).cpu.sp == View(k, false, next).cpu.sp + 34
  {
    hide Restored, SavedOn;
  }

  // ---------- Tasks that have never run ----------

  /** No event of the run is work of task i. */
  predicate NeverWorks(a: Abstract, fp: bool, events: seq<Event>, i: nat)
    requires a.current < |a.all|
    decreases |events|
  {
    events != [] ==>
      && !(events[0].Work? && a.current == i)
      && NeverWorks(AbstractStep(a, fp, events[0]), fp, events[1..], i)
  }

  lemma {:induction false} OthersLeaveItAlone(a: Abstract, fp: bool, events: seq<Event>, i: nat)
    requires a.current < |a.all| && i < |a.all| && NeverWorks(a, fp, events, i)
    ensures AbstractRun(a, fp, events).all[i] == a.all[i]
    decreases |events|
  {
    if events != [] {
      OthersLeaveItAlone(AbstractStep(a, fp, events[0]), fp, events[1..], i);
    }
  }

  /** A created task: stack m, highest word ptos, entry, argument and return address. */
  datatype Created = Created(m: seq<u32>, ptos: nat, task: u32, arg: u32, taskReturn: u32)

  predicate Fits(c: Created, fpu: bool) {
    (if fpu then 49 else 15) <= c.ptos < |c.m|
  }

  function Creation(c: Created, fpu: bool): Task
    requires Fits(c, fpu)
  {
    Task(NewStack(c.m, c.ptos, c.task, c.arg, c.taskReturn, fpu), NewPointer(c.ptos, fpu))
  }

  /** OSStartHighRdy: PSP is 0, so PendSV saves nothing; the format it restores with is that
      of the code that called OSStart. */
  function StartHighRdy(created: seq<Created>, fpu: bool, main: Cpu, mainFp: bool, first: nat): Kernel
    requires forall i :: 0 <= i < |created| ==> Fits(created[i], fpu)
    requires first < |created| && Fits(created[first], fpu) && main.Valid()
    requires NewPointer(created[first].ptos, fpu) + Size(mainFp) <= |created[first].m|
  {
    var tasks := seq(|created|, i requires 0 <= i < |created| => Creation(created[i], fpu));
    Kernel(tasks, first, Restored(tasks[first].stack, tasks[first].saved, mainFp, main), mainFp)
  }

  /** A task sees its entry point, its argument and an empty stack. */
  ghost predicate AtEntry(p: Private, c: Created) {
    && |p.cpu.r| == 13 && p.cpu.r[0] == c.arg && p.cpu.pc == c.task && p.cpu.lr == c.taskReturn
    && (forall k: nat :: Bit(p.cpu.xpsr, k) <==> k == 24)
    && (forall n :: 1 <= n < 13 ==> p.cpu.r[n] == FourDigits(n))
    && p.cpu.sp == c.ptos + 1
  }

  lemma CreatedIsAtEntry(c: Created, fpu: bool, before: Cpu)
    requires Fits(c, fpu) && before.Valid()
    ensures var t := Creation(c, fpu);
            && t.saved + Size(fpu) == c.ptos + 1 <= |t.stack|
            && AtEntry(Seen(Restored(t.stack, t.saved, fpu, before), t.stack, fpu), c)
  {
    hide NewStack, NewPointer, Restored;
    NewTaskStarts(c.m, c.ptos, c.task, c.arg, c.taskReturn, fpu, before);
  }

  /** When the caller of OSStart uses the FPU exactly in an FPU build: in every run, a task
      that has not worked yet, running or not, is at its entry with its argument. */
  lemma EveryTaskBeginsAtItsEntry(created: seq<Created>, fpu: bool, main: Cpu, first: nat, events: seq<Event>, i: nat)
    requires forall j :: 0 <= j < |created| ==> Fits(created[j], fpu)
    requires first < |created| && Fits(created[first], fpu) && i < |created| && main.Valid()
    ensures var k := StartHighRdy(created, fpu, main, fpu, first);
            && Uniform(k, fpu)
            && (AllAllowed(k, fpu, events) && NeverWorks(ViewAll(k, fpu), fpu, events, i) ==>
                  var k' := Run(k, events);
                  Uniform(k', fpu) && |k'.tasks| == |created| && AtEntry(View(k', fpu, i), created[i]))
  {
    hide Restored, AtEntry, Creation, Seen;
    var k := StartHighRdy(created, fpu, main, fpu, first);
    forall j | 0 <= j < |created|
      ensures k.tasks[j].saved + Size(fpu) <= |k.tasks[j].stack|
    {
      CreatedIsAtEntry(created[j], fpu, main);
    }
    CreatedIsAtEntry(created[i], fpu, main);
    CreatedIsAtEntry(created[i], fpu, k.cpu);
    if AllAllowed(k, fpu, events) && NeverWorks(ViewAll(k, fpu), fpu, events, i) {
      RunRefines(k, fpu, events);
      OthersLeaveItAlone(ViewAll(k, fpu), fpu, events, i);
    }
  }

  /** The first task starts with the right stack pointer if and only if the caller of
      OSStart uses the FPU exactly in an FPU build. If it does not in one, execution starts
      at address 0x22; if it does elsewhere, at the word 15 above the top of the stack. */
  lemma FirstTaskStartsIff(created: seq<Created>, fpu: bool, main: Cpu, mainFp: bool, first: nat)
    requires forall j :: 0 <= j < |created| ==> Fits(created[j], fpu)
    requires first < |created| && Fits(created[first], fpu) && main.Valid()
    requires NewPointer(created[first].ptos, fpu) + Size(mainFp) <= |created[first].m|
    ensures var k := StartHighRdy(created, fpu, main, mainFp, first);
            && (AtEntry(Seen(k.cpu, k.tasks[first].stack, mainFp), created[first]) <==> mainFp == fpu)
            && (fpu && !mainFp ==> k.cpu.pc == 0x22)
            && (!fpu && mainFp ==> k.cpu.pc == created[first].m[created[first].ptos + 15])
  {
    hide Restored, NewStack;
    var c := created[first];
    if mainFp == fpu {
      CreatedIsAtEntry(c, fpu, main);
    } else if fpu {
      FpFrameWithoutFp(c.m, c.ptos, c.task, c.arg, c.taskReturn, main);
    } else {
      FrameWithFp(c.m, c.ptos, c.task, c.arg, c.taskReturn, main);
    }
  }
}
