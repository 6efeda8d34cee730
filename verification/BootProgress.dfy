/** How long the oscillator is polled, and exactly when a boot finishes. */
module BootProgress {
  import opened Words
  import opened ClockTree
  import opened Iteration
  import opened Boot
  import opened BootSafety

  // ---------- The polling loop ----------

  /** Polls left when StartUpCounter has the given value, counting the next one. */
  function PollsLeft(timeout: u32, counter: u32): (left: nat)
    ensures 1 <= left <= TWO_32
  {
    (timeout + TWO_32 - Polled(counter)) % TWO_32 + 1
  }

  /** Polls until the ready flag is seen, or until none is left. */
  ghost function Polls(flags: nat -> Flags, t: nat, left: nat): (k: nat)
    requires left >= 1
    ensures 1 <= k <= left
    decreases left
  {
    if left == 1 || flags(t).hserdy then 1 else 1 + Polls(flags, t + 1, left - 1)
  }

  lemma OnePoll(b: Board, m: Machine, f: Flags)
    requires m.pc == POLL_HSE
    ensures var left := PollsLeft(b.timeout, m.counter);
            var m' := Step(b, m, f);
            && m'.clock == m.clock
            && m'.pc == (if left == 1 || f.hserdy then CHECK_HSE else POLL_HSE)
            && (left > 1 ==> PollsLeft(b.timeout, m'.counter) == left - 1)
  {
  }

  /** The loop leaves after exactly the polls it needs, with the clock untouched, whatever
      the flags. */
  lemma {:induction false} PollingEnds(b: Board, m: Machine, flags: nat -> Flags, t: nat, left: nat)
    requires m.pc == POLL_HSE && left == PollsLeft(b.timeout, m.counter)
    ensures var m' := Run(b, m, flags, t, Polls(flags, t, left));
            m'.pc == CHECK_HSE && m'.clock == m.clock
    decreases left
  {
    OnePoll(b, m, flags(t));
    var m' := Step(b, m, flags(t));
    RunOneLess(b, m, flags, t, Polls(flags, t, left));
    if m'.pc == POLL_HSE {
      PollingEnds(b, m', flags, t + 1, left - 1);
    }
  }

  /** From the first poll there are at most HSE_STARTUP_TIMEOUT of them; a timeout of zero
      means all 2^32 values of the counter. */
  lemma PollBound(b: Board, m: Machine, flags: nat -> Flags, t: nat)
    requires m.pc == HSE_ON
    ensures PollsLeft(b.timeout, 0) == if b.timeout == 0 then TWO_32 else b.timeout
    ensures Run(b, m, flags, t, 1 + Polls(flags, t + 1, PollsLeft(b.timeout, 0))).pc == CHECK_HSE
  {
    var m' := Step(b, m, flags(t));
    PollingEnds(b, m', flags, t + 1, PollsLeft(b.timeout, 0));
    RunOneLess(b, m, flags, t, 1 + Polls(flags, t + 1, PollsLeft(b.timeout, 0)));
  }

  // ---------- When a boot finishes ----------

  /** If the machine waits for a flag n statements after t, the flag shows then or later. */
  ghost predicate Answered(b: Board, m: Machine, flags: nat -> Flags, t: nat, n: nat) {
    var pc := Run(b, m, flags, t, n).pc;
    Waits(pc) ==> exists n': nat :: n' >= t + n && Grants(pc, flags(n'))
  }

  /** Every flag the boot waits for eventually shows. */
  ghost predicate Fair(b: Board, m: Machine, flags: nat -> Flags, t: nat) {
    forall n: nat :: Answered(b, m, flags, t, n)
  }

  lemma WaitStep(b: Board, m: Machine, f: Flags)
    requires PathInv(b, m) && m.pc < DONE && m.pc != POLL_HSE
    ensures Waits(m.pc) && !Grants(m.pc, f) ==> Step(b, m, f).pc == m.pc
    ensures !(Waits(m.pc) && !Grants(m.pc, f)) ==> Step(b, m, f).pc > m.pc
  {
  }

  lemma {:induction false} WaitEnds(b: Board, m: Machine, flags: nat -> Flags, t: nat, n: nat) returns (k: nat)
    requires PathInv(b, m) && Waits(m.pc) && n >= t && Grants(m.pc, flags(n))
    ensures Run(b, m, flags, t, k).pc > m.pc
    decreases n - t
  {
    hide Execute, NextPc;
    var m' := Step(b, m, flags(t));
    WaitStep(b, m, flags(t));
    StepKeepsPath(b, m, flags(t));
    if m'.pc > m.pc {
      k := 1;
      RunOneLess(b, m, flags, t, 1);
    } else {
      k := WaitEnds(b, m', flags, t + 1, n);
      k := k + 1;
      RunOneLess(b, m, flags, t, k);
    }
  }

  lemma Advance(b: Board, m: Machine, flags: nat -> Flags, t: nat) returns (k: nat)
    requires PathInv(b, m) && m.pc < DONE && Fair(b, m, flags, t)
    ensures Run(b, m, flags, t, k).pc > m.pc
  {
    if m.pc == POLL_HSE {
      k := Polls(flags, t, PollsLeft(b.timeout, m.counter));
      PollingEnds(b, m, flags, t, PollsLeft(b.timeout, m.counter));
    } else if Waits(m.pc) {
      assert Answered(b, m, flags, t, 0);
      var n: nat :| n >= t && Grants(m.pc, flags(n));
      k := WaitEnds(b, m, flags, t, n);
    } else {
      k := 1;
      WaitStep(b, m, flags(t));
      RunOneLess(b, m, flags, t, 1);
    }
  }

  lemma FairLater(b: Board, m: Machine, m': Machine, flags: nat -> Flags, t: nat, k: nat)
    requires Fair(b, m, flags, t) && m' == Run(b, m, flags, t, k)
    ensures Fair(b, m', flags, t + k)
  {
    var t' := t + k;
    forall n: nat
      ensures Answered(b, m', flags, t', n)
    {
      assert Answered(b, m, flags, t, k + n);
      IterateAppend(Stepper(b, flags), m, t, k, n);
    }
  }

  lemma RunKeepsPath(b: Board, m: Machine, flags: nat -> Flags, t: nat, k: nat)
    requires PathInv(b, m)
    ensures PathInv(b, Run(b, m, flags, t, k))
  {
    forall x: Machine, u: nat
      ensures PathInv(b, x) ==> PathInv(b, Stepper(b, flags)(x, u))
    {
      if PathInv(b, x) {
        StepKeepsPath(b, x, flags(u));
      }
    }
    IterateKeeps(Stepper(b, flags), (x: Machine) => PathInv(b, x), m, t, k);
  }

  lemma {:induction false} FairBootFinishes(b: Board, m: Machine, flags: nat -> Flags, t: nat) returns (k: nat)
    requires PathInv(b, m) && Fair(b, m, flags, t)
    ensures Run(b, m, flags, t, k).pc == DONE
    decreases DONE - m.pc
  {
    hide Step, Fair;
    if m.pc == DONE {
      k := 0;
    } else {
      var j := Advance(b, m, flags, t);
      var m' := Run(b, m, flags, t, j);
      RunKeepsPath(b, m, flags, t, j);
      FairLater(b, m, m', flags, t, j);
      k := FairBootFinishes(b, m', flags, t + j);
      IterateAppend(Stepper(b, flags), m, t, j, k);
      k := j + k;
    }
  }

  lemma {:induction false} FinishedWasAnswered(b: Board, m: Machine, flags: nat -> Flags, t: nat, k: nat)
      returns (n: nat)
    requires PathInv(b, m) && Waits(m.pc) && Run(b, m, flags, t, k).pc == DONE
    ensures n >= t && Grants(m.pc, flags(n))
    decreases k
  {
    if Grants(m.pc, flags(t)) {
      n := t;
    } else {
      WaitStep(b, m, flags(t));
      StepKeepsPath(b, m, flags(t));
      RunOneLess(b, m, flags, t, k);
      n := FinishedWasAnswered(b, Step(b, m, flags(t)), flags, t + 1, k - 1);
    }
  }

  lemma DoneStep(b: Board, m: Machine, f: Flags)
    requires m.pc == DONE
    ensures Step(b, m, f).pc == DONE
  {
  }

  lemma DoneStays(b: Board, m: Machine, flags: nat -> Flags, t: nat, k: nat)
    requires m.pc == DONE
    ensures Run(b, m, flags, t, k).pc == DONE
  {
    forall x: Machine, u: nat
      ensures x.pc == DONE ==> Stepper(b, flags)(x, u).pc == DONE
    {
      if x.pc == DONE {
        DoneStep(b, x, flags(u));
      }
    }
    IterateKeeps(Stepper(b, flags), (x: Machine) => x.pc == DONE, m, t, k);
  }

  lemma FinishedIsFair(b: Board, m: Machine, flags: nat -> Flags, t: nat, k: nat)
    requires PathInv(b, m) && Run(b, m, flags, t, k).pc == DONE
    ensures Fair(b, m, flags, t)
  {
    hide Step, Grants, PathInv;
    forall n: nat
      ensures Answered(b, m, flags, t, n)
    {
      var x := Run(b, m, flags, t, n);
      if n >= k {
        IterateAppend(Stepper(b, flags), m, t, k, n - k);
        DoneStays(b, Run(b, m, flags, t, k), flags, t + k, n - k);
      } else if Waits(x.pc) {
        RunKeepsPath(b, m, flags, t, n);
        IterateAppend(Stepper(b, flags), m, t, n, k - n);
        var n' := FinishedWasAnswered(b, x, flags, t + n, k - n);
      }
    }
  }

  /** A boot finishes if and only if every ready flag it waits for eventually shows; the
      oscillator's own flag is not among them, because that loop has its timeout. */
  lemma BootFinishesIff(b: Board, c: Clock, flags: nat -> Flags)
    ensures (exists n: nat :: Run(b, Start(c), flags, 0, n).pc == DONE) <==> Fair(b, Start(c), flags, 0)
  {
    StartHasInv(b, c);
    if Fair(b, Start(c), flags, 0) {
      var k := FairBootFinishes(b, Start(c), flags, 0);
    }
    if n: nat :| Run(b, Start(c), flags, 0, n).pc == DONE {
      FinishedIsFair(b, Start(c), flags, 0, n);
    }
  }
}
