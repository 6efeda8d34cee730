/** The ITM receive buffer of CORE/core_cm4.h: a one-place mailbox shared, without a lock,
    between the program and a debugger.

    Every access to the volatile buffer is one step, and the steps of the two sides
    interleave in any order.
 */
module Itm {

  type i32 = x: int | -0x8000_0000 <= x < 0x8000_0000

  /** ITM_RXBUFFER_EMPTY */
  const EMPTY: i32 := 0x5AA5_5AA5

  /** Where the program is inside ITM_ReceiveChar. */
  datatype Reader = Outside | SawCharacter | Holds(ch: i32)

  /** The debugger looks for an empty buffer before it writes. */
  datatype Debugger = Waiting | SawEmpty

  /** `sent`, `taken` and `results` record what the debugger wrote, what the program
      removed from the buffer, and what ITM_ReceiveChar returned. */
  datatype Mailbox = Mailbox(
    buffer: i32,
    reader: Reader,
    debugger: Debugger,
    sent: seq<i32>,
    taken: seq<i32>,
    results: seq<i32>)

  datatype Action = Test | Read | Clear | Look | Write(ch: i32)

  const INITIAL: Mailbox := Mailbox(EMPTY, Outside, Waiting, [], [], [])

  /** One step; an action that its side cannot take now leaves the mailbox as it is. */
  function Step(m: Mailbox, a: Action): Mailbox {
    match a
    case Test =>
      if !m.reader.Outside? then m
      else if m.buffer != EMPTY then m.(reader := SawCharacter)
      else m.(results := m.results + [-1])
    case Read =>
      if m.reader.SawCharacter? then m.(reader := Holds(m.buffer)) else m
    case Clear =>
      if m.reader.Holds?
      then m.(buffer := EMPTY, reader := Outside,
              taken := m.taken + [m.reader.ch], results := m.results + [m.reader.ch])
      else m
    case Look =>
      if m.debugger.Waiting? && m.buffer == EMPTY then m.(debugger := SawEmpty) else m
    case Write(ch) =>
      if m.debugger.SawEmpty?
      then m.(buffer := ch, debugger := Waiting, sent := m.sent + [ch])
      else m
  }

  ghost function Run(m: Mailbox, schedule: seq<Action>): Mailbox
    decreases |schedule|
  {
    if schedule == [] then m else Run(Step(m, schedule[0]), schedule[1..])
  }

  /** s without the occurrences of x */
  function Without(s: seq<i32>, x: i32): (r: seq<i32>)
    ensures |r| <= |s| && x !in r
  {
    if s == [] then []
    else if s[|s| - 1] == x then Without(s[..|s| - 1], x)
    else Without(s[..|s| - 1], x) + [s[|s| - 1]]
  }

  /** What has been written and not yet removed. */
  function InFlight(m: Mailbox): seq<i32> {
    if m.buffer == EMPTY then [] else [m.buffer]
  }

  ghost predicate Inv(m: Mailbox) {
    && Without(m.sent, EMPTY) == m.taken + InFlight(m)
    && Without(m.results, -1) == Without(m.taken, -1)
    && (m.reader.SawCharacter? ==> m.buffer != EMPTY)
    && (m.reader.Holds? ==> m.buffer == m.reader.ch != EMPTY)
    && (m.debugger.SawEmpty? ==> m.buffer == EMPTY)
  }

  lemma WithoutAppend(s: seq<i32>, y: i32, x: i32)
    ensures Without(s + [y], x) == Without(s, x) + (if y == x then [] else [y])
  {
    assert (s + [y])[..|s|] == s;
  }

  lemma ClearKeepsInv(m: Mailbox)
    requires Inv(m) && m.reader.Holds?
    ensures Inv(Step(m, Clear))
  {
    var m', ch := Step(m, Clear), m.reader.ch;
    WithoutAppend(m.results, ch, -1);
    WithoutAppend(m.taken, ch, -1);
    assert InFlight(m) == [ch] && InFlight(m') == [];
    assert m'.taken + [] == m.taken + [ch];
  }

  lemma WriteKeepsInv(m: Mailbox, ch: i32)
    requires Inv(m) && m.debugger.SawEmpty?
    ensures Inv(Step(m, Write(ch)))
  {
    WithoutAppend(m.sent, ch, EMPTY);
    assert InFlight(m) == [] && m.taken + [] == m.taken;
  }

  lemma StepKeepsInv(m: Mailbox, a: Action)
    requires Inv(m)
    ensures Inv(Step(m, a))
  {
    if a.Clear? && m.reader.Holds? {
      ClearKeepsInv(m);
    } else if a.Write? && m.debugger.SawEmpty? {
      WriteKeepsInv(m, a.ch);
    } else if a.Test? {
      WithoutAppend(m.results, -1, -1);
    }
  }

  lemma {:induction false} RunKeepsInv(m: Mailbox, schedule: seq<Action>)
    requires Inv(m)
    ensures Inv(Run(m, schedule))
    decreases |schedule|
  {
    if schedule != [] {
      StepKeepsInv(m, schedule[0]);
      RunKeepsInv(Step(m, schedule[0]), schedule[1..]);
    }
  }

  lemma {:induction false} WithoutShortens(s: seq<i32>, x: i32)
    ensures x !in s ==> Without(s, x) == s
    ensures x in s ==> |Without(s, x)| < |s|
  {
    if s != [] {
      var t := s[..|s| - 1];
      assert s == t + [s[|s| - 1]];
      WithoutShortens(t, x);
    }
  }

  /** Under every interleaving, nothing is lost, duplicated or reordered and at most one
      character is in flight, exactly when the debugger never sends the empty marker. */
  lemma CharactersAreConserved(schedule: seq<Action>)
    ensures var m := Run(INITIAL, schedule);
            && (m.sent == m.taken + InFlight(m) <==> 0x5AA5_5AA5 !in m.sent)
            && |InFlight(m)| <= 1
            && EMPTY !in m.taken
  {
    RunKeepsInv(INITIAL, schedule);
    var m := Run(INITIAL, schedule);
    WithoutShortens(m.sent, EMPTY);
    assert m.taken == Without(m.sent, EMPTY)[..|m.taken|];
  }

  /** The characters taken are a prefix of those sent, and the values returned to callers,
      apart from the -1 of "no character", are exactly the characters taken if and only if
      none of those was itself -1. */
  lemma CallersSeeAPrefix(schedule: seq<Action>)
    ensures var m := Run(INITIAL, schedule);
            && (EMPTY !in m.sent ==> m.taken <= m.sent)
            && (Without(m.results, -1) == m.taken <==> -1 !in m.taken)
  {
    RunKeepsInv(INITIAL, schedule);
    CharactersAreConserved(schedule);
    WithoutShortens(Run(INITIAL, schedule).taken, -1);
  }

  lemma FirstStep(m: Mailbox, a: Action, rest: seq<Action>)
    ensures Run(m, [a] + rest) == Run(Step(m, a), rest)
  {
    assert ([a] + rest)[1..] == rest;
  }

  lemma RunOne(m: Mailbox, a: Action)
    ensures Run(m, [a]) == Step(m, a)
  {
  }

  /** A debugger that sends the empty marker: it is never received. */
  lemma MarkerIsLost()
    ensures var m := Run(INITIAL, [Look, Write(0x5AA5_5AA5)]);
            m.sent == [0x5AA5_5AA5] && m.taken == [] && InFlight(m) == []
  {
    FirstStep(INITIAL, Look, [Write(EMPTY)]);
    RunOne(Step(INITIAL, Look), Write(EMPTY));
  }

  /** A debugger that sends -1: it is taken, and the caller is told that there is none. */
  lemma MinusOneLooksLikeNone()
    ensures var m := Run(INITIAL, [Look, Write(-1), Test, Read, Clear]);
            m.taken == [-1] && m.results == [-1] && Without(m.results, -1) != m.taken
  {
    var written := Step(Step(INITIAL, Look), Write(-1));
    FirstStep(INITIAL, Look, [Write(-1), Test, Read, Clear]);
    FirstStep(Step(INITIAL, Look), Write(-1), [Test, Read, Clear]);
    RunKeepsInv(INITIAL, []);
    StepKeepsInv(INITIAL, Look);
    StepKeepsInv(Step(INITIAL, Look), Write(-1));
    UninterruptedCall(written);
    assert written.taken + InFlight(written) == [-1];
  }

  /** ITM_CheckChar */
  function CheckChar(m: Mailbox): i32 {
    if m.buffer == EMPTY then 0 else 1
  }

  /** At every point of every interleaving CheckChar tells whether a character was sent
      and not yet taken. */
  lemma CheckCharCountsInFlight(schedule: seq<Action>)
    ensures var m := Run(INITIAL, schedule);
            EMPTY !in m.sent ==> CheckChar(m) == |m.sent| - |m.taken|
  {
    CharactersAreConserved(schedule);
  }

  /** A call that nothing interrupts. */
  lemma UninterruptedCall(m: Mailbox)
    requires Inv(m) && m.reader.Outside?
    ensures var m' := Run(m, [Test, Read, Clear]);
            && m'.buffer == EMPTY && m'.reader.Outside?
            && m'.taken == m.taken + InFlight(m)
            && m'.results == m.results + (if m.buffer == EMPTY then [-1] else [m.buffer])
  {
    var m1 := Step(m, Test);
    var m2 := Step(m1, Read);
    var m3 := Step(m2, Clear);
    calc {
      Run(m, [Test, Read, Clear]);
      { assert [Test, Read, Clear][1..] == [Read, Clear]; }
      Run(m1, [Read, Clear]);
      { assert [Read, Clear][1..] == [Clear]; }
      Run(m2, [Clear]);
      { assert [Clear][1..] == []; }
      Run(m3, []);
      m3;
    }
  }

  /** The program's side as straight-line code, for a stretch without the debugger. */
  class Port {
    var ITM_RxBuffer: i32

    method ITM_ReceiveChar() returns (ch: i32)
      modifies this
      ensures ITM_RxBuffer == 0x5AA5_5AA5
      ensures old(ITM_RxBuffer) != 0x5AA5_5AA5 ==> ch == old(ITM_RxBuffer)
      ensures old(ITM_RxBuffer) == 0x5AA5_5AA5 ==> ch == -1
    {
      ch := -1;
      if ITM_RxBuffer != EMPTY {
        ch := ITM_RxBuffer;
        ITM_RxBuffer := EMPTY;
      }
    }

    method ITM_CheckChar() returns (present: i32)
      ensures present == 1 <==> ITM_RxBuffer != 0x5AA5_5AA5
      ensures present == 0 <==> ITM_RxBuffer == 0x5AA5_5AA5
    {
      if ITM_RxBuffer == EMPTY {
        return 0;
      } else {
        return 1;
      }
    }
  }
}
