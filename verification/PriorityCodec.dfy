/** The priority codec of the Cortex-M4 access layer (CORE/core_cm4.h) and the
    order that the processor itself puts on a stored priority byte.

    A combined priority of `bits` bits (the source's __NVIC_PRIO_BITS) is split at
    run time into a preemption part and a sub-priority part.
 */
module PriorityCodec {
  import opened Words

  /** __NVIC_PRIO_BITS: the number of priority bits a device implements. */
  type PrioBits = b: nat | 1 <= b <= 8 witness 4

  /** PriorityGroupTmp: only values 0..7 are used. */
  function GroupOf(group: u32): (g: nat)
    ensures g == group % 8
  {
    AndOnes(group, 3);
    Pow2UpTo8();
    And(group, 0x07)
  }

  function PreemptBits(bits: PrioBits, group: u32): (p: nat)
    ensures p <= bits
  {
    if 7 - GroupOf(group) > bits then bits else 7 - GroupOf(group)
  }

  function SubBits(bits: PrioBits, group: u32): (s: nat)
    ensures PreemptBits(bits, group) + s == bits
  {
    if GroupOf(group) + bits < 7 then 0 else GroupOf(group) - 7 + bits
  }

  /** A pair joined in fields of widths p and s, and the two fields of a value. */
  function Join(p: nat, s: nat, preempt: nat, sub: nat): nat {
    Or(Shl(And(preempt, Ones(p)), s), And(sub, Ones(s)))
  }

  function High(p: nat, s: nat, x: nat): nat {
    And(Shr(x, s), Ones(p))
  }

  function Low(s: nat, x: nat): nat {
    And(x, Ones(s))
  }

  function EncodePriority(bits: PrioBits, group: u32, preempt: u32, sub: u32): (x: u32)
    ensures x < Pow2(bits)
  {
    JoinValue(PreemptBits(bits, group), SubBits(bits, group), preempt, sub);
    Join(PreemptBits(bits, group), SubBits(bits, group), preempt, sub)
  }

  function DecodePreempt(bits: PrioBits, priority: u32, group: u32): u32 {
    FieldValue(PreemptBits(bits, group), SubBits(bits, group), priority);
    High(PreemptBits(bits, group), SubBits(bits, group), priority)
  }

  function DecodeSub(bits: PrioBits, priority: u32, group: u32): u32 {
    FieldValue(PreemptBits(bits, group), SubBits(bits, group), priority);
    Low(SubBits(bits, group), priority)
  }

  // ---------- Conflicts of group and implemented bits ----------

  /** The group that the comments of the source promise to set: on a conflict the smallest
      possible one, the first without a conflict. */
  function Smallest(bits: PrioBits, group: u32): (g: u32)
    ensures g < 8
  {
    if Conflict(bits, group) then 7 - bits else GroupOf(group)
  }

  /** A group that asks for more preemption bits than there are. */
  predicate Conflict(bits: PrioBits, group: u32) {
    GroupOf(group) + bits < 7
  }

  lemma GroupOfSmall(g: u32)
    requires g < 8
    ensures GroupOf(g) == g
  {
    hide GroupOf;
    SmallMod(g, 8);
  }

  lemma SameWidths(bits: PrioBits, group: u32)
    ensures PreemptBits(bits, Smallest(bits, group)) == PreemptBits(bits, group)
    ensures SubBits(bits, Smallest(bits, group)) == SubBits(bits, group)
  {
    hide GroupOf;
    GroupOfSmall(Smallest(bits, group));
  }

  /** It is the smallest without a conflict. */
  lemma SmallestIsSmallest(bits: PrioBits, group: u32)
    ensures !Conflict(bits, Smallest(bits, group))
    ensures Conflict(bits, group) ==> forall g: u32 :: g < Smallest(bits, group) ==> Conflict(bits, g)
    ensures !Conflict(bits, group) ==> Smallest(bits, group) == GroupOf(group)
  {
    hide GroupOf;
    GroupOfSmall(Smallest(bits, group));
    forall g: u32 | Conflict(bits, group) && g < Smallest(bits, group)
      ensures Conflict(bits, g)
    {
      GroupOfSmall(g);
    }
  }

  /** Encode and decode do work as if the smallest possible group were set. */
  lemma CodecUsesSmallest(bits: PrioBits, group: u32, preempt: u32, sub: u32, x: u32)
    ensures EncodePriority(bits, group, preempt, sub) == EncodePriority(bits, Smallest(bits, group), preempt, sub)
    ensures DecodePreempt(bits, x, group) == DecodePreempt(bits, x, Smallest(bits, group))
    ensures DecodeSub(bits, x, group) == DecodeSub(bits, x, Smallest(bits, group))
  {
    hide PreemptBits, SubBits, Smallest;
    SameWidths(bits, group);
  }

  // ---------- Fields of any widths ----------

  lemma FieldsFit(p: nat, s: nat, high: nat, low: nat)
    requires p + s <= 8 && high < Pow2(p) && low < Pow2(s)
    ensures high * Pow2(s) + low < Pow2(p + s) <= 256
  {
    Pow2Monotone(p + s, 8);
    Pow2UpTo8();
    Pow2Add(p, s);
    JoinBound(high, Pow2(p), Pow2(s), low);
  }

  lemma JoinValue(p: nat, s: nat, preempt: nat, sub: nat)
    requires p + s <= 8
    ensures Join(p, s, preempt, sub) == (preempt % Pow2(p)) * Pow2(s) + sub % Pow2(s)
    ensures Join(p, s, preempt, sub) < Pow2(p + s) <= 256
  {
    AndOnes(preempt, p);
    AndOnes(sub, s);
    FieldsFit(p, s, preempt % Pow2(p), sub % Pow2(s));
    SmallShl(preempt % Pow2(p), s);
    OrDisjoint(preempt % Pow2(p), sub % Pow2(s), s);
  }

  lemma FieldValue(p: nat, s: nat, x: nat)
    requires p + s <= 8
    ensures High(p, s, x) == (x / Pow2(s)) % Pow2(p) < 256
    ensures Low(s, x) == x % Pow2(s) < 256
  {
    AndOnes(Shr(x, s), p);
    AndOnes(x, s);
    Pow2Monotone(p, 8);
    Pow2Monotone(s, 8);
    Pow2UpTo8();
  }

  lemma SplitJoined(p: nat, s: nat, preempt: nat, sub: nat)
    requires p + s <= 8
    ensures High(p, s, Join(p, s, preempt, sub)) == preempt % Pow2(p)
    ensures Low(s, Join(p, s, preempt, sub)) == sub % Pow2(s)
  {
    var x := Join(p, s, preempt, sub);
    JoinValue(p, s, preempt, sub);
    FieldValue(p, s, x);
    FieldsOfJoin(x, preempt % Pow2(p), sub % Pow2(s), Pow2(s), Pow2(p));
  }

  lemma JoinSplit(p: nat, s: nat, x: nat)
    requires p + s <= 8
    ensures Join(p, s, High(p, s, x), Low(s, x)) == x % Pow2(p + s)
  {
    FieldValue(p, s, x);
    JoinValue(p, s, High(p, s, x), Low(s, x));
    Pow2Add(s, p);
    JoinOfFields(x, Pow2(s), Pow2(p));
  }

  // ---------- Encode and decode are mutual inverses ----------

  /** Decoding an encoded pair returns the pair, each component cut to its width. */
  lemma DecodeOfEncode(bits: PrioBits, group: u32, preempt: u32, sub: u32)
    ensures var x := EncodePriority(bits, group, preempt, sub);
            && DecodePreempt(bits, x, group) == preempt % Pow2(PreemptBits(bits, group))
            && DecodeSub(bits, x, group) == sub % Pow2(SubBits(bits, group))
  {
    SplitJoined(PreemptBits(bits, group), SubBits(bits, group), preempt, sub);
  }

  /** Encoding what was decoded returns the implemented bits of the value, under
      every group. */
  lemma EncodeOfDecode(bits: PrioBits, group: u32, x: u32)
    ensures EncodePriority(bits, group, DecodePreempt(bits, x, group), DecodeSub(bits, x, group))
         == x % Pow2(bits)
  {
    JoinSplit(PreemptBits(bits, group), SubBits(bits, group), x);
  }

  /** Lexicographic order of two pairs. */
  predicate LexLess(p1: nat, s1: nat, p2: nat, s2: nat) {
    p1 < p2 || (p1 == p2 && s1 < s2)
  }

  lemma JoinIsLexicographic(h1: nat, l1: nat, h2: nat, l2: nat, m: nat)
    requires l1 < m && l2 < m
    ensures h1 * m + l1 < h2 * m + l2 <==> LexLess(h1, l1, h2, l2)
  {
    if h1 < h2 {
      assert (h1 + 1) * m <= h2 * m;
    } else if h2 < h1 {
      assert (h2 + 1) * m <= h1 * m;
    }
  }

  /** Encode carries the lexicographic order of the cut pairs to the order of
      combined priorities, in both directions. */
  lemma EncodeIsLexicographic(bits: PrioBits, group: u32, p1: u32, s1: u32, p2: u32, s2: u32)
    ensures EncodePriority(bits, group, p1, s1) < EncodePriority(bits, group, p2, s2)
       <==> LexLess(p1 % Pow2(PreemptBits(bits, group)), s1 % Pow2(SubBits(bits, group)),
                    p2 % Pow2(PreemptBits(bits, group)), s2 % Pow2(SubBits(bits, group)))
  {
    var p, s := PreemptBits(bits, group), SubBits(bits, group);
    JoinValue(p, s, p1, s1);
    JoinValue(p, s, p2, s2);
    JoinIsLexicographic(p1 % Pow2(p), s1 % Pow2(s), p2 % Pow2(p), s2 % Pow2(s), Pow2(s));
  }

  /** NVIC_DecodePriority, which returns through two pointers. */
  method NVIC_DecodePriority(bits: PrioBits, priority: u32, group: u32)
    returns (preempt: nat, sub: nat)
    ensures preempt < Pow2(PreemptBits(bits, group)) && sub < Pow2(SubBits(bits, group))
    ensures preempt * Pow2(SubBits(bits, group)) + sub == priority % Pow2(bits)
    ensures preempt == DecodePreempt(bits, priority, group) && sub == DecodeSub(bits, priority, group)
  {
    var p := PreemptBits(bits, group);
    var s := SubBits(bits, group);
    preempt := And(Shr(priority, s), Ones(p));
    sub := And(priority, Ones(s));
    FieldValue(p, s, priority);
    Pow2Add(s, p);
    DivModProduct(priority, Pow2(s), Pow2(p));
  }

  // ---------- The stored byte and the processor's own order ----------

  /** The byte NVIC_SetPriority stores. */
  function StoredByte(bits: PrioBits, priority: u32): nat {
    And(Shl(priority, 8 - bits), 0xFF)
  }

  /** The value NVIC_GetPriority makes of a byte. */
  function ReadByte(bits: PrioBits, raw: nat): nat {
    Shr(raw, 8 - bits)
  }

  /** A priority byte whose unimplemented low bits read as zero. */
  predicate Implemented(bits: PrioBits, raw: nat) {
    raw < 256 && raw % Pow2(8 - bits) == 0
  }

  lemma StoredValue(bits: PrioBits, priority: u32)
    ensures StoredByte(bits, priority) == (priority % Pow2(bits)) * Pow2(8 - bits)
    ensures Implemented(bits, StoredByte(bits, priority))
    ensures ReadByte(bits, StoredByte(bits, priority)) == priority % Pow2(bits)
  {
    var m, n := Pow2(8 - bits), Pow2(bits);
    Pow2UpTo8();
    Pow2Add(8 - bits, bits);
    AndOnes(Shl(priority, 8 - bits), 8);
    LowByteOfProduct(priority, m, n);
    DivModUnique(priority % n, m, 0);
    JoinBound(priority % n, n, m, 0);
  }

  lemma LowByteOfProduct(x: nat, m: nat, n: nat)
    requires m > 0 && n > 0 && m * n == 256
    ensures ((x * m) % TWO_32) % 256 == (x % n) * m
  {
    assert ((x * m) % TWO_32) % 256 == (x * m) % 256;
    DivModProduct(x * m, m, n);
    DivModUnique(x, m, 0);
  }

  /** A byte with zero low bits is what SetPriority stores for the value read. */
  lemma ImplementedIsStored(bits: PrioBits, raw: nat)
    requires Implemented(bits, raw)
    ensures ReadByte(bits, raw) < Pow2(bits)
    ensures raw == ReadByte(bits, raw) * Pow2(8 - bits)
  {
    Pow2UpTo8();
    Pow2Add(8 - bits, bits);
    QuotientBound(raw, Pow2(8 - bits), Pow2(bits));
  }

  /** Group priority of a raw byte: bits [7:g+1] (ARMv7-M Architecture Reference
      Manual, section B1.5.4). */
  function GroupPriority(raw: nat, group: u32): nat {
    Shr(raw, GroupOf(group) + 1)
  }

  /** Sub-priority of a raw byte: bits [g:0]. */
  function SubPriority(raw: nat, group: u32): nat {
    And(raw, Ones(GroupOf(group) + 1))
  }

  /** The decoded preemption part is the group priority up to the zero bits that
      stand below the implemented ones when g + bits < 7. */
  lemma DecodedGroupPriority(bits: PrioBits, raw: nat, group: u32)
    requires Implemented(bits, raw)
    ensures var gap := if GroupOf(group) + bits < 7 then 7 - GroupOf(group) - bits else 0;
            GroupPriority(raw, group) == DecodePreempt(bits, ReadByte(bits, raw), group) * Pow2(gap)
  {
    var g := GroupOf(group);
    ImplementedIsStored(bits, raw);
    Pow2Monotone(bits, 8);
    Pow2UpTo8();
    if g + bits < 7 {
      HighPartAboveGap(bits, ReadByte(bits, raw), 7 - g - bits);
    } else {
      HighPartAtField(bits, raw, g - 7 + bits);
    }
  }

  lemma Pow2Zero()
    ensures Pow2(0) == 1
  {
  }

  lemma DivideByOne(x: nat)
    ensures x / 1 == x
  {
  }

  lemma WholeField(bits: nat, x: nat)
    requires bits <= 8 && x < Pow2(bits)
    ensures High(bits, 0, x) == x
  {
    hide High, Low, Pow2, And, Shr;
    FieldValue(bits, 0, x);
    Pow2Zero();
    DivideByOne(x);
    SmallMod(x, Pow2(bits));
  }

  /** All the implemented bits lie above bit g, with `gap` zero bits between. */
  lemma HighPartAboveGap(bits: PrioBits, x: nat, gap: nat)
    requires gap + bits <= 7 && x < Pow2(bits)
    ensures Shr(x * Pow2(8 - bits), 8 - bits - gap) == High(bits, 0, x) * Pow2(gap)
  {
    WholeField(bits, x);
    hide Pow2, High;
    Pow2Add(gap, 8 - bits - gap);
    QuotientOfMultiple(x, Pow2(gap), Pow2(8 - bits - gap));
  }

  /** Bit g is the top bit of an implemented sub-priority field of width s. */
  lemma HighPartAtField(bits: PrioBits, raw: nat, s: nat)
    requires s <= bits && ReadByte(bits, raw) < Pow2(bits)
    ensures Shr(raw, 8 - bits + s) == High(bits - s, s, ReadByte(bits, raw))
  {
    var x := ReadByte(bits, raw);
    FieldValue(bits - s, s, x);
    Pow2Add(8 - bits, s);
    ShrTwice(raw, x, Pow2(8 - bits), Pow2(s));
    Pow2Add(s, bits - s);
    QuotientBound(x, Pow2(s), Pow2(bits - s));
    SmallMod(x / Pow2(s), Pow2(bits - s));
  }

  lemma ShrTwice(raw: nat, x: nat, m: nat, n: nat)
    requires m > 0 && n > 0 && x == raw / m
    ensures m * n > 0 && raw / (m * n) == x / n
  {
    DivModProduct(raw, m, n);
  }

  /** The value NVIC_GetPriority makes of a stored byte is a word. */
  function ReadWord(bits: PrioBits, raw: nat): u32
    requires Implemented(bits, raw)
  {
    ImplementedIsStored(bits, raw);
    Pow2Monotone(bits, 8);
    Pow2UpTo8();
    ReadByte(bits, raw)
  }

  /** Preemption as software decodes it is preemption as the processor decides it:
      for every number of priority bits, group and pair of stored bytes. */
  lemma PreemptionOrderIsArchitectural(bits: PrioBits, group: u32, rawA: nat, rawB: nat)
    requires Implemented(bits, rawA) && Implemented(bits, rawB)
    ensures var a := DecodePreempt(bits, ReadWord(bits, rawA), group);
            var b := DecodePreempt(bits, ReadWord(bits, rawB), group);
            && (a < b <==> GroupPriority(rawA, group) < GroupPriority(rawB, group))
            && (a == b <==> GroupPriority(rawA, group) == GroupPriority(rawB, group))
  {
    var gap := if GroupOf(group) + bits < 7 then 7 - GroupOf(group) - bits else 0;
    DecodedGroupPriority(bits, rawA, group);
    DecodedGroupPriority(bits, rawB, group);
    ScalingKeepsOrder(DecodePreempt(bits, ReadWord(bits, rawA), group),
                      DecodePreempt(bits, ReadWord(bits, rawB), group), Pow2(gap));
  }

  /** Of two pending exceptions the processor takes the one with the smaller group
      priority, then the smaller sub-priority, then the smaller exception number. */
  predicate TakenBefore(group: u32, rawA: nat, excA: nat, rawB: nat, excB: nat) {
    var ga, gb := GroupPriority(rawA, group), GroupPriority(rawB, group);
    var sa, sb := SubPriority(rawA, group), SubPriority(rawB, group);
    LexLess(ga, sa, gb, sb) || (ga == gb && sa == sb && excA < excB)
  }

  lemma SplitKeepsOrder(k: nat, x: nat, y: nat)
    ensures x < y <==> LexLess(Shr(x, k), And(x, Ones(k)), Shr(y, k), And(y, Ones(k)))
    ensures x == y <==> Shr(x, k) == Shr(y, k) && And(x, Ones(k)) == And(y, Ones(k))
  {
    AndOnes(x, k);
    AndOnes(y, k);
    QuotientKeepsOrder(x, y, Pow2(k));
  }

  lemma QuotientKeepsOrder(x: nat, y: nat, m: nat)
    requires m > 0
    ensures x < y <==> LexLess(x / m, x % m, y / m, y % m)
    ensures x == y <==> x / m == y / m && x % m == y % m
  {
    QuotientKeepsOrderOf(x, x / m, x % m, y, y / m, y % m, m);
  }

  lemma QuotientKeepsOrderOf(x: nat, qx: nat, rx: nat, y: nat, qy: nat, ry: nat, m: nat)
    requires x == qx * m + rx && rx < m && y == qy * m + ry && ry < m
    ensures x < y <==> LexLess(qx, rx, qy, ry)
    ensures x == y <==> qx == qy && rx == ry
  {
    JoinIsLexicographic(qx, rx, qy, ry, m);
    JoinIsLexicographic(qy, ry, qx, rx, m);
  }

  /** Whatever the group, that order is the order of the raw bytes. */
  lemma TakenBeforeIsByteOrder(group: u32, rawA: nat, excA: nat, rawB: nat, excB: nat)
    ensures TakenBefore(group, rawA, excA, rawB, excB)
       <==> rawA < rawB || (rawA == rawB && excA < excB)
  {
    SplitKeepsOrder(GroupOf(group) + 1, rawA, rawB);
  }

  /** What a caller asks for with Encode is what the processor does. The request
      (p1,s1) preempts (p2,s2) exactly when its cut preemption part is smaller; of the
      two it is taken first exactly when the cut pair, then the exception number, is
      smaller. */
  lemma RequestedOrderIsRealised(bits: PrioBits, group: u32,
                                 p1: u32, s1: u32, exc1: nat, p2: u32, s2: u32, exc2: nat)
    ensures var a1, a2 := p1 % Pow2(PreemptBits(bits, group)), p2 % Pow2(PreemptBits(bits, group));
            var b1, b2 := s1 % Pow2(SubBits(bits, group)), s2 % Pow2(SubBits(bits, group));
            var raw1 := StoredByte(bits, EncodePriority(bits, group, p1, s1));
            var raw2 := StoredByte(bits, EncodePriority(bits, group, p2, s2));
            && (GroupPriority(raw1, group) < GroupPriority(raw2, group) <==> a1 < a2)
            && (TakenBefore(group, raw1, exc1, raw2, exc2)
                <==> LexLess(a1, b1, a2, b2) || (a1 == a2 && b1 == b2 && exc1 < exc2))
  {
    var x1 := EncodePriority(bits, group, p1, s1);
    var x2 := EncodePriority(bits, group, p2, s2);
    StoredEncoding(bits, x1);
    StoredEncoding(bits, x2);
    DecodeOfEncode(bits, group, p1, s1);
    DecodeOfEncode(bits, group, p2, s2);
    PreemptionOrderIsArchitectural(bits, group, StoredByte(bits, x1), StoredByte(bits, x2));
    TakenBeforeIsByteOrder(group, StoredByte(bits, x1), exc1, StoredByte(bits, x2), exc2);
    ScalingKeepsOrder(x1, x2, Pow2(8 - bits));
    EncodeIsLexicographic(bits, group, p1, s1, p2, s2);
    EncodeIsLexicographic(bits, group, p2, s2, p1, s1);
  }

  lemma StoredEncoding(bits: PrioBits, x: u32)
    requires x < Pow2(bits)
    ensures StoredByte(bits, x) == x * Pow2(8 - bits)
    ensures Implemented(bits, StoredByte(bits, x)) && ReadWord(bits, StoredByte(bits, x)) == x
  {
    StoredValue(bits, x);
    SmallMod(x, Pow2(bits));
  }
}
