/** The pre-compile pass: it measures the code of a pattern while discarding it, and what it
    measures is enough. */
module Estimate {
  import opened Bytecode
  import opened Tree
  import opened Subject
  import opened Pattern
  import opened Empty
  import opened Expansion
  import opened Replication

  const INT_MAX := 0x7fffffff
  const OFLOW_MAX := INT_MAX - 20

  function AtomUnits(a: Atom): nat {
    match a
    case Lit(_, _) => 2
    case NotLit(_, _) => 2
    case Kind(_) => 1
    case Class(_, _) => 33
  }

  /** Units of a quantified character or class. */
  function RepeatUnits(a: Atom, q: Quant): nat {
    var some := if q.max < 0 || q.max == q.min + 1 then 2 else 4;
    if q.max == 0 then 0
    else if a.Class? then
      33 + (if (q.min < 2 && q.max < 0) || (q.min == 0 && q.max == 1) then 1 else 5)
    else if q.min == 0 then some
    else if q.min == 1 then (if q.max < 0 then 2 else AtomUnits(a) + if q.max == 1 then 0 else 4)
    else 4 + if q.max == q.min then 0 else some
  }

  /** Added for the repetition of a group that was measured as `n` units. */
  function GroupExtra(n: nat, q: Quant): int {
    if q.min == 0 then
      if q.max <= 1 then 1 else (2 + LINK_SIZE + 1 + LINK_SIZE) + (q.max - 1) * (n + 1 + 2 + 2 * LINK_SIZE) - 2 - 2 * LINK_SIZE
    else
      (q.min - 1) * n
      + if q.max > q.min then (q.max - q.min) * (n + 1 + 2 + 2 * LINK_SIZE) - 2 - 2 * LINK_SIZE else 0
  }

  lemma ExtraRange(n: nat, q: Quant)
    requires ValidQuant(q)
    ensures GroupExtra(n, q) >= 0
  {
    if q.min == 0 && q.max > 1 {
      Multiple(1, q.max - 1, n + 7);
    } else if q.min > 0 && q.max > q.min {
      Multiple(1, q.max - q.min, n + 7);
    }
  }

  /** What the pre-compile pass adds for an item. */
  ghost function ItemCost(item: Item): (n: nat)
    requires ValidItem(item)
    decreases item, 0
  {
    match item
    case PTest(_) => 1
    case PAtom(a, _) => AtomUnits(a)
    case PRep(a, q) => Max(AtomUnits(a), RepeatUnits(a, q))
    case PGroup(cap, body) => GroupCost(cap, body)
    case PGroupRep(cap, body, q) =>
      ExtraRange(GroupCost(cap, body), q);
      GroupCost(cap, body) + GroupExtra(GroupCost(cap, body), q)
    case PLook(o, body) => 2 + 2 * LINK_SIZE + AltsCost(body, IsBack(o))
  }

  ghost function GroupCost(cap: nat, body: PAlts): nat
    requires ValidPAlts(body)
    decreases body, 2
  {
    2 + 2 * LINK_SIZE + (if cap == 0 then 0 else IMM2_SIZE) + AltsCost(body, false)
  }

  ghost function BranchCost(b: Branch): nat
    requires ValidBranch(b)
    decreases b, 0
  {
    if b.BNil? then 0 else ItemCost(b.head) + BranchCost(b.tail)
  }

  ghost function AltsCost(al: PAlts, back: bool): nat
    requires ValidPAlts(al)
    decreases al, 1
  {
    (if back then 1 + LINK_SIZE else 0) + BranchCost(al.branch)
    + if al.PMore? then 1 + LINK_SIZE + AltsCost(al.rest, back) else 0
  }

  // ----- the measure is a bound on what the real pass emits -----

  lemma RepeatSize(t: CharTables, a: Atom, q: Quant, rest: Branch)
    requires ValidItem(PRep(a, q)) && UnwrappedItem(t, PRep(a, q), rest)
    ensures ValidOps(ExpandItem(t, PRep(a, q), rest)) && |EncOps(ExpandItem(t, PRep(a, q), rest))| == RepeatUnits(a, q)
  {
    ValidItemTree(t, PRep(a, q), rest);
    if a.Class? {
      ClassSize(a, q);
    } else {
      CharSize(a, q, MadePossessive(t, a, q, rest));
    }
  }

  lemma ClassSize(a: Atom, q: Quant)
    requires ValidAtom(a) && a.Class? && ValidQuant(q) && ValidOps(ExpandClass(a, q))
    ensures |EncOps(ExpandClass(a, q))| == RepeatUnits(a, q)
  {
    if q.max != 0 {
      OneUnits(ExpandClass(a, q).head);
    }
  }

  lemma CharSize(a: Atom, q: Quant, poss: bool)
    requires ValidAtom(a) && !a.Class? && ValidQuant(q) && ValidOps(ExpandChar(a, q, poss))
    ensures |EncOps(ExpandChar(a, q, poss))| == RepeatUnits(a, q)
  {
    hide EncOp;
    var ops := ExpandChar(a, q, poss);
    if ops.Cons? {
      assert ValidOps(ops.tail);
      CharOpSize(ops.head);
      OpsSize(ops);
      if ops.tail.Cons? {
        CharOpSize(ops.tail.head);
        OpsSize(ops.tail);
      }
    }
  }

  lemma OpsSize(ops: Ops)
    requires ValidOps(ops) && ops.Cons?
    ensures |EncOps(ops)| == |EncOp(ops.head)| + |EncOps(ops.tail)|
  {
  }

  lemma CharOpSize(op: Op)
    requires ValidOp(op) && (op.One? || op.Rep?) && !op.atom.Class?
    ensures |EncOp(op)| == if op.One? then AtomUnits(op.atom) else if Counted(op.form) then 4 else 2
  {
  }

  /** The units of `m` optional copies of a group of `n` units. */
  lemma NestSize(g: Op, m: nat, lazy: bool)
    requires ValidOp(g) && g.Bra?
    ensures |NestSeq(g, m, lazy)| == if m == 0 then 0 else m * (|EncOp(g)| + 7) - 6
  {
    hide EncOp, NestSeq;
    if m == 0 {
      NoNest(g, lazy);
    } else {
      NestFits(g, m, m - 1, lazy);
      PendingLength(ZeroUnit(lazy), EncOp(g), m - 1);
      NestFirst(g, lazy);
      NestSum(m, |EncOp(g)|);
    }
  }

  lemma NestSum(m: nat, u: nat)
    requires m > 0
    ensures (m - 1) * (4 + u) + 1 + u + 3 * (m - 1) == m * (u + 7) - 6
  {
  }

  /** A quantified group takes exactly what is added for a group of its size, and no more than
      what is added for a larger one. */
  lemma GroupSize(g: Op, q: Quant, n: nat)
    requires ValidOp(g) && g.Bra? && (g.op == OP_BRA || g.op == OP_CBRA) && ValidQuant(q) && |EncOp(g)| <= n
    ensures |GroupSeq(g, q)| == |EncOp(g)| + GroupExtra(|EncOp(g)|, q)
    ensures |GroupSeq(g, q)| <= n + GroupExtra(n, q)
  {
    hide EncOp, GroupSeq, NestSeq, Looped;
    var u := |EncOp(g)|;
    if q.max == 0 {
      SkipUnits(g, q);
    } else if q.max < 0 {
      LoopUnits(g, q);
      LoopedSize(g, q.greed == Lazy);
      if q.min > 0 {
        LoopLength(g, q);
        Linear(q.min, u, n);
      }
    } else {
      CountUnits(g, q);
      CopyLength(EncOp(g), q.min);
      NestSize(g, q.max - q.min, q.greed == Lazy);
      Linear(q.min, u, n);
      Linear(q.max - q.min, u + 7, n + 7);
      Linear(q.max, u + 7, n + 7);
    }
  }

  lemma {:induction false} Linear(k: nat, u: nat, n: nat)
    requires u <= n
    ensures k * u <= k * n && (k > 0 ==> k * u == (k - 1) * u + u && k * n == (k - 1) * n + n && (k - 1) * u <= (k - 1) * n)
    decreases k
  {
    if k > 0 {
      Linear(k - 1, u, n);
      OneMore(k - 1, u);
      OneMore(k - 1, n);
    }
  }

  lemma OneMore(k: nat, u: nat)
    ensures (k + 1) * u == k * u + u
  {
  }

  lemma {:induction false} ItemBound(t: CharTables, item: Item, rest: Branch)
    requires ValidItem(item) && FixedBehindItem(t, item) && UnwrappedItem(t, item, rest)
    ensures ValidOps(ExpandItem(t, item, rest)) && |EncOps(ExpandItem(t, item, rest))| <= ItemCost(item)
    decreases item, 0
  {
    hide EncOp, EncAlts, ExpandGroup, GroupExtra;
    ValidItemTree(t, item, rest);
    match item
    case PTest(o) => OneUnits(Test(o)); TestSize(o);
    case PAtom(a, _) => OneUnits(One(a)); AtomOpSize(a);
    case PRep(a, q) => RepeatSize(t, a, q, rest);
    case PGroup(cap, body) =>
      OneUnits(Group(cap, TreeOf(t, body)));
      GroupBound(t, cap, body);
    case PGroupRep(cap, body, q) =>
      GroupBound(t, cap, body);
      GroupSize(Group(cap, TreeOf(t, body)), q, GroupCost(cap, body));
    case PLook(o, body) =>
      ValidTree(t, body);
      OneUnits(Look(o, TreeOf(t, body)));
      AltsBound(t, body, IsBack(o));
      LookSize(o, TreeOf(t, body));
  }

  lemma TestSize(o: Byte)
    requires IsTest(o)
    ensures |EncOp(Test(o))| == 1
  {
  }

  lemma AtomOpSize(a: Atom)
    requires ValidAtom(a)
    ensures |EncOp(One(a))| == AtomUnits(a)
  {
  }

  lemma LookSize(o: Byte, body: Alts)
    requires ValidOp(Look(o, body))
    ensures |EncOp(Look(o, body))| == 2 + 2 * LINK_SIZE + |EncAlts(body, IsBack(o))|
  {
    hide EncAlts;
  }

  lemma BraSize(o: Byte, cap: nat, body: Alts, ket: Byte)
    requires ValidOp(Bra(o, cap, body, ket))
    ensures |EncOp(Bra(o, cap, body, ket))| == HeaderLen(o) + |EncAlts(body, false)| + 1 + LINK_SIZE
  {
    hide EncAlts;
  }

  lemma {:induction false} GroupBound(t: CharTables, cap: nat, body: PAlts)
    requires cap < 0x10000 && ValidPAlts(body) && FixedBehind(t, body) && Unwrapped(t, body)
    ensures ValidOp(Group(cap, TreeOf(t, body))) && |EncOp(Group(cap, TreeOf(t, body)))| <= GroupCost(cap, body)
    decreases body, 2
  {
    hide EncOp, EncAlts;
    ValidTree(t, body);
    AltsBound(t, body, false);
    BraSize(if cap == 0 then OP_BRA else OP_CBRA, cap, TreeOf(t, body), OP_KET);
  }

  lemma AppendSize(a: Ops, b: Ops)
    requires ValidOps(a) && ValidOps(b)
    ensures ValidOps(Append(a, b)) && EncOps(Append(a, b)) == EncOps(a) + EncOps(b)
  {
    hide EncOp;
    ValidAppend(a, b);
    if a.Cons? {
      AppendSize(a.tail, b);
      assert EncOp(a.head) + (EncOps(a.tail) + EncOps(b)) == EncOp(a.head) + EncOps(a.tail) + EncOps(b);
    } else {
      assert [] + EncOps(b) == EncOps(b);
    }
  }

  lemma {:induction false} BranchBound(t: CharTables, b: Branch)
    requires ValidBranch(b) && FixedBehindBranch(t, b) && UnwrappedBranch(t, b)
    ensures ValidOps(ExpandBranch(t, b)) && |EncOps(ExpandBranch(t, b))| <= BranchCost(b)
    decreases b, 0
  {
    ValidBranchTree(t, b);
    if b.BCons? {
      ItemBound(t, b.head, b.tail);
      BranchBound(t, b.tail);
      AppendSize(ExpandItem(t, b.head, b.tail), ExpandBranch(t, b.tail));
    }
  }

  /** The pre-compile pass never measures less than the real pass emits. */
  lemma {:induction false} AltsBound(t: CharTables, al: PAlts, back: bool)
    requires ValidPAlts(al) && FixedBehind(t, al) && Unwrapped(t, al) && (back ==> FixedAlts(TreeOf(t, al)))
    ensures ValidAlts(TreeOf(t, al)) && |EncAlts(TreeOf(t, al), back)| <= AltsCost(al, back)
    decreases al, 1
  {
    hide EncOps, EncOp;
    ValidTree(t, al);
    BranchBound(t, al.branch);
    if al.PMore? {
      AltsBound(t, al.rest, back);
    }
    AltsSize(TreeOf(t, al), back);
  }

  lemma AltsSize(al: Alts, back: bool)
    requires ValidAlts(al) && (back ==> FixedAlts(al))
    ensures al.More? ==> ValidAlts(al.rest) && (back ==> FixedAlts(al.rest))
    ensures |EncAlts(al, back)|
         == (if back then 3 else 0) + |EncOps(al.branch)| + if al.More? then 3 + |EncAlts(al.rest, back)| else 0
  {
    hide EncOps;
  }

  // ----- and by how much it is more -----

  /** How often the body of a quantified group is in the code. */
  function Times(q: Quant): nat
    requires ValidQuant(q)
  {
    if q.max > q.min && q.max > 1 then q.max else Max(1, q.min)
  }

  /** Of all items only a character or class that is repeated no times is measured and not in the code; and
      what is measured too much in a group counts as often as the group is copied. */
  function ItemExcess(item: Item): nat
    requires ValidItem(item)
    decreases item, 0
  {
    match item
    case PRep(a, q) => if q.max == 0 then |EncOp(One(a))| else 0
    case PGroup(_, body) => AltsExcess(body)
    case PGroupRep(_, body, q) => Times(q) * AltsExcess(body)
    case PLook(_, body) => AltsExcess(body)
    case _ => 0
  }

  function BranchExcess(b: Branch): nat
    requires ValidBranch(b)
    decreases b, 0
  {
    if b.BNil? then 0 else ItemExcess(b.head) + BranchExcess(b.tail)
  }

  function AltsExcess(al: PAlts): nat
    requires ValidPAlts(al)
    decreases al, 1
  {
    BranchExcess(al.branch) + if al.PMore? then AltsExcess(al.rest) else 0
  }

  /** No character or class is repeated no times. */
  predicate Kept(al: PAlts) { KeptBranch(al.branch) && (al.PMore? ==> Kept(al.rest)) }

  predicate KeptBranch(b: Branch) { b.BCons? ==> KeptItem(b.head) && KeptBranch(b.tail) }

  predicate KeptItem(item: Item) {
    match item
    case PRep(_, q) => q.max != 0
    case PGroup(_, body) => Kept(body)
    case PGroupRep(_, body, _) => Kept(body)
    case PLook(_, body) => Kept(body)
    case _ => true
  }

  lemma {:induction false} KeptNone(al: PAlts)
    requires ValidPAlts(al)
    ensures Kept(al) ==> AltsExcess(al) == 0
    decreases al, 1
  {
    KeptBranchNone(al.branch);
    if al.PMore? {
      KeptNone(al.rest);
    }
  }

  lemma {:induction false} KeptBranchNone(b: Branch)
    requires ValidBranch(b)
    ensures KeptBranch(b) ==> BranchExcess(b) == 0
    decreases b, 0
  {
    hide ItemExcess, KeptItem;
    if b.BCons? {
      KeptItemNone(b.head);
      KeptBranchNone(b.tail);
    }
  }

  lemma {:induction false} KeptItemNone(item: Item)
    requires ValidItem(item)
    ensures KeptItem(item) ==> ItemExcess(item) == 0
    decreases item, 0
  {
    hide Times;
    match item
    case PGroup(_, body) => KeptNone(body);
    case PGroupRep(_, body, q) =>
      KeptNone(body);
      if Kept(body) {
        NoneTimes(Times(q), AltsExcess(body));
      }
    case PLook(_, body) => KeptNone(body);
    case _ =>
  }

  lemma NoneTimes(k: nat, e: nat)
    requires e == 0
    ensures k * e == 0
  {
  }

  /** What is added for a group grows by one group for each copy. */
  lemma ExtraMore(u: nat, e: nat, q: Quant)
    requires ValidQuant(q)
    ensures u + e + GroupExtra(u + e, q) == u + GroupExtra(u, q) + Times(q) * e
  {
    if q.min == 0 {
      if q.max > 1 {
        Spread(q.max - 1, u + 7, e);
        OneMore(q.max - 1, e);
      }
    } else {
      Spread(q.min - 1, u, e);
      OneMore(q.min - 1, e);
      if q.max > q.min {
        Spread(q.max - q.min, u + 7, e);
        Split(q.max - q.min, q.min, e);
      }
    }
  }

  lemma Spread(k: nat, u: nat, e: nat)
    ensures k * (u + e) == k * u + k * e
  {
  }

  lemma Split(k: nat, l: nat, e: nat)
    ensures (k + l) * e == k * e + l * e
  {
  }

  lemma {:induction false} ItemExactly(t: CharTables, item: Item, rest: Branch)
    requires ValidItem(item) && FixedBehindItem(t, item) && UnwrappedItem(t, item, rest)
    ensures ValidOps(ExpandItem(t, item, rest)) && ItemCost(item) == |EncOps(ExpandItem(t, item, rest))| + ItemExcess(item)
    decreases item, 0
  {
    hide EncOp, EncAlts, ExpandGroup, GroupExtra, Times, AltsCost, AltsExcess, TreeOf;
    ValidItemTree(t, item, rest);
    match item
    case PTest(o) => OneUnits(Test(o)); TestSize(o);
    case PAtom(a, _) => OneUnits(One(a)); AtomOpSize(a);
    case PRep(a, q) => RepeatSize(t, a, q, rest); AtomOpSize(a);
    case PGroup(cap, body) =>
      OneUnits(Group(cap, TreeOf(t, body)));
      GroupExactly(t, cap, body);
    case PGroupRep(cap, body, q) =>
      GroupExactly(t, cap, body);
      var g := Group(cap, TreeOf(t, body));
      GroupSize(g, q, |EncOp(g)|);
      ExtraMore(|EncOp(g)|, AltsExcess(body), q);
    case PLook(o, body) =>
      ValidTree(t, body);
      OneUnits(Look(o, TreeOf(t, body)));
      AltsExactly(t, body, IsBack(o));
      LookSize(o, TreeOf(t, body));
  }

  lemma {:induction false} GroupExactly(t: CharTables, cap: nat, body: PAlts)
    requires cap < 0x10000 && ValidPAlts(body) && FixedBehind(t, body) && Unwrapped(t, body)
    ensures ValidOp(Group(cap, TreeOf(t, body)))
    ensures GroupCost(cap, body) == |EncOp(Group(cap, TreeOf(t, body)))| + AltsExcess(body)
    decreases body, 2
  {
    hide EncOp, EncAlts;
    ValidTree(t, body);
    AltsExactly(t, body, false);
    BraSize(if cap == 0 then OP_BRA else OP_CBRA, cap, TreeOf(t, body), OP_KET);
  }

  lemma {:induction false} BranchExactly(t: CharTables, b: Branch)
    requires ValidBranch(b) && FixedBehindBranch(t, b) && UnwrappedBranch(t, b)
    ensures ValidOps(ExpandBranch(t, b)) && BranchCost(b) == |EncOps(ExpandBranch(t, b))| + BranchExcess(b)
    decreases b, 0
  {
    hide EncOp, ItemCost, ItemExcess, ExpandItem;
    ValidBranchTree(t, b);
    if b.BCons? {
      ItemExactly(t, b.head, b.tail);
      BranchExactly(t, b.tail);
      AppendSize(ExpandItem(t, b.head, b.tail), ExpandBranch(t, b.tail));
    }
  }

  /** The measure is the length of the code and the excess, and nothing else. */
  lemma {:induction false} AltsExactly(t: CharTables, al: PAlts, back: bool)
    requires ValidPAlts(al) && FixedBehind(t, al) && Unwrapped(t, al) && (back ==> FixedAlts(TreeOf(t, al)))
    ensures ValidAlts(TreeOf(t, al)) && AltsCost(al, back) == |EncAlts(TreeOf(t, al), back)| + AltsExcess(al)
    decreases al, 1
  {
    hide EncOps, EncOp;
    ValidTree(t, al);
    BranchExactly(t, al.branch);
    if al.PMore? {
      AltsExactly(t, al.rest, back);
    }
    AltsSize(TreeOf(t, al), back);
  }

  // ----- the pass itself -----

  /** The top of the compiling loop: count what the last step produced (never less than nothing),
      and discard all but an item that may yet be repeated. */
  method Discard(code0: nat, last: nat, previous0: int, length0: int)
    returns (ok: bool, code: nat, previous: int, length: int)
    requires -1 <= previous0 <= code0 && previous0 <= last && 0 <= length0 <= INT_MAX
    ensures ok <==> length0 + Max(code0, last) - last <= OFLOW_MAX
    ensures ok ==> length == length0 + Max(code0, last) - last
    ensures ok ==> if previous0 >= 0 then code == Max(code0, last) - previous0 && previous == 0 else code == 0 && previous == -1
  {
    code, previous, length := code0, previous0, length0;
    if code < last {
      code := last;
    }
    if OFLOW_MAX - length < code - last {
      return false, code, previous, length;
    }
    ok := true;
    length := length + code - last;
    if previous >= 0 {
      if previous > 0 {
        code := code - previous;
        previous := 0;
      }
    } else {
      code := 0;
    }
  }

  /** Add `delta` to the length unless the whole `product` or the new length is too large. */
  method AddDelta(product: int, delta: int, length0: int) returns (ok: bool, length: int)
    requires 0 <= delta <= product && 0 <= length0 <= OFLOW_MAX
    ensures ok ==> length == length0 + delta <= OFLOW_MAX
    ensures !ok ==> length0 + delta > OFLOW_MAX || product > INT_MAX
  {
    length := length0;
    ok := !(product > INT_MAX || OFLOW_MAX - length < delta);
    if ok {
      length := length + delta;
    }
  }

  /** The cases of what a repetition adds: `copies` for required copies and `nest` for optional ones. */
  lemma ExtraParts(n: nat, q: Quant, copies: int, nest: int)
    requires ValidQuant(q)
    requires copies == if q.min > 1 then (q.min - 1) * n else 0
    requires nest == if q.min == 0 && q.max > 1 then (q.max - 1) * (n + 7)
                     else if q.min > 0 && q.max > q.min then (q.max - q.min) * (n + 7) else 0
    ensures copies >= 0 && nest >= 0 && (nest > 0 ==> nest >= n + 7)
    ensures (q.min == 0 && q.max > 1) || (q.min > 0 && q.max > q.min) <==> nest > 0
    ensures GroupExtra(n, q)
         == copies + (if nest > 0 then nest - 6 else 0) + if q.min == 0 then (if q.max <= 1 then 1 else 7) else 0
  {
    if q.min == 0 && q.max > 1 {
      Multiple(1, q.max - 1, n + 7);
    } else if q.min > 0 && q.max > q.min {
      Multiple(1, q.max - q.min, n + 7);
    }
  }

  /** A quantified group: replication is only accounted for. */
  method PretendRepeat(q: Quant, lengthPrevgroup: nat, code0: nat, length0: int) returns (ok: bool, code: nat, length: int)
    requires ValidQuant(q) && 6 <= lengthPrevgroup && 0 <= length0 <= OFLOW_MAX
    ensures ok ==> code0 <= code <= code0 + 7 && length0 <= length <= OFLOW_MAX
    ensures ok ==> code - code0 + length - length0 == GroupExtra(lengthPrevgroup, q)
    ensures !ok ==> length0 + GroupExtra(lengthPrevgroup, q) > OFLOW_MAX
  {
    hide GroupExtra;
    ok, code, length := true, code0, length0;
    var n := lengthPrevgroup;
    var repeatMax := q.max;
    var nested := false;
    ghost var copies := if q.min > 1 then (q.min - 1) * n else 0;
    ghost var nest := if q.min == 0 && q.max > 1 then (q.max - 1) * (n + 7)
                      else if q.min > 0 && q.max > q.min then (q.max - q.min) * (n + 7) else 0;
    ExtraParts(n, q, copies, nest);
    if q.min == 0 {
      if q.max <= 1 {
        code := code + 1;
        if q.max == 0 { return; }
      } else {
        code := code + 2 + LINK_SIZE;
        nested := true;
      }
      repeatMax := repeatMax - 1;
    } else {
      if q.min > 1 {
        var delta := (q.min - 1) * n;
        ok, length := AddDelta(delta, delta, length);
        if !ok { return; }
      }
      if repeatMax > 0 {
        repeatMax := repeatMax - q.min;
      }
    }
    if repeatMax >= 0 {
      if repeatMax > 0 {
        var product := repeatMax * (n + 1 + 2 + 2 * LINK_SIZE);
        assert product == nest;
        ok, length := AddDelta(product, product - 2 - 2 * LINK_SIZE, length);
        if !ok { return; }
      }
      if nested {
        code := code + 1 + LINK_SIZE;
      }
    }
  }

  /** The state of the pass over a branch: `counted` of the whole is in the length, or in what
      the current step has produced beyond `last`. */
  ghost predicate Tally(length: int, code: nat, last: nat, previous: int, total: int, toCome: nat) {
    && -1 <= previous <= code && previous <= last
    && 0 <= length && length + Max(code, last) - last + toCome == total
  }

  /** Measure one branch, adding to the length so far. */
  method PretendBranch(b: Branch, length0: int) returns (ok: bool, length: int)
    requires ValidBranch(b) && 0 <= length0 <= INT_MAX
    ensures ok ==> length == length0 + BranchCost(b) <= OFLOW_MAX
    ensures !ok ==> length0 + BranchCost(b) > OFLOW_MAX
    decreases b, 0
  {
    var code: nat, last: nat, previous: int := 0, 0, -1;
    var rest := b;
    ok, length := true, length0;
    ghost var total := length0 + BranchCost(b);
    while true
      invariant ValidBranch(rest) && (rest == b || rest < b) && length <= INT_MAX
      invariant Tally(length, code, last, previous, total, BranchCost(rest))
      decreases rest
    {
      ok, code, previous, length := Discard(code, last, previous, length);
      if !ok { return; }
      last := code;
      if rest.BNil? { return; }
      ok, code, last, previous, length := PretendItem(rest.head, code, length);
      if !ok { return; }
      rest := rest.tail;
    }
  }

  /** Measure one item, and then its quantifier, which is the next step of the loop. */
  method PretendItem(item: Item, code0: nat, length0: int) returns (ok: bool, code: nat, last: nat, previous: int, length: int)
    requires ValidItem(item) && 0 <= length0 <= OFLOW_MAX
    ensures ok ==> length <= OFLOW_MAX && Tally(length, code, last, previous, length0 + ItemCost(item), 0)
    ensures !ok ==> length0 + ItemCost(item) > OFLOW_MAX
    decreases item, 1
  {
    hide GroupExtra, RepeatUnits;
    ok, code, last, previous, length := true, code0, code0, -1, length0;
    match item
    case PTest(_) =>
      code := code + 1;
    case PAtom(a, _) =>
      previous := code;
      code := code + AtomUnits(a);
    case PRep(a, q) =>
      previous := code;
      code := code + AtomUnits(a);
      ok, code, previous, length := Discard(code, last, previous, length);
      if !ok { return; }
      last := code;
      code := previous + RepeatUnits(a, q);
      previous := -1;
    case PGroup(cap, body) =>
      var n;
      ok, n, code, length := PretendGroup(body, false, if cap == 0 then 0 else IMM2_SIZE, code, length);
      previous := last;
    case PGroupRep(cap, body, q) =>
      var n;
      ExtraRange(GroupCost(cap, body), q);
      ok, n, code, length := PretendGroup(body, false, if cap == 0 then 0 else IMM2_SIZE, code, length);
      previous := last;
      if !ok { return; }
      ok, code, previous, length := Discard(code, last, previous, length);
      if !ok { return; }
      last := code;
      ok, code, length := PretendRepeat(q, n, code, length);
      previous := -1;
    case PLook(o, body) =>
      var n;
      ok, n, code, length := PretendGroup(body, IsBack(o), 0, code, length);
      previous := last;
  }

  /** Measure a bracket; what stays behind is a set of empty brackets. */
  method PretendGroup(body: PAlts, back: bool, skipbytes: nat, code0: nat, length0: int)
    returns (ok: bool, lengthPrevgroup: nat, code: nat, length: int)
    requires ValidPAlts(body) && 0 <= length0 <= OFLOW_MAX && skipbytes <= IMM2_SIZE
    ensures var n := 2 + 2 * LINK_SIZE + skipbytes + AltsCost(body, back);
            && (ok ==> lengthPrevgroup == n && code == code0 + 6 && length == length0 + n - 6 && length0 <= length <= OFLOW_MAX)
            && (!ok ==> length0 + n > OFLOW_MAX)
    decreases body, 2
  {
    code, length, lengthPrevgroup := code0, length0, 0;
    ok, lengthPrevgroup := PretendRegex(body, back, skipbytes, lengthPrevgroup);
    if !ok { return; }
    if OFLOW_MAX - length < lengthPrevgroup - 2 - 2 * LINK_SIZE {
      ok := false;
      return;
    }
    length := length + lengthPrevgroup - 2 - 2 * LINK_SIZE;
    code := code + 2 + 2 * LINK_SIZE;
  }

  /** Measure all branches of a bracket, and the bracket itself. */
  method PretendRegex(al: PAlts, back: bool, skipbytes: nat, length0: nat) returns (ok: bool, total: nat)
    requires ValidPAlts(al) && length0 <= OFLOW_MAX && skipbytes <= IMM2_SIZE
    ensures var n := length0 + 2 + 2 * LINK_SIZE + skipbytes + AltsCost(al, back);
            if ok then total == n <= OFLOW_MAX else n > OFLOW_MAX
    decreases al, 1
  {
    var length := 2 + 2 * LINK_SIZE + skipbytes;
    total := length0;
    var rest := al;
    ghost var n := length + AltsCost(al, back);
    while true
      invariant ValidPAlts(rest) && (rest == al || rest < al)
      invariant 0 <= length <= OFLOW_MAX + 3 && length + AltsCost(rest, back) == n
      decreases rest
    {
      if back {
        length := length + 1 + LINK_SIZE;
      }
      ok, length := PretendBranch(rest.branch, length);
      if !ok { return; }
      if rest.PLast? {
        if OFLOW_MAX - total < length { return false, total; }
        total := total + length;
        return;
      }
      length := length + 1 + LINK_SIZE;
      rest := rest.rest;
    }
  }
}
