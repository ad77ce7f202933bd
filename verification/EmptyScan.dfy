/** The scan of a compiled branch for non-emptiness, over its units. */
module EmptyScan {
  import opened Bytecode
  import opened Tree
  import opened Graph
  import opened Layout
  import opened Empty

  /** The table of opcode lengths; that of a class excludes its repeat. */
  function OpLengths(u: Byte): (n: nat)
    ensures n > 0
  {
    if OP_CHAR <= u <= OP_NOTI then 2
    else if OP_STAR <= u < OP_CRSTAR then (if Counted((u - OP_STAR) % 13) then 2 + IMM2_SIZE else 2)
    else if u == OP_CRRANGE || u == OP_CRMINRANGE then 1 + 2 * IMM2_SIZE
    else if u == OP_CLASS || u == OP_NCLASS then 33
    else if u == OP_ALT || IsKet(u) || u == OP_REVERSE || IsLook(u) || u == OP_BRA || u == OP_SBRA then 1 + LINK_SIZE
    else if u == OP_CBRA || u == OP_SCBRA then 1 + LINK_SIZE + IMM2_SIZE
    else 1
  }

  /** Opcodes on which the scan answers that a character is needed. */
  predicate MustMatch(u: Byte) {
    || OP_NOT_DIGIT <= u <= OP_ALLANY
    || OP_CHAR <= u <= OP_NOTI
    || u == OP_STAR + PLUS || u == OP_STAR + PLUS + 1 || u == OP_STAR + POSPLUS || u == OP_STAR + EXACT
    || u == OP_NOTSTAR + PLUS || u == OP_NOTSTAR + PLUS + 1 || u == OP_NOTSTAR + POSPLUS || u == OP_NOTSTAR + EXACT
    || u == OP_TYPESTAR + PLUS || u == OP_TYPESTAR + PLUS + 1 || u == OP_TYPESTAR + POSPLUS || u == OP_TYPESTAR + EXACT
  }

  predicate Simple(op: Op) { op.Test? || (op.One? && !op.atom.Class?) || (op.Rep? && !op.atom.Class?) }

  lemma SimpleUnits(op: Op)
    requires ValidOp(op) && Simple(op)
    ensures |EncOp(op)| == OpLengths(Lead(op)) && (MustMatch(Lead(op)) <==> !CanBeEmptyOp(op))
    ensures var u := Lead(op);
            && !IsGroup(u) && !IsLook(u) && u != OP_BRAZERO && u != OP_BRAMINZERO && u != OP_SKIPZERO
            && u != OP_CLASS && u != OP_NCLASS && u != OP_ALT && !IsKet(u) && !IsClassRepeat(u)
            && ((u == OP_WORD_BOUNDARY || u == OP_NOT_WORD_BOUNDARY) ==> op.Test?)
  {
    if op.Rep? {
      var u := OP_STAR + 13 * Family(op.atom) + op.form;
      assert (u - OP_STAR) % 13 == op.form && (u - OP_STAR) / 13 == Family(op.atom);
    }
  }

  /** `rest` is what remains of a branch that ends at `e`. */
  ghost predicate Remains(code: seq<Byte>, o: nat, rest: Ops, e: nat) {
    && ValidOps(rest) && Placed(code, o, EncOps(rest)) && o + |EncOps(rest)| == e
    && (At(code, e) == OP_ALT || IsKet(At(code, e)))
  }

  lemma Head(code: seq<Byte>, o: nat, rest: Ops, e: nat)
    requires Remains(code, o, rest, e)
    ensures rest.Nil? ==> o == e && (At(code, o) == OP_ALT || IsKet(At(code, o)))
    ensures rest.Cons? ==>
      && ValidOp(rest.head) && ValidOps(rest.tail) && Placed(code, o, EncOp(rest.head))
      && |EncOp(rest.head)| > 0 && At(code, o) == Lead(rest.head)
      && Remains(code, o + |EncOp(rest.head)|, rest.tail, e) && o < o + |EncOp(rest.head)| <= e
  {
    hide EncOp, Placed;
    if rest.Cons? {
      PlacedOps(code, o, rest.head, rest.tail);
      LeadUnit(code, o, rest.head);
    }
  }

  lemma LeadUnit(code: seq<Byte>, o: nat, op: Op)
    requires ValidOp(op) && Placed(code, o, EncOp(op))
    ensures At(code, o) == Lead(op) && |EncOp(op)| > 0
  {
    hide Lead;
    HoldsAt(code, o, EncOp(op), 0);
  }

  /** Where a bracket ends: its ket, three units before what follows. */
  lemma GroupEnd(code: seq<Byte>, o: nat, op: Op)
    requires ValidOp(op) && (op.Bra? || op.Look?) && Placed(code, o, EncOp(op))
    ensures ToKet(code, o) + 1 + LINK_SIZE == o + |EncOp(op)| && IsKet(At(code, ToKet(code, o))) && o < ToKet(code, o)
    ensures OpLengths(At(code, ToKet(code, o))) == 1 + LINK_SIZE
  {
    hide Entries, Decode, EncAlts, EncBranch, Offsets, ToKet, EncOpen;
    match op
    case Bra(b, cap, body, ket) => var h, k := Bracket(code, o, b, cap, body, ket, false);
    case Look(b, body) => var h, k := Bracket(code, o, b, 0, body, OP_KET, IsBack(b));
  }

  lemma ZeroInside(code: seq<Byte>, o: nat, op: Op)
    requires ValidOp(op) && (op.Zero? || op.Skip?) && Placed(code, o, EncOp(op))
    ensures ValidOp(op.group) && op.group.Bra? && Placed(code, o + 1, EncOp(op.group)) && |EncOp(op)| == 1 + |EncOp(op.group)|
  {
    HoldsSplit(code, o, [Lead(op)], EncOp(op.group));
  }

  /** Items that first_significant_code passes over. */
  predicate Insignificant(u: Byte) {
    u == OP_ASSERT_NOT || u == OP_ASSERTBACK || u == OP_ASSERTBACK_NOT || u == OP_WORD_BOUNDARY || u == OP_NOT_WORD_BOUNDARY
  }

  /** An item that it passes over: a lookbehind, a negative lookahead or a word boundary. */
  predicate PassedOver(op: Op) {
    || (op.Look? && op.op != OP_ASSERT)
    || (op.Test? && (op.op == OP_WORD_BOUNDARY || op.op == OP_NOT_WORD_BOUNDARY))
  }

  /** The sequence without the items at its head that are passed over. */
  function Significant(ops: Ops): (r: Ops)
    ensures r == ops || r < ops
    ensures r.Cons? ==> !PassedOver(r.head)
  {
    if ops.Cons? && PassedOver(ops.head) then Significant(ops.tail) else ops
  }

  /** first_significant_code with its flag set: the first item that is not passed over, or the end. */
  method FirstSignificant(code: seq<Byte>, start: nat, ghost ops: Ops, ghost e: nat) returns (o: nat, ghost rest: Ops)
    requires Remains(code, start, ops, e)
    ensures start <= o && Remains(code, o, rest, e) && rest == Significant(ops) && CanBeEmpty(rest) == CanBeEmpty(ops)
    ensures !Insignificant(At(code, o))
  {
    hide Remains, EncOp;
    o, rest := start, ops;
    while true
      invariant start <= o && Remains(code, o, rest, e) && CanBeEmpty(rest) == CanBeEmpty(ops)
      invariant Significant(rest) == Significant(ops)
      decreases e - o
    {
      var u := At(code, o);
      Head(code, o, rest, e);
      if u == OP_ASSERT_NOT || u == OP_ASSERTBACK || u == OP_ASSERTBACK_NOT {
        LeadLook(rest.head);
        GroupEnd(code, o, rest.head);
        var k := FindKet(code, o);
        o := k + OpLengths(At(code, k));
        rest := rest.tail;
      } else if u == OP_WORD_BOUNDARY || u == OP_NOT_WORD_BOUNDARY {
        LeadLook(rest.head);
        SimpleUnits(rest.head);
        o := o + OpLengths(u);
        rest := rest.tail;
      } else {
        return;
      }
    }
  }

  /** The first unit tells what kind of item it is. */
  lemma LeadLook(op: Op)
    requires ValidOp(op)
    ensures IsLook(Lead(op)) <==> op.Look?
    ensures Lead(op) == OP_WORD_BOUNDARY || Lead(op) == OP_NOT_WORD_BOUNDARY ==> op.Test?
    ensures Lead(op) == OP_BRAZERO || Lead(op) == OP_BRAMINZERO <==> op.Zero?
    ensures Lead(op) == OP_SKIPZERO <==> op.Skip?
    ensures IsGroup(Lead(op)) <==> op.Bra?
    ensures op.Bra? ==> Lead(op) == op.op
    ensures Lead(op) == OP_CLASS || Lead(op) == OP_NCLASS <==> ((op.One? || op.Rep?) && op.atom.Class?)
    ensures Lead(op) != OP_ALT && !IsKet(Lead(op)) && !IsClassRepeat(Lead(op)) && Lead(op) != OP_END && Lead(op) != OP_REVERSE
  {
    if Simple(op) {
      SimpleUnits(op);
    }
  }

  /** Does the unit after the bit map say that the class may be repeated no times? */
  predicate CanRepeatNone(code: seq<Byte>, o: nat) {
    var q := At(code, o);
    IsClassRepeat(q) && q != OP_CRSTAR + PLUS && q != OP_CRSTAR + PLUS + 1 && (q >= OP_CRRANGE ==> Get(code, o + 1) == 0)
  }

  /** What follows the bit map of a class: its repeat, or the next item. */
  lemma ClassUnits(code: seq<Byte>, o: nat, rest: Ops, e: nat)
    requires Remains(code, o, rest, e) && rest.Cons? && (rest.head.One? || rest.head.Rep?) && rest.head.atom.Class?
    ensures CanBeEmptyOp(rest.head) <==> CanRepeatNone(code, o + 33)
    ensures rest.head.Rep? ==>
      && IsClassRepeat(At(code, o + 33))
      && Remains(code, o + 33 + OpLengths(At(code, o + 33)), rest.tail, e)
  {
    var op := rest.head;
    Head(code, o, rest, e);
    assert |EncAtom(op.atom)| == 33;
    if op.Rep? {
      ClassRepeatUnits(code, o, op);
    }
  }

  lemma ClassRepeatUnits(code: seq<Byte>, o: nat, op: Op)
    requires ValidOp(op) && op.Rep? && op.atom.Class? && Placed(code, o, EncOp(op))
    ensures At(code, o + 33) == OP_CRSTAR + op.form && |EncOp(op)| == 33 + OpLengths(OP_CRSTAR + op.form)
    ensures op.form >= UPTO ==> Get(code, o + 34) == op.n
  {
    var s := EncClassRepeat(op.form, op.n, op.m);
    HoldsSplit(code, o, EncAtom(op.atom), s);
    HoldsAt(code, o + 33, s, 0);
    if op.form >= UPTO {
      HoldsSplit(code, o + 33, [OP_CRSTAR + op.form], Two(op.n) + Two(op.m));
      HoldsSplit(code, o + 34, Two(op.n), Two(op.m));
      GetTwo(code, o + 34, op.n);
    }
  }

  /** Where the scan is: at an item, or between a class and its repeat. */
  ghost predicate Scanned(code: seq<Byte>, cur: nat, mid: bool, rest: Ops, e: nat) {
    if mid then IsClassRepeat(At(code, cur)) && Remains(code, cur + OpLengths(At(code, cur)), rest, e)
    else Remains(code, cur, rest, e) && !Insignificant(At(code, cur))
  }

  /** Can the branch after the bracket or ALT at `start` match the empty string? */
  method CouldBeEmptyBranch(code: seq<Byte>, start: nat, endcode: nat, ghost ops: Ops, ghost e: nat) returns (r: bool)
    requires Remains(code, start + OpLengths(At(code, start)), ops, e) && start <= e <= endcode
    ensures r == CanBeEmpty(ops)
    decreases e - start, 0
  {
    hide Remains, EncOp, EncOps, Lead, OpLengths, MustMatch, ToKet, Get, Placed, ValidOp, CanRepeatNone;
    var cur;
    ghost var rest, mid;
    cur, rest := FirstSignificant(code, start + OpLengths(At(code, start)), ops, e);
    mid := false;
    while cur < endcode
      invariant Scanned(code, cur, mid, rest, e) && CanBeEmpty(rest) == CanBeEmpty(ops)
      invariant start < cur
      decreases endcode - cur
    {
      var c := At(code, cur);
      if !mid {
        Head(code, cur, rest, e);
        if rest.Cons? { LeadLook(rest.head); }
      }
      if IsClassRepeat(c) {
        // The repeat of a class that could be empty.
        cur := cur + OpLengths(c);
      } else if c == OP_ASSERT || c == OP_SBRA || c == OP_SCBRA {
        GroupEnd(code, cur, rest.head);
        var k := FindKet(code, cur);
        cur, rest := k + OpLengths(At(code, k)), rest.tail;
      } else if c == OP_BRAZERO || c == OP_BRAMINZERO || c == OP_SKIPZERO {
        ZeroInside(code, cur, rest.head);
        GroupEnd(code, cur + 1, rest.head.group);
        var k := FindKet(code, cur + 1);
        cur, rest := k + OpLengths(At(code, k)), rest.tail;
      } else if c == OP_BRA || c == OP_CBRA {
        GroupEnd(code, cur, rest.head);
        var empty, k := ScanGroup(code, cur, endcode, rest.head);
        if !empty { return false; }
        cur, rest := k + OpLengths(At(code, k)), rest.tail;
      } else if c == OP_CLASS || c == OP_NCLASS {
        ClassUnits(code, cur, rest, e);
        if !CanRepeatNone(code, cur + 33) { return false; }
        cur, mid, rest := cur + 33, true, rest.tail;
        continue;
      } else {
        if c == OP_ALT || IsKet(c) { return true; }
        SimpleUnits(rest.head);
        if MustMatch(c) { return false; }
        cur, rest := cur + OpLengths(c), rest.tail;
      }
      mid := false;
      cur, rest := FirstSignificant(code, cur, rest, e);
    }
    Head(code, if mid then cur + OpLengths(At(code, cur)) else cur, rest, e);
    r := true;
  }

  /** At the bracket's opcode or an ALT: the branch after it, and where that ends. */
  lemma BranchRemains(code: seq<Byte>, o: nat, al: Alts, h: nat, f: nat)
    requires ValidAlts(al) && Heading(code, o, al, false, h) && f == h + |EncBranch(al.branch, false)|
    ensures Remains(code, h, al.branch, f) && o + Get(code, o + 1) == f && f <= h + |EncAlts(al, false)|
    ensures al.Last? ==> At(code, f) != OP_ALT && f == h + |EncAlts(al, false)|
    ensures al.More? ==>
      && At(code, f) == OP_ALT && Heading(code, f, al.rest, false, f + 1 + LINK_SIZE)
      && f + 1 + LINK_SIZE + |EncAlts(al.rest, false)| == h + |EncAlts(al, false)|
  {
    hide EncAlts, EncOps;
    BranchPlaced(code, o, al, false, h);
    BranchInAlts(al, false);
    if al.More? {
      NextHeading(code, o, al, false, h);
    }
  }

  lemma GroupHeading(code: seq<Byte>, o: nat, g: Op)
    requires ValidOp(g) && g.Bra? && Placed(code, o, EncOp(g))
    ensures At(code, o) == g.op && Heading(code, o, g.body, false, o + HeaderLen(g.op)) && OpLengths(g.op) == HeaderLen(g.op)
    ensures o + HeaderLen(g.op) + |EncAlts(g.body, false)| == ToKet(code, o)
  {
    hide Entries, Decode, EncAlts, EncBranch, Offsets, ToKet, EncOpen;
    var h, k := Bracket(code, o, g.op, g.cap, g.body, g.ket, false);
  }

  /** Scan the branches of the group at `bra`; the result is also where its ket is. */
  method ScanGroup(code: seq<Byte>, bra: nat, endcode: nat, ghost g: Op) returns (empty: bool, k: nat)
    requires ValidOp(g) && g.Bra? && Placed(code, bra, EncOp(g)) && bra <= ToKet(code, bra) <= endcode
    ensures empty == CanBeEmptyAlts(g.body) && k == ToKet(code, bra)
    decreases ToKet(code, bra) - bra, 1
  {
    hide EncAlts, EncBranch, Heading, ToKet, Remains, EncOp, EncOps;
    GroupHeading(code, bra, g);
    k, empty := bra, false;
    ghost var al := g.body;
    ghost var h: nat := bra + HeaderLen(g.op);
    while true
      invariant ValidAlts(al) && Heading(code, k, al, false, h) && h == k + OpLengths(At(code, k)) && bra <= k < h
      invariant h + |EncAlts(al, false)| == ToKet(code, bra)
      invariant (empty || CanBeEmptyAlts(al)) == CanBeEmptyAlts(g.body)
      decreases al
    {
      ghost var f := h + |EncBranch(al.branch, false)|;
      BranchRemains(code, k, al, h, f);
      if !empty {
        empty := CouldBeEmptyBranch(code, k, endcode, al.branch, f);
      }
      k := k + Get(code, k + 1);
      if At(code, k) != OP_ALT { return; }
      al, h := al.rest, f + 1 + LINK_SIZE;
    }
  }
}
