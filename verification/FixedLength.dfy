/** The scan that computes the fixed length of a branch, over its units. */
module FixedLength {
  import opened Bytecode
  import opened Tree
  import opened Graph
  import opened Layout
  import opened EmptyScan

  /** What the scan returns when it has counted `count` characters in the current branch, has
      still to scan `al`, and earlier branches had length `length` (negative: there were none). */
  function Outcome(length: int, count: nat, al: Alts, closes: bool): int
    decreases al
  {
    var d := Tree.Add(count, OpsLength(al.branch));
    if d < 0 || (length >= 0 && length != d) then -1
    else if al.More? then Outcome(d, 0, al.rest, closes)
    else if closes then d else -1
  }

  lemma {:induction false} OutcomeIs(length: int, al: Alts, closes: bool)
    ensures Outcome(length, 0, al, closes)
         == if !closes then -1
            else if length < 0 || AltsLength(al) == length then AltsLength(al) else -1
    decreases al
  {
    Range(al);
    if al.More? {
      Range(al.rest);
      OutcomeIs(Tree.Add(0, OpsLength(al.branch)), al.rest, closes);
    }
  }

  /** There is only one negative result. */
  lemma Range(al: Alts)
    ensures AltsLength(al) >= -1 && OpsLength(al.branch) >= -1
  {
    OpsRange(al.branch);
  }

  lemma {:induction false} OpsRange(ops: Ops)
    ensures OpsLength(ops) >= -1
    decreases ops
  {
    if ops.Cons? {
      OpsRange(ops.tail);
      OpRange(ops.head);
    }
  }

  lemma {:induction false} OpRange(op: Op)
    ensures OpLength(op) >= -1
    decreases op
  {
    if op.Bra? {
      AltsRange(op.body);
    }
  }

  lemma {:induction false} AltsRange(al: Alts)
    ensures AltsLength(al) >= -1
    decreases al
  {
    OpsRange(al.branch);
    if al.More? {
      AltsRange(al.rest);
    }
  }

  /** The scan is at `cc`: what remains of the current branch lies there, up to `f`, and then
      either come further branches or the end of the scan at `e`. */
  ghost predicate Ahead(code: seq<Byte>, cc: nat, al: Alts, e: nat, closes: bool) {
    && ValidAlts(al) && Placed(code, cc, EncOps(al.branch))
    && var f := cc + |EncOps(al.branch)|;
       if al.More? then
         At(code, f) == OP_ALT && Heading(code, f, al.rest, false, f + 1 + LINK_SIZE)
         && e == f + 1 + LINK_SIZE + |EncAlts(al.rest, false)| && (closes <==> At(code, e) == OP_KET)
       else f == e && (if closes then At(code, e) == OP_KET || At(code, e) == OP_END else At(code, e) == OP_KETRMAX || At(code, e) == OP_KETRMIN)
  }

  /** The alternatives without the first item of the current branch. */
  function Passed(al: Alts): Alts
    requires al.branch.Cons?
  {
    if al.Last? then Last(al.branch.tail) else More(al.branch.tail, al.rest)
  }

  lemma ValidParts(al: Alts)
    requires ValidAlts(al)
    ensures ValidOps(al.branch) && (al.More? ==> ValidAlts(al.rest) && ValidOps(al.rest.branch))
    ensures al.branch.Cons? ==>
      ValidOp(al.branch.head) && ValidOps(al.branch.tail) && ValidAlts(Passed(al)) && Passed(al).branch == al.branch.tail
  {
    assert ValidOps(al.branch);
    if al.branch.Cons? {
      assert ValidOps(al.branch.tail);
    }
    if al.More? {
      assert ValidAlts(al.rest);
    }
  }

  lemma AheadParts(code: seq<Byte>, cc: nat, al: Alts, e: nat, closes: bool)
    requires Ahead(code, cc, al, e, closes)
    ensures cc <= e && ValidOps(al.branch)
    ensures al.branch.Cons? ==>
      var op := al.branch.head;
      && ValidOp(op) && Placed(code, cc, EncOp(op)) && At(code, cc) == Lead(op)
      && cc < cc + |EncOp(op)| <= e
      && Ahead(code, cc + |EncOp(op)|, Passed(al), e, closes)
    ensures al.branch.Nil? ==>
      if al.More? then At(code, cc) == OP_ALT && Heading(code, cc, al.rest, false, cc + 1 + LINK_SIZE) && cc < e
      else cc == e && (if closes then At(code, e) == OP_KET || At(code, e) == OP_END else At(code, e) == OP_KETRMAX || At(code, e) == OP_KETRMIN)
  {
    hide Heading, EncAlts, EncOp, Placed;
    ValidParts(al);
    if al.branch.Cons? {
      PlacedOps(code, cc, al.branch.head, al.branch.tail);
      LeadUnit(code, cc, al.branch.head);
    }
  }

  lemma NextBranch(code: seq<Byte>, cc: nat, al: Alts, e: nat, closes: bool)
    requires Ahead(code, cc, al, e, closes) && al.branch.Nil? && al.More?
    ensures Ahead(code, cc + 1 + LINK_SIZE, al.rest, e, closes) && cc < cc + 1 + LINK_SIZE <= e
  {
    hide EncAlts;
    ValidParts(al);
    var rest, h := al.rest, cc + 1 + LINK_SIZE;
    BranchRemains(code, cc, rest, h, h + |EncBranch(rest.branch, false)|);
  }

  lemma GroupAhead(code: seq<Byte>, cc: nat, g: Op)
    requires ValidOp(g) && g.Bra? && Placed(code, cc, EncOp(g))
    ensures Ahead(code, cc + HeaderLen(g.op), g.body, ToKet(code, cc), g.ket == OP_KET)
    ensures cc + HeaderLen(g.op) <= ToKet(code, cc) && At(code, cc + HeaderLen(g.op)) != OP_REVERSE
  {
    hide Entries, EncAlts, EncOps, Offsets, ToKet, EncOpen;
    var h, k := Bracket(code, cc, g.op, g.cap, g.body, g.ket, false);
    KetUnit(code, cc, g, k);
    BranchRemains(code, cc, g.body, h, h + |EncBranch(g.body.branch, false)|);
    NoReverse(code, h, g.body, k, g.ket == OP_KET);
  }

  lemma NoReverse(code: seq<Byte>, cc: nat, al: Alts, e: nat, closes: bool)
    requires Ahead(code, cc, al, e, closes)
    ensures At(code, cc) != OP_REVERSE
  {
    hide Ahead, Lead, EncOp;
    AheadParts(code, cc, al, e, closes);
    if al.branch.Cons? {
      LeadLook(al.branch.head);
    }
  }

  lemma KetUnit(code: seq<Byte>, cc: nat, g: Op, k: nat)
    requires ValidOp(g) && g.Bra? && Placed(code, cc, EncOp(g)) && k == cc + HeaderLen(g.op) + |EncAlts(g.body, false)|
    ensures At(code, k) == g.ket
  {
    hide EncAlts, EncOpen;
    var s := EncOpen(g.op, g.cap, g.body, false);
    assert EncOp(g) == s + [g.ket] + Two(|s|);
    HoldsAt(code, cc, EncOp(g), |s|);
  }

  predicate IsExact(u: Byte) {
    u == OP_STAR + EXACT || u == OP_STARI + EXACT || u == OP_NOTSTAR + EXACT || u == OP_NOTSTARI + EXACT || u == OP_TYPESTAR + EXACT
  }

  /** What a simple item's first unit says about its length. */
  lemma SimpleLength(code: seq<Byte>, cc: nat, op: Op)
    requires ValidOp(op) && Simple(op) && Placed(code, cc, EncOp(op)) && At(code, cc) == Lead(op)
    ensures OpLength(op) == (if op.Test? then 0 else if op.One? then 1 else if IsExact(Lead(op)) then Get(code, cc + 1) else -1)
    ensures op.Test? <==> IsTest(Lead(op))
    ensures op.One? <==> OP_NOT_DIGIT <= Lead(op) <= OP_ALLANY || OP_CHAR <= Lead(op) <= OP_NOTI
    ensures op.Rep? <==> OP_STAR <= Lead(op) < OP_CRSTAR
  {
    if op.Rep? {
      var u := Lead(op);
      assert (u - OP_STAR) % 13 == op.form && (u - OP_STAR) / 13 == Family(op.atom);
      DecodeCharRepeat(code, cc, op.atom, op.form, op.n, op.m);
    }
  }

  lemma OutcomeParts(length: int, count: nat, al: Alts, closes: bool)
    ensures al.branch.Cons? ==>
      var l := OpLength(al.branch.head);
      Outcome(length, count, al, closes) == if l < 0 then -1 else Outcome(length, count + l, Passed(al), closes)
    ensures al.branch.Nil? && length >= 0 && length != count ==> Outcome(length, count, al, closes) == -1
    ensures al.branch.Nil? && (length < 0 || length == count) ==>
      Outcome(length, count, al, closes) == if al.More? then Outcome(count, 0, al.rest, closes) else if closes then count else -1
  {
    OpsRange(al.branch);
    if al.branch.Cons? {
      OpRange(al.branch.head);
      OpsRange(al.branch.tail);
    }
  }

  /** What a class item's units say about its length. */
  lemma ClassLength(code: seq<Byte>, cc: nat, op: Op)
    requires ValidOp(op) && (op.One? || op.Rep?) && op.atom.Class? && Placed(code, cc, EncOp(op))
    ensures op.One? ==> !IsClassRepeat(At(code, cc + 33)) && |EncOp(op)| == 33 && OpLength(op) == 1
    ensures op.Rep? ==> IsClassRepeat(At(code, cc + 33)) && |EncOp(op)| == 33 + OpLengths(At(code, cc + 33))
    ensures op.Rep? ==>
      OpLength(op) == if At(code, cc + 33) >= OP_CRRANGE && Get(code, cc + 34) == Get(code, cc + 36) then Get(code, cc + 34) else -1
  {
    assert |EncAtom(op.atom)| == 33;
    if op.Rep? {
      ClassRepeatUnits(code, cc, op);
      DecodeClassRepeat(code, cc, op.atom, op.form, op.n, op.m);
    }
  }

  /** The length that every branch from `start` on matches, or -1 if there is no such length. In
      a lookbehind the branch begins with OP_REVERSE (`rev`). */
  method FindFixedLength(code: seq<Byte>, start: nat, ghost al: Alts, ghost e: nat, ghost closes: bool, ghost rev: bool)
    returns (length: int)
    requires Ahead(code, start + 1 + LINK_SIZE + (if rev then 1 + LINK_SIZE else 0), al, e, closes) && start <= e
    requires rev <==> At(code, start + 1 + LINK_SIZE) == OP_REVERSE
    ensures length == if closes then AltsLength(al) else -1
    decreases e - start
  {
    hide Ahead, Outcome, Lead, ToKet, Get, Placed, ValidOp, EncOp, OpLength, AltsLength, IsExact;
    length := -1;
    var branchlength: nat, cc: nat := 0, start + 1 + LINK_SIZE;
    ghost var todo := al;
    OutcomeIs(-1, al, closes);
    if At(code, cc) == OP_REVERSE {
      cc := cc + OpLengths(OP_REVERSE);
    }
    while true
      invariant Ahead(code, cc, todo, e, closes) && start < cc
      invariant Outcome(length, branchlength, todo, closes) == if closes then AltsLength(al) else -1
      decreases e - cc, todo
    {
      var op := At(code, cc);
      AheadParts(code, cc, todo, e, closes);
      OutcomeParts(length, branchlength, todo, closes);
      if todo.branch.Cons? { LeadLook(todo.branch.head); }
      if op == OP_ALT || op == OP_KET || op == OP_END {
        if length < 0 {
          length := branchlength;
        } else if length != branchlength {
          return -1;
        }
        if op != OP_ALT { return; }
        NextBranch(code, cc, todo, e, closes);
        todo := todo.rest;
        cc := cc + 1 + LINK_SIZE;
        branchlength := 0;
        continue;
      }
      if IsKet(op) { return -1; }
      var d;
      d, cc := ItemLength(code, cc, todo.branch.head, e);
      if d < 0 { return -1; }
      branchlength := branchlength + d;
      todo := Passed(todo);
    }
  }

  /** One item: its length, or -1, and where the next one is. */
  method ItemLength(code: seq<Byte>, cc: nat, ghost item: Op, ghost e: nat) returns (d: int, next: nat)
    requires ValidOp(item) && Placed(code, cc, EncOp(item)) && At(code, cc) == Lead(item) && cc + |EncOp(item)| <= e
    ensures d == OpLength(item) && d >= -1 && (d >= 0 ==> next == cc + |EncOp(item)|)
    decreases e - cc, 0
  {
    hide Ahead, Lead, OpLengths, ToKet, Get, Placed, EncOp, AltsLength;
    LeadLook(item);
    OpRange(item);
    var op := At(code, cc);
    next := cc;
    if op == OP_BRA || op == OP_CBRA {
      GroupAhead(code, cc, item);
      GroupEnd(code, cc, item);
      d := FindFixedLength(code, cc + (if op == OP_CBRA then IMM2_SIZE else 0), item.body, ToKet(code, cc), item.ket == OP_KET, false);
      var k := FindKet(code, cc);
      next := k + 1 + LINK_SIZE;
    } else if IsLook(op) {
      GroupEnd(code, cc, item);
      var k := FindKet(code, cc);
      d, next := 0, k + OpLengths(At(code, k));
    } else if op == OP_CLASS || op == OP_NCLASS {
      ClassLength(code, cc, item);
      var q := At(code, cc + 33);
      if q == OP_CRRANGE || q == OP_CRMINRANGE {
        if Get(code, cc + 34) != Get(code, cc + 36) { return -1, cc; }
        d, next := Get(code, cc + 34), cc + 33 + OpLengths(q);
      } else if IsClassRepeat(q) {
        d := -1;
      } else {
        d, next := 1, cc + 33;
      }
    } else if op == OP_SBRA || op == OP_SCBRA || op == OP_BRAZERO || op == OP_BRAMINZERO || op == OP_SKIPZERO {
      d := -1;
    } else {
      SimpleLength(code, cc, item);
      SimpleUnits(item);
      next := cc + OpLengths(op);
      if IsTest(op) {
        d := 0;
      } else if IsExact(op) {
        d := Get(code, cc + 1);
      } else if op >= OP_STAR {
        d := -1;
      } else {
        d := 1;
      }
    }
  }
}
