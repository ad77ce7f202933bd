/** What the compiler makes of a pattern: every quantifier expanded into the repeats, copies,
    nested optional groups and loops that the code offers. */
module Expansion {
  import opened Bytecode
  import opened Tree
  import opened Subject
  import opened Pattern
  import opened Empty

  function Append(a: Ops, b: Ops): Ops {
    match a
    case Nil => b
    case Cons(op, rest) => Cons(op, Append(rest, b))
  }

  function Lazier(q: Quant, poss: bool): nat { if !poss && q.greed == Lazy then 1 else 0 }

  function CharRep(a: Atom, form: nat, pos: nat, lazy: nat, poss: bool, n: nat): Op {
    Rep(a, if poss then pos else form + lazy, n, 0)
  }

  /** A quantified character: a minimum of one leaves the item in place, a greater one is an EXACT. */
  function ExpandChar(a: Atom, q: Quant, poss: bool): Ops
    requires ValidQuant(q)
  {
    var z := Lazier(q, poss);
    if q.max == 0 then Nil
    else if q.min == 0 then
      if q.max < 0 then Cons(CharRep(a, STAR, POSSTAR, z, poss, 0), Nil)
      else if q.max == 1 then Cons(CharRep(a, QUERY, POSQUERY, z, poss, 0), Nil)
      else Cons(CharRep(a, UPTO, POSUPTO, z, poss, q.max), Nil)
    else if q.min == 1 then
      if q.max < 0 then Cons(CharRep(a, PLUS, POSPLUS, z, poss, 0), Nil)
      else if q.max == 1 then Cons(One(a), Nil)
      else Cons(One(a), Cons(CharRep(a, UPTO, POSUPTO, z, poss, q.max - 1), Nil))
    else
      Cons(Rep(a, EXACT, q.min, 0),
           if q.max < 0 then Cons(CharRep(a, STAR, POSSTAR, z, poss, 0), Nil)
           else if q.max == q.min then Nil
           else if q.max == q.min + 1 then Cons(CharRep(a, QUERY, POSQUERY, z, poss, 0), Nil)
           else Cons(CharRep(a, UPTO, POSUPTO, z, poss, q.max - q.min), Nil))
  }

  function ExpandClass(a: Atom, q: Quant): Ops {
    var z := Lazier(q, false);
    if q.max == 0 then Nil
    else if q.min == 0 && q.max < 0 then Cons(Rep(a, STAR + z, 0, 0), Nil)
    else if q.min == 1 && q.max < 0 then Cons(Rep(a, PLUS + z, 0, 0), Nil)
    else if q.min == 0 && q.max == 1 then Cons(Rep(a, QUERY + z, 0, 0), Nil)
    else Cons(Rep(a, UPTO + z, q.min, if q.max < 0 then 0 else q.max), Nil)
  }

  /** The bracket of an unlimited repeat: marked when its body could match nothing. */
  function Looped(g: Op, lazy: bool): Op
    requires g.Bra? && IsGroup(g.op)
  {
    Bra(if CanBeEmptyAlts(g.body) then g.op + (OP_SBRA - OP_BRA) else g.op, g.cap, g.body,
        if lazy then OP_KETRMIN else OP_KETRMAX)
  }

  function Copies(g: Op, n: nat, rest: Ops): Ops {
    if n == 0 then rest else Cons(g, Copies(g, n - 1, rest))
  }

  /** Up to `m` copies, each nested in the option that the one before it offers. */
  function Optional(g: Op, m: nat, lazy: bool): Ops {
    if m == 0 then Nil
    else if m == 1 then Cons(Zero(lazy, g), Nil)
    else Cons(Zero(lazy, Bra(OP_BRA, 0, Last(Cons(g, Optional(g, m - 1, lazy))), OP_KET)), Nil)
  }

  function ExpandGroup(g: Op, q: Quant): Ops
    requires g.Bra? && IsGroup(g.op) && ValidQuant(q)
  {
    var lazy := q.greed == Lazy;
    if q.min == 0 then
      if q.max == 0 then Cons(Skip(g), Nil)
      else if q.max < 0 then Cons(Zero(lazy, Looped(g, lazy)), Nil)
      else Optional(g, q.max, lazy)
    else if q.max < 0 then Copies(g, q.min - 1, Cons(Looped(g, lazy), Nil))
    else Copies(g, q.min, Optional(g, q.max - q.min, lazy))
  }

  function Group(cap: nat, body: Alts): Op { Bra(if cap == 0 then OP_BRA else OP_CBRA, cap, body, OP_KET) }

  function ExpandItem(t: CharTables, item: Item, rest: Branch): Ops
    requires ValidItem(item)
    decreases item, 1
  {
    match item
    case PTest(o) => Cons(Test(o), Nil)
    case PAtom(a, _) => Cons(One(a), Nil)
    case PRep(a, q) => if a.Class? then ExpandClass(a, q) else ExpandChar(a, q, MadePossessive(t, a, q, rest))
    case PGroup(cap, body) => Cons(Group(cap, TreeOf(t, body)), Nil)
    case PGroupRep(cap, body, q) => ExpandGroup(Group(cap, TreeOf(t, body)), q)
    case PLook(o, body) => Cons(Look(o, TreeOf(t, body)), Nil)
  }

  function ExpandBranch(t: CharTables, b: Branch): Ops
    requires ValidBranch(b)
    decreases b, 1
  {
    match b
    case BNil => Nil
    case BCons(item, rest) => Append(ExpandItem(t, item, rest), ExpandBranch(t, rest))
  }

  /** The code tree of a pattern. */
  function TreeOf(t: CharTables, al: PAlts): Alts
    requires ValidPAlts(al)
    decreases al, 1
  {
    match al
    case PLast(b) => Last(ExpandBranch(t, b))
    case PMore(b, rest) => More(ExpandBranch(t, b), TreeOf(t, rest))
  }

  // ----- the result is a valid tree -----

  /** Every branch of every lookbehind has a fixed length: otherwise the pattern is refused. */
  predicate FixedBehind(t: CharTables, al: PAlts)
    requires ValidPAlts(al)
    decreases al, 1
  {
    FixedBehindBranch(t, al.branch) && (al.PMore? ==> FixedBehind(t, al.rest))
  }

  predicate FixedBehindBranch(t: CharTables, b: Branch)
    requires ValidBranch(b)
    decreases b, 1
  {
    b.BCons? ==> FixedBehindItem(t, b.head) && FixedBehindBranch(t, b.tail)
  }

  predicate FixedBehindItem(t: CharTables, item: Item)
    requires ValidItem(item)
    decreases item, 1
  {
    match item
    case PGroup(_, body) => FixedBehind(t, body)
    case PGroupRep(_, body, _) => FixedBehind(t, body)
    case PLook(o, body) => FixedBehind(t, body) && (IsBack(o) ==> FixedAlts(TreeOf(t, body)))
    case _ => true
  }

  /** The lengths of lookbehinds fit into two units. */
  predicate Short(t: CharTables, al: PAlts)
    requires ValidPAlts(al)
    decreases al, 1
  {
    ShortBranch(t, al.branch) && (al.PMore? ==> Short(t, al.rest))
  }

  predicate ShortBranch(t: CharTables, b: Branch)
    requires ValidBranch(b)
    decreases b, 1
  {
    b.BCons? ==> ShortItem(t, b.head) && ShortBranch(t, b.tail)
  }

  predicate ShortItem(t: CharTables, item: Item)
    requires ValidItem(item)
    decreases item, 1
  {
    match item
    case PGroup(_, body) => Short(t, body)
    case PGroupRep(_, body, _) => Short(t, body)
    case PLook(o, body) => Short(t, body) && (IsBack(o) ==> ShortAlts(TreeOf(t, body)))
    case _ => true
  }

  lemma ValidAppend(a: Ops, b: Ops)
    requires ValidOps(a) && ValidOps(b)
    ensures ValidOps(Append(a, b))
  {
  }

  lemma ValidCopies(g: Op, n: nat, rest: Ops)
    requires ValidOp(g) && ValidOps(rest)
    ensures ValidOps(Copies(g, n, rest))
  {
  }

  lemma ValidOptional(g: Op, m: nat, lazy: bool)
    requires ValidOp(g) && g.Bra?
    ensures ValidOps(Optional(g, m, lazy))
  {
    if m > 1 {
      ValidOptional(g, m - 1, lazy);
      var inner := Cons(g, Optional(g, m - 1, lazy));
      assert ValidAlts(Last(inner));
    }
  }

  lemma ValidGroup(g: Op, q: Quant)
    requires ValidOp(g) && g.Bra? && (g.op == OP_BRA || g.op == OP_CBRA) && ValidQuant(q)
    ensures ValidOps(ExpandGroup(g, q))
  {
    var lazy := q.greed == Lazy;
    if q.max > 0 {
      ValidOptional(g, if q.min == 0 then q.max else q.max - q.min, lazy);
      ValidCopies(g, q.min, Optional(g, q.max - q.min, lazy));
    } else if q.max < 0 && q.min > 0 {
      ValidCopies(g, q.min - 1, Cons(Looped(g, lazy), Nil));
    }
  }

  lemma {:induction false} ValidItemTree(t: CharTables, item: Item, rest: Branch)
    requires ValidItem(item) && FixedBehindItem(t, item) && UnwrappedItem(t, item, rest)
    ensures ValidOps(ExpandItem(t, item, rest))
    decreases item, 1
  {
    match item
    case PGroup(_, body) => ValidTree(t, body);
    case PGroupRep(cap, body, q) =>
      ValidTree(t, body);
      ValidGroup(Group(cap, TreeOf(t, body)), q);
    case PLook(_, body) => ValidTree(t, body);
    case _ =>
  }

  lemma {:induction false} ValidBranchTree(t: CharTables, b: Branch)
    requires ValidBranch(b) && FixedBehindBranch(t, b) && UnwrappedBranch(t, b)
    ensures ValidOps(ExpandBranch(t, b))
    decreases b, 1
  {
    if b.BCons? {
      ValidItemTree(t, b.head, b.tail);
      ValidBranchTree(t, b.tail);
      ValidAppend(ExpandItem(t, b.head, b.tail), ExpandBranch(t, b.tail));
    }
  }

  lemma {:induction false} ValidTree(t: CharTables, al: PAlts)
    requires ValidPAlts(al) && FixedBehind(t, al) && Unwrapped(t, al)
    ensures ValidAlts(TreeOf(t, al))
    decreases al, 1
  {
    ValidBranchTree(t, al.branch);
    if al.PMore? {
      ValidTree(t, al.rest);
    }
  }
}
