/** The search for a first character that is asserted: when a pattern has none of its own, the
    compiler looks for one with which all branches begin inside a lookahead. */
module Asserted {
  import opened Bytecode
  import opened Tree
  import opened Subject
  import opened Semantics
  import opened Graph
  import opened Layout
  import opened Pattern
  import opened Expansion
  import opened EmptyScan
  import opened Lookahead
  import opened Words
  import opened Anchoring

  /** The literal that the item needs at once: a character, or a repeat of at least one. */
  function Leading(op: Op): Req {
    match op
    case One(Lit(c, nocase)) => Char(c, nocase, false)
    case Rep(Lit(c, nocase), form, _, _) =>
      if form == PLUS || form == PLUS + 1 || form == POSPLUS || form == EXACT then Char(c, nocase, false) else NoChar
    case _ => NoChar
  }

  /** Items that are looked into: a lookahead, and the groups that the switch lists. */
  predicate Opens(op: Op) {
    (op.Bra? && (op.op == OP_BRA || op.op == OP_CBRA || op.op == OP_SCBRA)) || (op.Look? && op.op == OP_ASSERT)
  }

  /** The character after one more branch, which begins with `op`, when the earlier ones have `c`. A
      literal is compared with `c` by its code alone, whether or not it is caseless itself. */
  function Agreed(c: Req, op: Op, inassert: bool): Req
    decreases op, 0
  {
    if Opens(op) then
      var d := AssertedAlts(op.body, op.Look?);
      if !d.Char? || (c.Char? && c != d) then NoChar else d
    else
      var d := Leading(op);
      if !inassert || !d.Char? then NoChar
      else if !c.Char? then d
      else if c.ch == d.ch && !c.caseless then c else NoChar
  }

  function AssertedMore(al: Alts, inassert: bool, c: Req): Req
    decreases al, 1
  {
    var ops := Significant(al.branch);
    if ops.Nil? then NoChar else
      var d := Agreed(c, ops.head, inassert);
      if d.Char? && al.More? then AssertedMore(al.rest, inassert, d) else d
  }

  /** The character with which all alternatives begin inside a lookahead, or none. */
  function AssertedAlts(al: Alts, inassert: bool): Req
    decreases al, 2
  {
    AssertedMore(al, inassert, Unset)
  }

  // ----- one caseless setting -----

  /** All literals of the pattern are caseless, or none is. */
  predicate Uniform(nocase: bool, al: PAlts) {
    UniformBranch(nocase, al.branch) && (al.PMore? ==> Uniform(nocase, al.rest))
  }

  predicate UniformAtom(nocase: bool, a: Atom) { a.Lit? || a.NotLit? ==> a.nocase == nocase }

  predicate UniformBranch(nocase: bool, b: Branch) {
    b.BCons? ==> UniformItem(nocase, b.head) && UniformBranch(nocase, b.tail)
  }

  predicate UniformItem(nocase: bool, item: Item) {
    match item
    case PAtom(a, _) => UniformAtom(nocase, a)
    case PRep(a, _) => UniformAtom(nocase, a)
    case PGroup(_, body) => Uniform(nocase, body)
    case PGroupRep(_, body, _) => Uniform(nocase, body)
    case PLook(_, body) => Uniform(nocase, body)
    case _ => true
  }

  predicate CasedOp(nocase: bool, op: Op) {
    match op
    case One(a) => UniformAtom(nocase, a)
    case Rep(a, _, _, _) => UniformAtom(nocase, a)
    case Bra(_, _, body, _) => CasedAlts(nocase, body)
    case Zero(_, g) => CasedOp(nocase, g)
    case Skip(g) => CasedOp(nocase, g)
    case Look(_, body) => CasedAlts(nocase, body)
    case Test(_) => true
  }

  predicate CasedOps(nocase: bool, ops: Ops) { ops.Cons? ==> CasedOp(nocase, ops.head) && CasedOps(nocase, ops.tail) }

  /** All literals of the tree are caseless, or none is. */
  predicate CasedAlts(nocase: bool, al: Alts) { CasedOps(nocase, al.branch) && (al.More? ==> CasedAlts(nocase, al.rest)) }

  lemma CasedAppend(nocase: bool, a: Ops, b: Ops)
    requires CasedOps(nocase, a) && CasedOps(nocase, b)
    ensures CasedOps(nocase, Append(a, b))
  {
  }

  lemma CasedCopies(nocase: bool, g: Op, n: nat, rest: Ops)
    requires CasedOp(nocase, g) && CasedOps(nocase, rest)
    ensures CasedOps(nocase, Copies(g, n, rest))
  {
  }

  lemma CasedOptional(nocase: bool, g: Op, m: nat, lazy: bool)
    requires CasedOp(nocase, g)
    ensures CasedOps(nocase, Optional(g, m, lazy))
  {
    assert CasedOps(nocase, Nil);
    if m > 1 {
      CasedOptional(nocase, g, m - 1, lazy);
      var nest := Cons(g, Optional(g, m - 1, lazy));
      assert CasedOps(nocase, nest) && CasedAlts(nocase, Last(nest));
      assert CasedOp(nocase, Zero(lazy, Bra(OP_BRA, 0, Last(nest), OP_KET)));
    } else if m == 1 {
      assert CasedOp(nocase, Zero(lazy, g));
    }
  }

  lemma CasedGroup(nocase: bool, g: Op, q: Quant)
    requires g.Bra? && IsGroup(g.op) && ValidQuant(q) && CasedOp(nocase, g)
    ensures CasedOps(nocase, ExpandGroup(g, q))
  {
    var lazy := q.greed == Lazy;
    assert CasedOps(nocase, Nil) && CasedOp(nocase, Looped(g, lazy)) && CasedOps(nocase, Cons(Looped(g, lazy), Nil));
    if q.max > 0 {
      CasedOptional(nocase, g, q.max - q.min, lazy);
      CasedCopies(nocase, g, q.min, Optional(g, q.max - q.min, lazy));
    } else if q.max < 0 && q.min > 0 {
      CasedCopies(nocase, g, q.min - 1, Cons(Looped(g, lazy), Nil));
    } else if q.max < 0 {
      assert CasedOp(nocase, Zero(lazy, Looped(g, lazy)));
    } else {
      assert CasedOp(nocase, Skip(g));
    }
  }

  lemma CasedRepeat(nocase: bool, a: Atom, q: Quant, poss: bool)
    requires ValidQuant(q) && UniformAtom(nocase, a)
    ensures CasedOps(nocase, ExpandChar(a, q, poss)) && CasedOps(nocase, ExpandClass(a, q))
  {
    assert CasedOps(nocase, Nil);
    var ops := ExpandChar(a, q, poss);
    if ops.Cons? {
      assert CasedOps(nocase, ops.tail);
    }
  }

  lemma {:induction false} CasedBranch(t: CharTables, nocase: bool, b: Branch)
    requires ValidBranch(b) && UniformBranch(nocase, b)
    ensures CasedOps(nocase, ExpandBranch(t, b))
    decreases b, 0
  {
    if b.BCons? {
      var ops := ExpandItem(t, b.head, b.tail);
      assert CasedOps(nocase, Nil);
      match b.head {
        case PRep(a, q) => CasedRepeat(nocase, a, q, MadePossessive(t, a, q, b.tail));
        case PGroup(cap, body) => CasedTree(t, nocase, body);
        case PGroupRep(cap, body, q) =>
          CasedTree(t, nocase, body);
          CasedGroup(nocase, Group(cap, TreeOf(t, body)), q);
        case PLook(_, body) => CasedTree(t, nocase, body);
        case _ =>
      }
      assert CasedOps(nocase, ops);
      CasedBranch(t, nocase, b.tail);
      CasedAppend(nocase, ops, ExpandBranch(t, b.tail));
    }
  }

  /** A pattern with one caseless setting has a tree with that setting. */
  lemma {:induction false} CasedTree(t: CharTables, nocase: bool, al: PAlts)
    requires ValidPAlts(al) && Uniform(nocase, al)
    ensures CasedAlts(nocase, TreeOf(t, al))
    decreases al, 1
  {
    CasedBranch(t, nocase, al.branch);
    if al.PMore? {
      CasedTree(t, nocase, al.rest);
    }
  }

  // ----- literals of both kinds -----

  /** The step at which one more branch begins with `op`, when the earlier ones have `c`, is right: no
      caseless literal is accepted for an earlier character that has another case. */
  predicate EvenStep(t: CharTables, c: Req, op: Op, inassert: bool)
    decreases op, 0
  {
    if Opens(op) then EvenAlts(t, op.body, op.Look?) else !Uneven(t, c, Leading(op), inassert)
  }

  predicate Uneven(t: CharTables, c: Req, d: Req, inassert: bool) {
    inassert && c.Char? && d.Char? && c.ch == d.ch && !c.caseless && d.caseless && t.flip[c.ch] != c.ch
  }

  predicate EvenMore(t: CharTables, al: Alts, inassert: bool, c: Req)
    decreases al, 1
  {
    var ops := Significant(al.branch);
    ops.Cons? ==>
      && EvenStep(t, c, ops.head, inassert)
      && (al.More? && Agreed(c, ops.head, inassert).Char? ==> EvenMore(t, al.rest, inassert, Agreed(c, ops.head, inassert)))
  }

  predicate EvenAlts(t: CharTables, al: Alts, inassert: bool)
    decreases al, 2
  {
    EvenMore(t, al, inassert, Unset)
  }

  /** With one caseless setting every step is right. */
  lemma {:induction false} CasedEven(t: CharTables, nocase: bool, al: Alts, inassert: bool, c: Req)
    requires CasedAlts(nocase, al) && (c.Char? ==> c.caseless == nocase)
    ensures EvenMore(t, al, inassert, c)
    ensures AssertedMore(al, inassert, c).Char? ==> AssertedMore(al, inassert, c).caseless == nocase
    decreases al
  {
    var ops := Significant(al.branch);
    if ops.Cons? {
      SignificantCased(nocase, al.branch);
      if Opens(ops.head) {
        CasedEven(t, nocase, ops.head.body, ops.head.Look?, Unset);
        var e := AssertedAlts(ops.head.body, ops.head.Look?);
        assert e.Char? ==> e.caseless == nocase;
      }
      var d := Agreed(c, ops.head, inassert);
      assert d.Char? ==> d.caseless == nocase;
      if d.Char? && al.More? {
        CasedEven(t, nocase, al.rest, inassert, d);
      }
    }
  }

  lemma {:induction false} SignificantCased(nocase: bool, ops: Ops)
    requires CasedOps(nocase, ops)
    ensures CasedOps(nocase, Significant(ops))
    decreases ops
  {
    if ops.Cons? && PassedOver(ops.head) {
      SignificantCased(nocase, ops.tail);
    }
  }

  // ----- every match begins with the character -----

  /** The items that are passed over match nothing but the empty string. */
  lemma {:induction false} SignificantMatches(x: Ctx, ops: Ops, s: nat, j: nat)
    requires ValidOps(ops) && MOps(x, ops, s, j)
    ensures ValidOps(Significant(ops)) && MOps(x, Significant(ops), s, j)
    decreases ops
  {
    if ops.Cons? && PassedOver(ops.head) {
      var k := MOpsElim(x, ops, s, j);
      SignificantMatches(x, ops.tail, k, j);
    }
  }

  lemma {:induction false} AgreedSound(x: Ctx, c: Req, op: Op, inassert: bool, s: nat, k: nat)
    requires ValidOp(op) && EvenStep(x.tables, c, op, inassert) && MOp(x, op, s, k) && Agreed(c, op, inassert).Char?
    ensures s < |x.subject| && CharIs(x.tables, Agreed(c, op, inassert), x.subject[s])
    decreases op, 0
  {
    hide AssertedMore, EvenMore, MAlts, Iter, MLook, MOps, ValidAlts, AtomAt;
    match op
    case Bra(_, _, body, ket) =>
      if ket == OP_KET {
        AssertedSound(x, body, false, Unset, s, k);
      } else {
        var n := LoopElim(x, op, s, k);
        var m := IterElim(x, body, n, s, k);
        AssertedSound(x, body, false, Unset, s, m);
      }
    case Look(o, body) =>
      if o == OP_ASSERT {
        var q := MLookElim(x, o, body, s);
        AssertedSound(x.(som := s), body, true, Unset, s, q);
      }
    case _ => LeadingSound(x, op, s, k);
  }

  lemma LeadingSound(x: Ctx, op: Op, s: nat, k: nat)
    requires ValidOp(op) && (op.One? || op.Rep? || op.Test? || op.Zero? || op.Skip?) && MOp(x, op, s, k) && Leading(op).Char?
    ensures s < |x.subject| && CharIs(x.tables, Leading(op), x.subject[s])
  {
    if op.Rep? {
      assert AtomAt(x.tables, op.atom, x.subject[s]);
    }
  }

  /** Whatever the alternatives match, in the subject or ahead, begins with the character found, if every
      step of the search was right. */
  lemma {:induction false} AssertedSound(x: Ctx, al: Alts, inassert: bool, c: Req, s: nat, j: nat)
    requires ValidAlts(al) && EvenMore(x.tables, al, inassert, c) && MAlts(x, al, s, j)
    ensures var d := AssertedMore(al, inassert, c);
            d.Char? ==> s < |x.subject| && CharIs(x.tables, d, x.subject[s])
    decreases al, 1
  {
    hide CharIs;
    var d, ops := AssertedMore(al, inassert, c), Significant(al.branch);
    if d.Char? {
      if MOps(x, al.branch, s, j) {
        SignificantMatches(x, al.branch, s, j);
        var k := MOpsElim(x, ops, s, j);
        AgreedSound(x, c, ops.head, inassert, s, k);
        if al.More? {
          Kept(al.rest, inassert, Agreed(c, ops.head, inassert));
        }
      } else {
        AssertedSound(x, al.rest, inassert, Agreed(c, ops.head, inassert), s, j);
      }
    }
  }

  /** Once there is a character it stays. */
  lemma {:induction false} Kept(al: Alts, inassert: bool, c: Req)
    requires c.Char?
    ensures AssertedMore(al, inassert, c).Char? ==> AssertedMore(al, inassert, c) == c
    decreases al
  {
    var ops := Significant(al.branch);
    if ops.Cons? {
      var d := Agreed(c, ops.head, inassert);
      if d.Char? && al.More? {
        Kept(al.rest, inassert, d);
      }
    }
  }

  /** Without assertions nothing is asserted. */
  lemma {:induction false} NothingAsserted(t: CharTables, al: Alts, c: Req)
    requires AltsDepth(al) == 0
    ensures !AssertedMore(al, false, c).Char? && EvenMore(t, al, false, c)
    decreases al
  {
    SignificantDepth(al.branch);
    var ops := Significant(al.branch);
    if ops.Cons? && Opens(ops.head) {
      assert OpDepth(ops.head) == 0 && AltsDepth(ops.head.body) == 0;
      NothingAsserted(t, ops.head.body, Unset);
      assert !AssertedAlts(ops.head.body, ops.head.Look?).Char?;
    }
    assert ops.Cons? ==> !Agreed(c, ops.head, false).Char?;
  }

  lemma {:induction false} SignificantDepth(ops: Ops)
    requires OpsDepth(ops) == 0
    ensures OpsDepth(Significant(ops)) == 0
    decreases ops
  {
    if ops.Cons? && PassedOver(ops.head) {
      SignificantDepth(ops.tail);
    }
  }

  // ----- exactly when the search is right -----

  /** Some subject that begins with `e` lets the sequence match from its start. */
  ghost predicate MatchesOn(t: CharTables, e: Byte, ops: Ops)
    requires ValidOps(ops)
  {
    exists x: Ctx, j: nat :: x.tables == t && x.som == 0 && |x.subject| > 0 && x.subject[0] == e && MOps(x, ops, 0, j)
  }

  /** Every branch begins with a literal, and what comes behind can match after each of its cases. */
  ghost predicate Lively(t: CharTables, al: Alts)
    requires ValidAlts(al)
  {
    && al.branch.Cons? && Leading(al.branch.head).Char?
    && (forall e: Byte | CharIs(t, Leading(al.branch.head), e) :: MatchesOn(t, e, al.branch))
    && (al.More? ==> Lively(t, al.rest))
  }

  /** Wherever the lookahead holds, the character stands. */
  ghost predicate Promised(t: CharTables, al: Alts, c: Req)
    requires ValidAlts(al)
  {
    forall x: Ctx, s: nat | x.tables == t && MLook(x, OP_ASSERT, al, s) :: s < |x.subject| && CharIs(t, c, x.subject[s])
  }

  /** For a lookahead whose branches begin with literals, the character found is right exactly if every
      step is: no caseless literal was accepted for an earlier character with another case. */
  lemma AssertedExactly(t: CharTables, al: Alts)
    requires ValidAlts(al) && Lively(t, al) && AssertedAlts(al, true).Char?
    ensures Promised(t, al, AssertedAlts(al, true)) <==> EvenAlts(t, al, true)
  {
    hide AssertedMore, EvenMore, Lively, MAlts, MLook;
    if EvenAlts(t, al, true) {
      forall x: Ctx, s: nat | x.tables == t && MLook(x, OP_ASSERT, al, s)
        ensures s < |x.subject| && CharIs(t, AssertedAlts(al, true), x.subject[s])
      {
        var q := MLookElim(x, OP_ASSERT, al, s);
        AssertedSound(x.(som := s), al, true, Unset, s, q);
      }
    } else {
      var x, j := UnevenMatch(t, al, Unset);
      assert x.(som := 0) == x;
      MLookIntro(x, OP_ASSERT, al, 0, j);
    }
  }

  /** Where a step is wrong, the other case of the character begins a match. */
  lemma {:induction false} UnevenMatch(t: CharTables, al: Alts, c: Req) returns (x: Ctx, j: nat)
    requires ValidAlts(al) && Lively(t, al) && AssertedMore(al, true, c).Char? && !EvenMore(t, al, true, c)
    ensures x.tables == t && x.som == 0 && 0 < j && |x.subject| > 0 && MAlts(x, al, 0, j)
    ensures !CharIs(t, AssertedMore(al, true, c), x.subject[0])
    decreases al
  {
    hide MOps, MOp, MatchesOn;
    var d := Agreed(c, al.branch.head, true);
    if Uneven(t, c, Leading(al.branch.head), true) {
      var e := t.flip[c.ch];
      x, j := MatchOf(t, e, al.branch);
      if al.More? { Kept(al.rest, true, d); }
    } else {
      x, j := UnevenMatch(t, al.rest, d);
    }
  }

  lemma MatchOf(t: CharTables, e: Byte, ops: Ops) returns (x: Ctx, j: nat)
    requires ValidOps(ops) && MatchesOn(t, e, ops) && ops.Cons? && Leading(ops.head).Char?
    ensures x.tables == t && x.som == 0 && |x.subject| > 0 && x.subject[0] == e && MOps(x, ops, 0, j) && j > 0
  {
    x, j :| x.tables == t && x.som == 0 && |x.subject| > 0 && x.subject[0] == e && MOps(x, ops, 0, j);
    var k := MOpsElim(x, ops, 0, j);
    SpanOps(x, ops.tail, k, j);
  }

  /** Literals and repeats, behind a first literal, can always match. */
  lemma FilledLively(t: CharTables, al: Alts)
    requires ValidAlts(al) && Filled(t, al)
    ensures Lively(t, al)
    decreases al
  {
    hide MatchesOn, FillOps, MOps;
    forall e: Byte | CharIs(t, Leading(al.branch.head), e)
      ensures MatchesOn(t, e, al.branch)
    {
      FilledMatch(t, al.branch, e);
    }
    if al.More? {
      FilledLively(t, al.rest);
    }
  }

  /** Every branch is a literal and then a sequence that can match wherever there is room. */
  ghost predicate Filled(t: CharTables, al: Alts)
    requires ValidAlts(al)
  {
    && al.branch.Cons? && al.branch.head.One? && al.branch.head.atom.Lit? && ValidOps(al.branch.tail) && FillOps(t, al.branch.tail)
    && (al.More? ==> Filled(t, al.rest))
  }

  lemma FilledMatch(t: CharTables, ops: Ops, e: Byte)
    requires ValidOps(ops) && ops.Cons? && ops.head.One? && ops.head.atom.Lit? && FillOps(t, ops.tail) && CharIs(t, Leading(ops.head), e)
    ensures MatchesOn(t, e, ops)
  {
    hide FillOps, MOps;
    var w := OpsWord(t, ops.tail);
    var x := Ctx(t, [e] + w, false, false, false, false, 0, false, false, 0);
    assert x.subject[1..1 + |w|] == w;
    assert Reads(x, 1, w);
    MOpsCons(x, ops.head, ops.tail, 0, 1, 1 + |w|);
  }

  // ----- an example -----

  function Two(c: Byte, d: Byte, nocase: bool): Ops { Cons(One(Lit(c, nocase)), Cons(One(Lit(d, nocase)), Nil)) }

  /** The code trees of "ab|(?i)ac" and "(?=ab|(?i)ac)". */
  const MIXED: Alts := More(Two(97, 98, false), Last(Two(97, 99, true)))
  const MIXED_LOOK: Alts := Last(Cons(Look(OP_ASSERT, MIXED), Nil))

  /** It matches at the start of "Ac", but the program skips starts without "a". */
  lemma MixedBreaks(t: CharTables)
    requires t.flip[97] == 65
    ensures ValidAlts(MIXED_LOOK) && AssertedAlts(MIXED_LOOK, false) == Char(97, false, false)
    ensures var x := Ctx(t, [65, 99], false, false, false, false, 0, false, false, 0);
            MAlts(x, MIXED_LOOK, 0, 0) && !CharIs(t, AssertedAlts(MIXED_LOOK, false), x.subject[0])
  {
    var x := Ctx(t, [65, 99], false, false, false, false, 0, false, false, 0);
    MixedValid();
    MixedFound();
    assert t.flip[65] == 97 by { assert t.lower[65] == t.lower[97]; }
    assert MOps(x, Nil, 2, 2) && MOps(x, Nil, 0, 0);
    MOpsCons(x, One(Lit(99, true)), Nil, 1, 2, 2);
    MOpsCons(x, One(Lit(97, true)), Cons(One(Lit(99, true)), Nil), 0, 1, 2);
    assert MAlts(x, MIXED.rest, 0, 2) && MAlts(x, MIXED, 0, 2);
    assert x.(som := 0) == x;
    MLookIntro(x, OP_ASSERT, MIXED, 0, 2);
    MOpsCons(x, Look(OP_ASSERT, MIXED), Nil, 0, 0, 0);
  }

  lemma MixedValid()
    ensures ValidAlts(MIXED_LOOK) && ValidAlts(MIXED) && ValidOps(Nil) && ValidOps(Two(97, 99, true)) && ValidOps(Cons(One(Lit(99, true)), Nil))
    ensures ValidOp(Look(OP_ASSERT, MIXED)) && ValidOps(MIXED_LOOK.branch) && ValidAlts(MIXED.rest)
  {
    assert ValidOps(Nil) && ValidOps(Cons(One(Lit(99, true)), Nil)) && ValidOps(Cons(One(Lit(98, false)), Nil));
    assert ValidOps(Two(97, 99, true)) && ValidOps(Two(97, 98, false));
    assert ValidAlts(MIXED.rest) && ValidAlts(MIXED) && ValidOp(Look(OP_ASSERT, MIXED)) && ValidOps(MIXED_LOOK.branch);
  }

  lemma MixedFound()
    ensures AssertedAlts(MIXED_LOOK, false) == Char(97, false, false)
  {
    var a := Char(97, false, false);
    assert Significant(MIXED.branch) == MIXED.branch && Significant(MIXED.rest.branch) == MIXED.rest.branch;
    assert Agreed(Unset, MIXED.branch.head, true) == a && Agreed(a, MIXED.rest.branch.head, true) == a;
    assert AssertedMore(MIXED.rest, true, a) == a;
    assert AssertedAlts(MIXED, true) == a;
    assert Significant(MIXED_LOOK.branch) == MIXED_LOOK.branch;
    assert Agreed(Unset, MIXED_LOOK.branch.head, false) == a;
  }

  // ----- the scan -----

  /** Where the literal of a leading item is found. */
  lemma LeadingUnits(code: seq<Byte>, o: nat, op: Op)
    requires ValidOp(op) && Placed(code, o, EncOp(op)) && At(code, o) == Lead(op)
    ensures var u := Lead(op);
            var cs := u == OP_CHAR || u == OP_STAR + PLUS || u == OP_STAR + PLUS + 1 || u == OP_STAR + POSPLUS;
            var ci := u == OP_CHARI || u == OP_STARI + PLUS || u == OP_STARI + PLUS + 1 || u == OP_STARI + POSPLUS;
            && Leading(op) ==
                 (if cs || ci then Char(At(code, o + 1), ci, false)
                  else if u == OP_STAR + EXACT then Char(At(code, o + 1 + IMM2_SIZE), false, false)
                  else if u == OP_STARI + EXACT then Char(At(code, o + 1 + IMM2_SIZE), true, false) else NoChar)
            && (Opens(op) <==> u == OP_BRA || u == OP_CBRA || u == OP_SCBRA || u == OP_ASSERT)
  {
    LeadLook(op);
    match op
    case One(a) =>
      DecodeOne(code, o, a);
    case Rep(a, form, n, m) =>
      DecodeRepeat(code, o, a, form, n, m);
      if !a.Class? {
        assert (Lead(op) - OP_STAR) % 13 == form && (Lead(op) - OP_STAR) / 13 == Family(a);
      }
    case _ =>
  }

  /** One branch: the switch over the opcode at which it becomes significant. */
  method AssertedBranch(code: seq<Byte>, scode: nat, inassert: bool, c0: Req, ghost ops: Ops, ghost f: nat) returns (c: Req)
    requires Remains(code, scode, ops, f)
    ensures c == if ops.Nil? then NoChar else Agreed(c0, ops.head, inassert)
    decreases ops, 0
  {
    hide EncAlts, EncBranch, EncOp, Heading, ToKet, Remains, EncOps, Lead, OpLengths, Placed, Get, AssertedMore, Leading;
    BranchUnits(code, scode, ops, f);
    if ops.Cons? { LeadingUnits(code, scode, ops.head); }
    var op := At(code, scode);
    if op == OP_BRA || op == OP_CBRA || op == OP_SCBRA || op == OP_ASSERT {
      if op == OP_ASSERT { LookHeading(code, scode, ops.head); } else { GroupHeading(code, scode, ops.head); }
      var d := FindFirstAssertedChar(code, scode, op == OP_ASSERT, ops.head.body, scode + HeaderLen(op));
      if !d.Char? { return NoChar; }
      if !c0.Char? { return d; }
      return if c0 != d then NoChar else c0;
    }
    var p := if op == OP_STAR + EXACT || op == OP_STARI + EXACT then scode + IMM2_SIZE else scode;
    if op == OP_CHAR || op == OP_STAR + PLUS || op == OP_STAR + PLUS + 1 || op == OP_STAR + POSPLUS || op == OP_STAR + EXACT {
      if !inassert { return NoChar; }
      if !c0.Char? { return Char(At(code, p + 1), false, false); }
      return if c0.caseless || c0.ch != At(code, p + 1) then NoChar else c0;
    }
    if op == OP_CHARI || op == OP_STARI + PLUS || op == OP_STARI + PLUS + 1 || op == OP_STARI + POSPLUS || op == OP_STARI + EXACT {
      if !inassert { return NoChar; }
      if !c0.Char? { return Char(At(code, p + 1), true, false); }
      return if c0.caseless || c0.ch != At(code, p + 1) then NoChar else c0;
    }
    return NoChar;
  }

  /** Is there a character with which all branches from `start` on begin inside a lookahead? */
  method FindFirstAssertedChar(code: seq<Byte>, start: nat, inassert: bool, ghost al: Alts, ghost h0: nat) returns (c: Req)
    requires ValidAlts(al) && Heading(code, start, al, false, h0) && h0 == start + OpLengths(At(code, start))
    ensures c == AssertedAlts(al, inassert)
    decreases al
  {
    hide EncAlts, EncBranch, EncOp, Heading, ToKet, Remains, EncOps, Lead, OpLengths, Placed, Get, Significant, Agreed;
    c := Unset;
    var k: nat := start;
    ghost var rest := al;
    ghost var h: nat := h0;
    while true
      invariant (rest == al || rest < al) && ValidAlts(rest) && Heading(code, k, rest, false, h) && h == k + OpLengths(At(code, k))
      invariant AssertedMore(rest, inassert, c) == AssertedAlts(al, inassert)
      decreases rest
    {
      ghost var f := h + |EncBranch(rest.branch, false)|;
      BranchRemains(code, k, rest, h, f);
      var scode;
      ghost var ops;
      scode, ops := FirstSignificant(code, k + OpLengths(At(code, k)), rest.branch, f);
      c := AssertedBranch(code, scode, inassert, c, ops, f);
      if !c.Char? { return; }
      k := k + Get(code, k + 1);
      if At(code, k) != OP_ALT { return; }
      AltLength(code, k);
      rest, h := rest.rest, f + 1 + LINK_SIZE;
    }
  }
}
