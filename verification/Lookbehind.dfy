/** Lookbehinds: exactly when the compiled form means what the pattern says. The code has two units
    for the distance to go back, and the compiler does not check that the length fits. */
module Lookbehind {
  import opened Bytecode
  import opened Tree
  import opened Subject
  import opened Semantics
  import opened Pattern
  import opened Possession
  import opened Expansion
  import opened Preservation

  /** A branch of fixed length that can stand in a lookbehind. */
  ghost predicate Fixed(t: CharTables, b: Branch) {
    && ValidBranch(b) && FixedBehindBranch(t, b) && UnwrappedBranch(t, b)
    && SettledBranch(b) && CertainBranch(t, b) && ShortBranch(t, b)
    && OpsLength(ExpandBranch(t, b)) >= 0
  }

  ghost predicate Behind(x: Ctx, b: Branch, p: nat)
    requires ValidBranch(b) && ValidOps(ExpandBranch(x.tables, b)) && OpsLength(ExpandBranch(x.tables, b)) >= 0
  {
    MLook(x, OP_ASSERTBACK, Last(ExpandBranch(x.tables, b)), p)
  }

  /** The compiled lookbehind is the pattern's on every subject exactly if its length fits into
      16 bits, when no option refuses empty matches. `w` is any subject that the branch matches in full. */
  lemma BehindExactly(t: CharTables, b: Branch, w: Ctx)
    requires Fixed(t, b) && w.tables == t && w.som == |w.subject| && TakesEmpty(w) && MBranch(w, b, 0, |w.subject|)
    ensures ValidOps(ExpandBranch(t, b))
    ensures (forall x: Ctx, p: nat | x.tables == t && TakesEmpty(x) && p <= |x.subject| ::
               Behind(x, b, p) <==> MPLook(x, OP_ASSERTBACK, PLast(b), p))
            <==> OpsLength(ExpandBranch(t, b)) < 0x10000
  {
    ValidBranchTree(t, b);
    if OpsLength(ExpandBranch(t, b)) < 0x10000 {
      forall x: Ctx, p: nat | x.tables == t && TakesEmpty(x) && p <= |x.subject|
        ensures Behind(x, b, p) <==> MPLook(x, OP_ASSERTBACK, PLast(b), p)
      {
        ShortMeans(x, b, p);
      }
    } else {
      LongFails(t, b, w);
      assert Behind(w, b, |w.subject|) != MPLook(w, OP_ASSERTBACK, PLast(b), |w.subject|);
    }
  }

  lemma ShortMeans(x: Ctx, b: Branch, p: nat)
    requires Fixed(x.tables, b) && OpsLength(ExpandBranch(x.tables, b)) < 0x10000 && p <= |x.subject| && TakesEmpty(x)
    ensures ValidOps(ExpandBranch(x.tables, b))
    ensures Behind(x, b, p) <==> MPLook(x, OP_ASSERTBACK, PLast(b), p)
  {
    ValidBranchTree(x.tables, b);
    var y := x.(som := p);
    forall h: nat, k: nat | h <= |x.subject|
      ensures MPAlts(y, PLast(b), h, k) <==> MAlts(y, Last(ExpandBranch(x.tables, b)), h, k)
    {
      PreserveBranch(y, b, h, k);
    }
    LookMeans(x, OP_ASSERTBACK, PLast(b), Last(ExpandBranch(x.tables, b)), p);
  }

  /** Of a longer branch the code goes back too little, so that it could only match past `p`. */
  lemma LongFails(t: CharTables, b: Branch, w: Ctx)
    requires Fixed(t, b) && w.tables == t && w.som == |w.subject| && TakesEmpty(w) && MBranch(w, b, 0, |w.subject|)
    requires OpsLength(ExpandBranch(t, b)) >= 0x10000
    ensures ValidOps(ExpandBranch(t, b))
    ensures MPLook(w, OP_ASSERTBACK, PLast(b), |w.subject|) && !Behind(w, b, |w.subject|)
  {
    ValidBranchTree(t, b);
    var ops, p := ExpandBranch(t, b), |w.subject|;
    assert w.(som := p) == w;
    PreserveBranch(w, b, 0, p);
    LengthOps(w, ops, 0, p);
    MPLookIntro(w, OP_ASSERTBACK, PLast(b), p, 0);
    if Behind(w, b, p) {
      var j := MLookElim(w, OP_ASSERTBACK, Last(ops), p);
      var i := p - p % 0x10000;
      SpanOps(w, ops, i, j);
      LengthOps(w, ops, i, j);
      assert false;
    }
  }

  // ----- an example -----

  const LETTER := Lit(97, false)

  /** "(?<=a{65535}a)": its length is 65536, of which the code keeps 0. */
  const LONG := BCons(PRep(LETTER, Quant(65535, 65535, Greedy, false)), BCons(PAtom(LETTER, false), BNil))

  lemma LongBehindBreaks(x: Ctx)
    requires x.subject == seq(0x10000, _ => 97) && x.som == 0x10000 && TakesEmpty(x)
    ensures ValidBranch(LONG) && ValidOps(ExpandBranch(x.tables, LONG)) && OpsLength(ExpandBranch(x.tables, LONG)) == 0x10000
    ensures MPLook(x, OP_ASSERTBACK, PLast(LONG), 0x10000) && !Behind(x, LONG, 0x10000)
  {
    var tail := BCons(PAtom(LETTER, false), BNil);
    assert UnwrappedBranch(x.tables, BNil) && CertainBranch(x.tables, BNil) && SettledBranch(BNil);
    assert FixedBehindBranch(x.tables, BNil) && ShortBranch(x.tables, BNil) && ValidBranch(BNil);
    assert ValidBranch(tail) && FixedBehindBranch(x.tables, tail) && UnwrappedBranch(x.tables, tail);
    assert SettledBranch(tail) && CertainBranch(x.tables, tail) && ShortBranch(x.tables, tail);
    assert ExpandBranch(x.tables, tail) == Cons(One(LETTER), Nil);
    assert ExpandBranch(x.tables, LONG) == Cons(Rep(LETTER, EXACT, 65535, 0), Cons(One(LETTER), Nil));
    assert OpsLength(Cons(One(LETTER), Nil)) == 1;
    assert MBranch(x, BNil, 0x10000, 0x10000);
    MBranchCons(x, PAtom(LETTER, false), BNil, 65535, 0x10000, 0x10000);
    MBranchCons(x, LONG.head, tail, 0, 65535, 0x10000);
    LongFails(x.tables, LONG, x);
  }
}
