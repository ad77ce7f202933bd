/** The dollar-end-only option and multiline matching: the documentation says that the option is then ignored,
    but the code heeds it. When that matters to a pattern. */
module Dollar {
  import opened Bytecode
  import opened Tree
  import opened Subject
  import opened Pattern

  /** The pattern does not test with `o`, in assertions or outside. */
  predicate Without(o: Byte, al: PAlts) { WithoutBranch(o, al.branch) && (al.PMore? ==> Without(o, al.rest)) }

  predicate WithoutBranch(o: Byte, b: Branch) { b.BCons? ==> WithoutItem(o, b.head) && WithoutBranch(o, b.tail) }

  predicate WithoutItem(o: Byte, item: Item) {
    match item
    case PTest(op) => op != o
    case PGroup(_, body) => Without(o, body)
    case PGroupRep(_, body, _) => Without(o, body)
    case PLook(_, body) => Without(o, body)
    case _ => true
  }

  function Set(x: Ctx): Ctx { x.(dollarEndOnly := true) }

  function Unset(x: Ctx): Ctx { x.(dollarEndOnly := false) }

  predicate OneLine(x: Ctx) { forall m | 0 <= m < |x.subject| :: x.subject[m] != NEWLINE }

  predicate IndifferentTest(x: Ctx, o: Byte) { o != OP_DOLL && (o == OP_DOLLM ==> x.notEol || OneLine(x)) }

  lemma TestAlike(x: Ctx, o: Byte, p: nat)
    requires IndifferentTest(x, o)
    ensures TestHolds(Set(x), o, p) == TestHolds(Unset(x), o, p)
  {
  }

  predicate Apt(x: Ctx, al: PAlts) { Without(OP_DOLL, al) && (x.notEol || OneLine(x) || Without(OP_DOLLM, al)) }

  predicate AptBranch(x: Ctx, b: Branch) {
    WithoutBranch(OP_DOLL, b) && (x.notEol || OneLine(x) || WithoutBranch(OP_DOLLM, b))
  }

  predicate AptItem(x: Ctx, item: Item) {
    WithoutItem(OP_DOLL, item) && (x.notEol || OneLine(x) || WithoutItem(OP_DOLLM, item))
  }

  lemma {:induction false} ItemAlike(x: Ctx, item: Item, i: nat, j: nat)
    requires ValidItem(item) && AptItem(x, item)
    ensures MItem(Set(x), item, i, j) <==> MItem(Unset(x), item, i, j)
    decreases item, 0
  {
    match item
    case PTest(o) => TestAlike(x, o, i);
    case PGroup(_, body) => AltsAlike(x, body, i, j);
    case PGroupRep(_, body, q) =>
      forall n: nat
        ensures Times(Set(x), body, n, i, j) <==> Times(Unset(x), body, n, i, j)
      {
        TimesAlike(x, body, n, i, j);
      }
    case PLook(o, body) =>
      forall h: nat, k: nat
        ensures MPAlts(Set(x.(som := i)), body, h, k) <==> MPAlts(Unset(x.(som := i)), body, h, k)
      {
        AltsAlike(x.(som := i), body, h, k);
      }
      LookAlike(x, o, body, i);
    case _ =>
  }

  lemma LookAlike(x: Ctx, o: Byte, body: PAlts, p: nat)
    requires ValidPAlts(body)
    requires forall h: nat, k: nat :: MPAlts(Set(x.(som := p)), body, h, k) <==> MPAlts(Unset(x.(som := p)), body, h, k)
    ensures MPLook(Set(x), o, body, p) <==> MPLook(Unset(x), o, body, p)
  {
    hide MPAlts, MPLook;
    assert Set(x).(som := p) == Set(x.(som := p)) && Unset(x).(som := p) == Unset(x.(som := p));
    if MPLook(Set(x), o, body, p) {
      var q := MPLookElim(Set(x), o, body, p);
      MPLookIntro(Unset(x), o, body, p, q);
    }
    if MPLook(Unset(x), o, body, p) {
      var q := MPLookElim(Unset(x), o, body, p);
      MPLookIntro(Set(x), o, body, p, q);
    }
  }

  lemma {:induction false} BranchAlike(x: Ctx, b: Branch, i: nat, j: nat)
    requires ValidBranch(b) && AptBranch(x, b)
    ensures MBranch(Set(x), b, i, j) <==> MBranch(Unset(x), b, i, j)
    decreases b, 0
  {
    if b.BCons? {
      forall k: nat
        ensures MItem(Set(x), b.head, i, k) && MBranch(Set(x), b.tail, k, j) <==> MItem(Unset(x), b.head, i, k) && MBranch(Unset(x), b.tail, k, j)
      {
        ItemAlike(x, b.head, i, k);
        BranchAlike(x, b.tail, k, j);
      }
    }
  }

  lemma {:induction false} TimesAlike(x: Ctx, al: PAlts, n: nat, i: nat, j: nat)
    requires ValidPAlts(al) && Apt(x, al)
    ensures Times(Set(x), al, n, i, j) <==> Times(Unset(x), al, n, i, j)
    decreases al, n + 1
  {
    if n > 0 {
      forall k: nat
        ensures MPAlts(Set(x), al, i, k) && Times(Set(x), al, n - 1, k, j) <==> MPAlts(Unset(x), al, i, k) && Times(Unset(x), al, n - 1, k, j)
      {
        AltsAlike(x, al, i, k);
        TimesAlike(x, al, n - 1, k, j);
      }
    }
  }

  /** The option changes no match of a pattern that tests for ends of lines with a multiline $ at most, where
      that cannot matter. */
  lemma {:induction false} AltsAlike(x: Ctx, al: PAlts, i: nat, j: nat)
    requires ValidPAlts(al) && Apt(x, al)
    ensures MPAlts(Set(x), al, i, j) <==> MPAlts(Unset(x), al, i, j)
    decreases al, 0
  {
    BranchAlike(x, al.branch, i, j);
    if al.PMore? {
      AltsAlike(x, al.rest, i, j);
    }
  }

  /** In the subject of `x` the option is ignored by all patterns whose dollars are all multiline. */
  ghost predicate Ignored(x: Ctx) {
    forall al: PAlts, i: nat, j: nat | ValidPAlts(al) && Without(OP_DOLL, al) ::
      MPAlts(Set(x), al, i, j) <==> MPAlts(Unset(x), al, i, j)
  }

  const DOLLAR: PAlts := PLast(BCons(PTest(OP_DOLLM), BNil))

  /** As the documentation has it, it is ignored exactly if the end of the subject is declared not to end a
      line, or the subject has no newline. */
  lemma DollarExactly(x: Ctx)
    ensures Ignored(x) <==> x.notEol || OneLine(x)
  {
    if x.notEol || OneLine(x) {
      forall al: PAlts, i: nat, j: nat | ValidPAlts(al) && Without(OP_DOLL, al)
        ensures MPAlts(Set(x), al, i, j) <==> MPAlts(Unset(x), al, i, j)
      {
        AltsAlike(x, al, i, j);
      }
    } else {
      var m :| 0 <= m < |x.subject| && x.subject[m] == NEWLINE;
      DollarAt(Set(x), m);
      DollarAt(Unset(x), m);
      assert ValidPAlts(DOLLAR) && Without(OP_DOLL, DOLLAR);
    }
  }

  lemma DollarAt(x: Ctx, m: nat)
    ensures ValidPAlts(DOLLAR) && Without(OP_DOLL, DOLLAR) && (MPAlts(x, DOLLAR, m, m) <==> TestHolds(x, OP_DOLLM, m))
  {
    assert ValidBranch(BNil) && WithoutBranch(OP_DOLL, BNil);
    assert ValidBranch(DOLLAR.branch) && WithoutBranch(OP_DOLL, DOLLAR.branch);
    assert MBranch(x, BNil, m, m);
    if TestHolds(x, OP_DOLLM, m) {
      MBranchCons(x, PTest(OP_DOLLM), BNil, m, m, m);
    }
  }

  /** "a$" with multiline matching. */
  const A_DOLLAR: PAlts := PLast(BCons(PAtom(Lit(97, false), false), DOLLAR.branch))

  /** It matches the first line of "a\nb", but with the option it does not. */
  lemma DollarBreaks(t: CharTables)
    ensures var x := Ctx(t, [97, NEWLINE, 98], false, false, false, false, 0, false, false, 0);
            ValidPAlts(A_DOLLAR) && MPAlts(x, A_DOLLAR, 0, 1) && !MPAlts(Set(x), A_DOLLAR, 0, 1)
  {
    var x := Ctx(t, [97, NEWLINE, 98], false, false, false, false, 0, false, false, 0);
    var a := PAtom(Lit(97, false), false);
    DollarAt(x, 1);
    assert ValidBranch(DOLLAR.branch) && ValidBranch(A_DOLLAR.branch);
    MBranchCons(x, a, DOLLAR.branch, 0, 1, 1);
    if MPAlts(Set(x), A_DOLLAR, 0, 1) {
      DollarTried(Set(x));
    }
  }

  lemma DollarTried(x: Ctx)
    requires ValidPAlts(A_DOLLAR) && MPAlts(x, A_DOLLAR, 0, 1)
    ensures TestHolds(x, OP_DOLLM, 1)
  {
    var k := MBranchElim(x, A_DOLLAR.branch, 0, 1);
    var m := MBranchElim(x, DOLLAR.branch, k, 1);
  }
}
