/** The first character of a program, its own or an asserted one, and whether the required character
    must come after it, which is where the matcher looks for it. */
module Required {
  import opened Bytecode
  import opened Tree
  import opened Subject
  import opened Semantics
  import opened Pattern
  import opened Expansion
  import opened Preservation
  import opened Refinement
  import opened Lookahead
  import opened FirstReq
  import opened EmptyScan
  import opened Asserted

  /** What the pattern begins with or, if that is nothing, what is asserted at its start. */
  function FirstOf(t: CharTables, p: PAlts): Req
    requires ValidPAlts(p)
  {
    var s := AltsStart(p, false);
    if s.first.Char? then s.first else AssertedAlts(TreeOf(t, p), false)
  }

  /** The pattern has a first character of its own, or the search for an asserted one is right at every step. */
  predicate Rightly(t: CharTables, p: PAlts)
    requires ValidPAlts(p)
  {
    AltsStart(p, false).first.Char? || EvenAlts(t, TreeOf(t, p), false)
  }

  /** Then every match begins with it. */
  lemma FirstSound(x: Ctx, p: PAlts, s: nat, j: nat)
    requires InScope(x.tables, p) && ValidPAlts(p) && Undisturbed(x, p) && s <= |x.subject| && MPAlts(x, p, s, j)
    requires Rightly(x.tables, p)
    ensures FirstOf(x.tables, p).Char? ==> s < |x.subject| && CharIs(x.tables, FirstOf(x.tables, p), x.subject[s])
  {
    hide MPAlts, MAlts, TreeOf, AltsStart, CharIs, Found, AssertedMore, EvenMore;
    if AltsStart(p, false).first.Char? {
      AltsSound(x, p, false, s, j, Anywhere);
    } else {
      Preserve(x, p, s, j);
      AssertedSound(x, TreeOf(x.tables, p), false, Unset, s, j);
    }
  }

  /** No character satisfies both. */
  ghost predicate Differ(t: CharTables, first: Req, req: Req) {
    forall c: Byte :: !(CharIs(t, first, c) && CharIs(t, req, c))
  }

  /** What one can see of a pattern whose required character comes after its first one. */
  ghost predicate Follows(t: CharTables, p: PAlts)
    requires ValidPAlts(p)
  {
    var s := AltsStart(p, false);
    if s.first.Char? then Fine(t, p, false, After) else Differ(t, FirstOf(t, p), s.req) || Late(t, s.req, p)
  }

  /** And so it does, in every match. */
  lemma FollowsFound(x: Ctx, p: PAlts, s: nat, j: nat)
    requires InScope(x.tables, p) && Rightly(x.tables, p) && ValidPAlts(p) && Undisturbed(x, p) && s <= |x.subject| && MPAlts(x, p, s, j)
    requires FirstOf(x.tables, p).Char? && AltsStart(p, false).req.Char? && Follows(x.tables, p)
    ensures Found(x, AltsStart(p, false).req, s + 1, |x.subject|)
  {
    hide MPAlts, FirstOf, AltsStart, FineBranch, AltsWays, InScope, Undisturbed, Rightly;
    var st, first := AltsStart(p, false), FirstOf(x.tables, p);
    if st.first.Char? {
      AltsSound(x, p, false, s, j, After);
    } else if Differ(x.tables, first, st.req) {
      FirstSound(x, p, s, j);
      AltsSound(x, p, false, s, j, Anywhere);
      var m :| s <= m < |x.subject| && CharIs(x.tables, st.req, x.subject[m]);
      assert !(CharIs(x.tables, first, x.subject[s]) && CharIs(x.tables, st.req, x.subject[s]));
      FoundAt(x, st.req, s + 1, |x.subject|, m);
    } else if Lacking(x, st.req, s) {
      SpanPAlts(x, p, s, j);
      AltsAllows(x, st.req, s, p, s, j);
      assert false;
    }
  }

  // ----- a lookahead at one character, and then characters, repeats and groups -----

  function Ahead(c: Byte, nocase: bool): Item { PLook(OP_ASSERT, PLast(BCons(PAtom(Lit(c, nocase), false), BNil))) }

  lemma AheadHolds(x: Ctx, c: Byte, nocase: bool, i: nat)
    ensures ValidItem(Ahead(c, nocase)) && ValidBranch(Ahead(c, nocase).body.branch)
    ensures MItem(x, Ahead(c, nocase), i, i) <==> i < |x.subject| && CharIs(x.tables, Char(c, nocase, false), x.subject[i])
  {
    var item, body, y := PAtom(Lit(c, nocase), false), Ahead(c, nocase).body, x.(som := i);
    assert ValidBranch(BNil) && ValidBranch(BCons(item, BNil)) && ValidPAlts(body);
    if MPLook(x, OP_ASSERT, body, i) {
      var j := MPLookElim(x, OP_ASSERT, body, i);
      var k := MBranchElim(y, body.branch, i, j);
    }
    if i < |x.subject| && CharIs(x.tables, Char(c, nocase, false), x.subject[i]) {
      assert MBranch(y, BNil, i + 1, i + 1);
      MBranchCons(y, item, BNil, i, i + 1, i + 1);
      MPLookIntro(x, OP_ASSERT, body, i, i + 1);
    }
  }

  lemma AheadStart(c: Byte, nocase: bool, rest: Branch)
    ensures AltsStart(PLast(BCons(Ahead(c, nocase), rest)), false) == AltsStart(PLast(rest), false)
  {
    var look, lit, none := Ahead(c, nocase), PAtom(Lit(c, nocase), false), Start(Unset, Unset);
    assert BranchStart(BNil, ItemStart(lit, none, false), false) == ItemStart(lit, none, false);
    assert AltsStart(look.body, false) == Start(Char(c, nocase, false), Unset);
    assert ItemStart(look, none, false) == none;
    assert !VariesBranch(BNil) && !VariesBranch(look.body.branch) && !VariesAlts(look.body);
  }

  /** Every match has the required character after its first one. */
  ghost predicate AlwaysAfter(t: CharTables, p: PAlts, r: Req)
    requires ValidPAlts(p)
  {
    forall x: Ctx, i: nat, j: nat | x.tables == t && i <= |x.subject| && MPAlts(x, p, i, j) :: Found(x, r, i + 1, |x.subject|)
  }

  /** Two characters that are the same to a caseless comparison satisfy the same. */
  lemma SameCase(t: CharTables, c: Byte, d: Byte, nocase: bool)
    ensures Differ(t, Char(c, nocase, false), Char(d, nocase, false))
         || forall e: Byte :: CharIs(t, Char(c, nocase, false), e) <==> CharIs(t, Char(d, nocase, false), e)
  {
    forall e: Byte
      ensures CharIs(t, Char(c, nocase, false), e) <==> if nocase then t.lower[e] == t.lower[c] else e == c
      ensures CharIs(t, Char(d, nocase, false), e) <==> if nocase then t.lower[e] == t.lower[d] else e == d
    {
    }
  }

  /** With a lookahead at one character in front, to look for the required character only after the
      first one is right exactly if the two differ, or what follows needs it later. */
  lemma FollowsExactly(t: CharTables, c: Byte, nocase: bool, rest: Branch)
    requires ValidBranch(rest) && PlainBranch(rest)
    requires var r := AltsStart(PLast(rest), false).req; r.Char? && r.caseless == nocase
    ensures ValidPAlts(PLast(BCons(Ahead(c, nocase), rest)))
    ensures var p, r := PLast(BCons(Ahead(c, nocase), rest)), AltsStart(PLast(rest), false).req;
            AltsStart(p, false).req == r && (AlwaysAfter(t, p, r) <==> Differ(t, Char(c, nocase, false), r) || Late(t, r, PLast(rest)))
  {
    hide AltsStart, AltsWays, Differ, MBranch, BranchStart;
    var p, after, r := PLast(BCons(Ahead(c, nocase), rest)), PLast(rest), AltsStart(PLast(rest), false).req;
    AheadStart(c, nocase, rest);
    AheadHolds(Ctx(t, [], false, false, false, false, 0, false, false, 0), c, nocase, 0);
    if Differ(t, Char(c, nocase, false), r) || Late(t, r, after) {
      forall x: Ctx, i: nat, j: nat | x.tables == t && i <= |x.subject| && MPAlts(x, p, i, j)
        ensures Found(x, r, i + 1, |x.subject|)
      {
        AheadFollows(x, c, nocase, rest, i, j);
      }
    } else {
      var way := if AltsWays(t, r, after).stay then Stay else Leave;
      var w := AltsWord(t, r, after, way);
      var x := Ctx(t, w, false, false, false, false, 0, false, false, 0);
      assert x.subject[0..0 + |w|] == w && Reads(x, 0, w);
      assert MPAlts(x, after, 0, 0 + |w|);
      WordLacks(x, r, way, w, []);
      AltsSound(x, after, false, 0, |w|, Anywhere);
      WordBegins(x, c, nocase, r);
      AheadHolds(x, c, nocase, 0);
      MBranchCons(x, Ahead(c, nocase), rest, 0, 0, |w|);
      assert MPAlts(x, p, 0, |w|) && !Found(x, r, 0 + 1, |x.subject|);
    }
  }

  lemma WordBegins(x: Ctx, c: Byte, nocase: bool, r: Req)
    requires Found(x, r, 0, |x.subject|) && Lacking(x, r, 0) && r.Char? && r.caseless == nocase
    requires !Differ(x.tables, Char(c, nocase, false), r)
    ensures |x.subject| > 0 && CharIs(x.tables, Char(c, nocase, false), x.subject[0])
  {
    var m :| 0 <= m < |x.subject| && CharIs(x.tables, r, x.subject[m]);
    assert m == 0;
    SameCase(x.tables, c, r.ch, nocase);
    assert forall e: Byte :: CharIs(x.tables, r, e) <==> CharIs(x.tables, Char(r.ch, nocase, false), e);
  }

  lemma AheadFollows(x: Ctx, c: Byte, nocase: bool, rest: Branch, i: nat, j: nat)
    requires ValidBranch(rest) && PlainBranch(rest) && ValidItem(Ahead(c, nocase)) && i <= |x.subject|
    requires MPAlts(x, PLast(BCons(Ahead(c, nocase), rest)), i, j)
    requires var r := AltsStart(PLast(rest), false).req;
             r.Char? && (Differ(x.tables, Char(c, nocase, false), r) || Late(x.tables, r, PLast(rest)))
    ensures Found(x, AltsStart(PLast(rest), false).req, i + 1, |x.subject|)
  {
    hide AltsStart, AltsWays, MPLook, Lacking;
    var after, r := PLast(rest), AltsStart(PLast(rest), false).req;
    var k := MBranchElim(x, BCons(Ahead(c, nocase), rest), i, j);
    assert k == i && MPAlts(x, after, i, j);
    if Differ(x.tables, Char(c, nocase, false), r) {
      AheadHolds(x, c, nocase, i);
      AltsSound(x, after, false, i, j, Anywhere);
      var m :| i <= m < |x.subject| && CharIs(x.tables, r, x.subject[m]);
      FoundAt(x, r, i + 1, |x.subject|, m);
    } else {
      LateAfter(x, r, after, i, j);
    }
  }

  lemma LateAfter(x: Ctx, r: Req, al: PAlts, i: nat, j: nat)
    requires ValidPAlts(al) && Late(x.tables, r, al) && MPAlts(x, al, i, j)
    ensures Found(x, r, i + 1, |x.subject|)
  {
    if Lacking(x, r, i) {
      SpanPAlts(x, al, i, j);
      AltsAllows(x, r, i, al, i, j);
      assert false;
    }
  }

  // ----- where the search goes wrong -----

  const LETTER_A := PAtom(Lit(97, false), false)
  const JUST_A: Branch := BCons(LETTER_A, BNil)
  const B_A: Branch := BCons(PAtom(Lit(98, false), false), JUST_A)
  const A_OR_BA: PAlts := PMore(JUST_A, PLast(B_A))

  /** "(?=a)(?:a|ba)" */
  const ASSERTED_A: PAlts := PLast(BCons(Ahead(97, false), BCons(PGroup(0, A_OR_BA), BNil)))

  /** Its asserted first character and its required one are both "a"; it matches "a", in which no "a"
      comes after the first character. */
  lemma RequiredBreaks(t: CharTables)
    ensures var x, p := Ctx(t, [97], false, false, false, false, 0, false, false, 0), ASSERTED_A;
            && ValidPAlts(p) && MPAlts(x, p, 0, 1)
            && FirstOf(t, p) == Char(97, false, false)
            && AltsStart(p, false).req.Char? && !Found(x, AltsStart(p, false).req, 0 + 1, |x.subject|)
  {
    var x := Ctx(t, [97], false, false, false, false, 0, false, false, 0);
    ExampleStart();
    ExampleTree(t);
    ExampleMatches(x);
  }

  lemma ExampleStart()
    ensures AltsStart(ASSERTED_A, false).first == NoChar && AltsStart(ASSERTED_A, false).req == Char(97, false, false)
  {
    var none, rest := Start(Unset, Unset), BCons(PGroup(0, A_OR_BA), BNil);
    AheadStart(97, false, rest);
    var a, b := Char(97, false, false), Char(98, false, false);
    assert BranchStart(JUST_A, none, false) == Start(a, Unset) by { assert BranchStart(BNil, Start(a, Unset), false) == Start(a, Unset); }
    assert BranchStart(B_A, none, false) == Start(b, a) by {
      assert BranchStart(BNil, Start(b, a), false) == Start(b, a);
      assert BranchStart(JUST_A, Start(b, Unset), false) == Start(b, a);
    }
    assert !VariesBranch(BNil) && !VariesBranch(JUST_A) && !VariesBranch(B_A);
    assert MoreStart(PLast(B_A), Start(a, Unset), false) == Start(NoChar, a);
    assert AltsStart(A_OR_BA, false) == Start(NoChar, a);
    assert BranchStart(BNil, Start(NoChar, a), VariesAlts(A_OR_BA)) == Start(NoChar, a);
  }

  lemma ExampleTree(t: CharTables)
    ensures ValidPAlts(ASSERTED_A) && AssertedAlts(TreeOf(t, ASSERTED_A), false) == Char(97, false, false)
  {
    ExampleValid();
    var inner, tree := TreeOf(t, Ahead(97, false).body), TreeOf(t, ASSERTED_A);
    assert ExpandBranch(t, BNil) == Nil;
    assert inner.branch == Append(Cons(One(Lit(97, false)), Nil), Nil) == Cons(One(Lit(97, false)), Nil);
    assert tree.branch.head == Look(OP_ASSERT, inner);
    ExampleAsserted(inner, tree);
  }

  lemma ExampleAsserted(inner: Alts, tree: Alts)
    requires inner == Last(Cons(One(Lit(97, false)), Nil)) && tree.Last? && tree.branch.Cons? && tree.branch.head == Look(OP_ASSERT, inner)
    ensures AssertedAlts(tree, false) == Char(97, false, false)
  {
    assert Significant(inner.branch) == inner.branch;
    assert Agreed(Unset, inner.branch.head, true) == Char(97, false, false);
    assert AssertedAlts(inner, true) == Char(97, false, false);
    assert Significant(tree.branch) == tree.branch;
    assert Agreed(Unset, tree.branch.head, false) == Char(97, false, false);
  }

  lemma ExampleValid()
    ensures ValidPAlts(ASSERTED_A) && ValidPAlts(A_OR_BA) && ValidBranch(JUST_A) && ValidBranch(B_A) && ValidBranch(BNil)
    ensures ValidPAlts(Ahead(97, false).body) && ValidItem(Ahead(97, false)) && ValidBranch(ASSERTED_A.branch.tail)
  {
    assert ValidBranch(BNil) && ValidBranch(JUST_A) && ValidBranch(B_A) && ValidPAlts(PLast(B_A)) && ValidPAlts(A_OR_BA);
    assert ValidBranch(Ahead(97, false).body.branch) && ValidItem(Ahead(97, false)) && ValidItem(PGroup(0, A_OR_BA));
    assert ValidBranch(ASSERTED_A.branch.tail) && ValidBranch(ASSERTED_A.branch);
  }

  lemma ExampleMatches(x: Ctx)
    requires x.subject == [97]
    ensures ValidPAlts(ASSERTED_A) && MPAlts(x, ASSERTED_A, 0, 1)
  {
    ExampleValid();
    assert MBranch(x, BNil, 1, 1);
    MBranchCons(x, LETTER_A, BNil, 0, 1, 1);
    assert MPAlts(x, A_OR_BA, 0, 1);
    MBranchCons(x, PGroup(0, A_OR_BA), BNil, 0, 1, 1);
    AheadHolds(x, 97, false, 0);
    MBranchCons(x, Ahead(97, false), ASSERTED_A.branch.tail, 0, 0, 1);
  }
}
