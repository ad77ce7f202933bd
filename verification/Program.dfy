/** A compiled pattern as the matcher gets it: the code, and what the start optimisations use. */
module Program {
  import opened Bytecode
  import opened Tree
  import opened Subject
  import opened Layout
  import opened EmptyScan
  import opened Pattern
  import opened Expansion
  import opened Lookahead
  import opened FirstReq
  import opened Anchoring
  import opened Asserted
  import opened Required
  import opened Refinement
  import opened Compiler

  /** `first` and `req` are characters when the flags say that they are set. */
  datatype Regex = Regex(code: seq<Byte>, anchored: bool, startline: bool, first: Req, req: Req)

  datatype Built = Program(regex: Regex) | Refused(error: nat)

  /** The program belongs to the pattern, and each optimisation that it offers is what the
      compiler's analysis found. */
  ghost predicate BuiltFrom(re: Regex, t: CharTables, p: PAlts) {
    && InScope(t, p) && re.code == CodeOf(t, p) && |re.code| <= MAX_PATTERN_SIZE
    && (re.anchored ==> AnchoredAlts(TreeOf(t, p)))
    && (re.startline ==> StartlineAlts(TreeOf(t, p)))
    && (re.first.Char? ==> re.first == FirstOf(t, p))
    && (re.req.Char? ==> re.req == AltsStart(p, false).req)
  }

  /** Compile, and decide which start optimisations the program offers. */
  method Build(t: CharTables, p: PAlts) returns (r: Built)
    requires Given(t, p, 0)
    ensures r.Refused? <==> 1 + 2 + 2 * LINK_SIZE + Estimate.AltsCost(p, false) > MAX_PATTERN_SIZE || !FixedBehind(t, p)
    ensures r.Program? && InScope(t, p) ==> BuiltFrom(r.regex, t, p)
    ensures r.Program? ==>
      var s := AltsStart(p, false); var al := TreeOf(t, p);
      && r.regex.anchored == AnchoredAlts(al)
      && r.regex.first == (if !r.regex.anchored && FirstOf(t, p).Char? then FirstOf(t, p) else Unset)
      && r.regex.startline == (!r.regex.anchored && !FirstOf(t, p).Char? && StartlineAlts(al))
      && r.regex.req == if s.req.Char? && (!r.regex.anchored || s.req.vary) then s.req else Unset
  {
    hide EncPattern, TreeOf, AltsStart, Heading, Bracketed, AnchoredAlts, StartlineAlts, InScope, AssertedAlts;
    var c := Compile(t, p);
    if c.Error? { return Refused(c.number); }
    var code := c.code;
    ghost var al := TreeOf(t, p);
    var cd := new VaryState();
    var firstchar, reqchar := Collect(cd, p);
    assert Start(firstchar, reqchar) == AltsStart(p, false);
    ghost var k := CodeLaidOut(al);
    BracketHeading(code, al, k);
    var anchored := IsAnchored(code, 0, al, 1 + LINK_SIZE);
    var startline, first, req := false, Unset, Unset;
    if !anchored {
      if !firstchar.Char? {
        firstchar := FindFirstAssertedChar(code, 0, false, al, 1 + LINK_SIZE);
      }
      if firstchar.Char? {
        first := firstchar;
      } else {
        startline := IsStartline(code, 0, al, 1 + LINK_SIZE);
      }
    }
    if reqchar.Char? && (!anchored || reqchar.vary) {
      req := reqchar;
    }
    r := Program(Regex(code, anchored, startline, first, req));
  }

  // ----- a pattern without lookaheads has a tree without them -----

  predicate NotAheadOps(ops: Ops) { ops.Cons? ==> NotAheadOp(ops.head) }

  lemma {:induction false} NotAheadItem(t: CharTables, item: Item, rest: Branch)
    requires ValidItem(item) && NoLookaheadItem(item)
    ensures NotAheadOps(ExpandItem(t, item, rest))
    decreases item, 0
  {
    match item
    case PGroup(_, body) => NotAheadTree(t, body);
    case PGroupRep(_, body, q) => NotAheadTree(t, body);
    case _ =>
  }

  lemma {:induction false} NotAheadBranch(t: CharTables, b: Branch)
    requires ValidBranch(b) && NoLookaheadBranch(b)
    ensures NotAheadOps(ExpandBranch(t, b))
    decreases b, 0
  {
    if b.BCons? {
      NotAheadItem(t, b.head, b.tail);
      NotAheadBranch(t, b.tail);
    }
  }

  lemma {:induction false} NotAheadTree(t: CharTables, al: PAlts)
    requires ValidPAlts(al) && NoLookahead(al)
    ensures NotAhead(TreeOf(t, al))
    decreases al, 1
  {
    NotAheadBranch(t, al.branch);
    if al.PMore? {
      NotAheadTree(t, al.rest);
    }
  }

  // ----- where a lookahead misleads the check of line starts -----

  const LETTER_C := PAtom(Lit(99, false), false)
  const ANYTHING := PRep(Kind(OP_ANY), Quant(0, -1, Greedy, true))
  const ANY_THEN_C: PAlts := PLast(BCons(ANYTHING, BCons(LETTER_C, BNil)))
  const NOT_X: Branch := BCons(PAtom(NotLit(120, false), false), BCons(LETTER_C, BNil))

  /** "(?=.*c)[^x]c" */
  const AHEAD_C: PAlts := PLast(BCons(PLook(OP_ASSERT, ANY_THEN_C), NOT_X))

  /** It has no first character, not even an asserted one, and is taken to match at line starts only, but in "xac" it matches
      at the second character, where no line starts, and not at the first. */
  lemma StartlineAheadBreaks(t: CharTables)
    ensures ValidPAlts(AHEAD_C) && !FirstOf(t, AHEAD_C).Char?
    ensures !AnchoredAlts(TreeOf(t, AHEAD_C)) && StartlineAlts(TreeOf(t, AHEAD_C))
    ensures var x := Ctx(t, [120, 97, 99], false, false, false, false, 0, false, false, 0);
            MPAlts(x, AHEAD_C, 1, 3) && forall j: nat :: !MPAlts(x, AHEAD_C, 0, j)
  {
    hide MPAlts;
    AheadValid();
    AheadTree(t);
    AheadStart();
    AheadMatches(Ctx(t, [120, 97, 99], false, false, false, false, 0, false, false, 0));
  }

  lemma AheadValid()
    ensures ValidPAlts(AHEAD_C) && ValidPAlts(ANY_THEN_C) && ValidItem(PLook(OP_ASSERT, ANY_THEN_C)) && ValidBranch(AHEAD_C.branch)
    ensures ValidBranch(NOT_X) && ValidBranch(BCons(LETTER_C, BNil)) && ValidBranch(ANY_THEN_C.branch) && ValidBranch(BNil)
  {
    assert ValidBranch(BNil) && ValidBranch(BCons(LETTER_C, BNil)) && ValidBranch(NOT_X) && ValidBranch(ANY_THEN_C.branch);
    assert ValidPAlts(ANY_THEN_C) && ValidItem(PLook(OP_ASSERT, ANY_THEN_C)) && ValidBranch(AHEAD_C.branch);
  }

  lemma AheadMatches(x: Ctx)
    requires x.subject == [120, 97, 99]
    ensures ValidPAlts(AHEAD_C) && MPAlts(x, AHEAD_C, 1, 3) && forall j: nat :: !MPAlts(x, AHEAD_C, 0, j)
  {
    AheadValid();
    var look, y := PLook(OP_ASSERT, ANY_THEN_C), x.(som := 1);
    LastC(x, 2);
    LastC(y, 2);
    MBranchCons(x, NOT_X.head, BCons(LETTER_C, BNil), 1, 2, 3);
    AnyC(y);
    MPLookIntro(x, OP_ASSERT, ANY_THEN_C, 1, 3);
    MBranchCons(x, look, NOT_X, 1, 1, 3);
    forall j: nat
      ensures !MPAlts(x, AHEAD_C, 0, j)
    {
      if MPAlts(x, AHEAD_C, 0, j) {
        StartsOther(x, j);
      }
    }
  }

  lemma StartsOther(x: Ctx, j: nat)
    requires ValidPAlts(AHEAD_C) && MPAlts(x, AHEAD_C, 0, j)
    ensures |x.subject| > 0 && x.subject[0] != 120
  {
    AheadValid();
    var k := MBranchElim(x, AHEAD_C.branch, 0, j);
    var m := MBranchElim(x, NOT_X, k, j);
  }

  lemma LastC(x: Ctx, i: nat)
    requires i < |x.subject| && x.subject[i] == 99
    ensures ValidBranch(BCons(LETTER_C, BNil)) && MBranch(x, BCons(LETTER_C, BNil), i, i + 1)
  {
    assert ValidBranch(BNil) && MBranch(x, BNil, i + 1, i + 1);
    MBranchCons(x, LETTER_C, BNil, i, i + 1, i + 1);
  }

  lemma AnyC(y: Ctx)
    requires y.subject == [120, 97, 99]
    ensures ValidPAlts(ANY_THEN_C) && MPAlts(y, ANY_THEN_C, 1, 3)
  {
    AheadValid();
    LastC(y, 2);
    assert MItem(y, ANYTHING, 1, 2);
    MBranchCons(y, ANYTHING, BCons(LETTER_C, BNil), 1, 2, 3);
  }

  lemma AheadStart()
    ensures AltsStart(AHEAD_C, false).first == NoChar
  {
    var look := PLook(OP_ASSERT, ANY_THEN_C);
    var none := Start(Unset, Unset);
    var s := ItemStart(look, none, false);
    assert s.first.Unset?;
    var s1 := ItemStart(NOT_X.head, s, Varies(look));
    assert s1.first == NoChar;
    assert ItemStart(LETTER_C, s1, Varies(look)).first == NoChar;
    assert FirstReq.BranchStart(NOT_X, s, Varies(look)).first == NoChar by {
      assert FirstReq.BranchStart(BNil, ItemStart(LETTER_C, s1, Varies(look)), Varies(look) || Varies(LETTER_C)).first == NoChar;
    }
  }

  lemma AheadTree(t: CharTables)
    requires ValidPAlts(AHEAD_C) && ValidPAlts(ANY_THEN_C)
    ensures !AnchoredAlts(TreeOf(t, AHEAD_C)) && StartlineAlts(TreeOf(t, AHEAD_C))
    ensures !AssertedAlts(TreeOf(t, AHEAD_C), false).Char?
  {
    var inner := TreeOf(t, ANY_THEN_C);
    assert inner.branch == Append(ExpandItem(t, ANYTHING, BCons(LETTER_C, BNil)), ExpandBranch(t, BCons(LETTER_C, BNil)));
    assert inner.branch.Cons? && StartlineOp(inner.branch.head) && !AnchoredOp(inner.branch.head);
    assert TreeOf(t, AHEAD_C).branch.head == Look(OP_ASSERT, inner);
    assert !AssertedAlts(inner, true).Char?;
  }
}
