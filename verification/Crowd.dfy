/** The run of an assertion has a workspace of 1000 ints, which is too small for the first list of
    states exactly if more than 166 of its branches can start. */
module Crowd {
  import opened Bytecode
  import opened Tree
  import opened Subject
  import opened Semantics
  import opened Graph
  import opened Layout
  import opened Correctness
  import opened Room
  import opened Load
  import opened Closure
  import opened Scan
  import opened Matcher
  import opened DfaRun
  import opened Refinement
  import opened EmptyScan

  /** How many branches of an assertion can start at `p`: all of a lookahead's, and of a lookbehind's
      those that fit in front of `p`. */
  function Fitting(al: Alts, back: bool, p: nat): (r: nat)
    ensures !back ==> r == Branches(al)
  {
    (if !back || OpsLength(al.branch) % 0x10000 <= p then 1 else 0) + if al.More? then Fitting(al.rest, back, p) else 0
  }

  lemma {:induction false} BackFitting(code: seq<Byte>, o: nat, al: Alts, h: nat, p: nat)
    requires ValidAlts(al) && FixedAlts(al) && h == o + 1 + LINK_SIZE && Heading(code, o, al, true, h)
    ensures |BackStarts(code, o, p)| == Fitting(al, true, p)
    decreases al
  {
    hide Decode, Entries, ToKet, EncAlts, EncBranch, BackStarts, OpsLength;
    var rest := BackStartsCase(code, o, al, h, p);
    if al.More? {
      NextHeading(code, o, al, true, h);
      var f := h + |EncBranch(al.branch, true)|;
      BackFitting(code, f, al.rest, f + 1 + LINK_SIZE, p);
    }
  }

  /** The first list of an assertion's run overflows exactly if too many branches can start. */
  lemma CrowdExactly(code: seq<Byte>, op: Op, a: nat, p: nat)
    requires ValidOp(op) && op.Look? && Placed(code, a, EncOp(op))
    ensures |Starts(code, a, p)| == Fitting(op.body, IsBack(op.op), p)
    ensures |Starts(code, a, p)| > Capacity(LOOK_WORKSPACE) <==> Fitting(op.body, IsBack(op.op), p) > 166
  {
    hide Decode, Entries, ToKet, EncAlts, EncBranch, BackStarts, Starts, Heading, Offsets;
    var body := op.body;
    var h, k := Bracket(code, a, op.op, 0, body, OP_KET, IsBack(op.op));
    if IsBack(op.op) {
      BackwardStarts(code, a, body, h, k, p);
      BackFitting(code, a, body, h, p);
    } else {
      ForwardStarts(code, a, body, OP_KET, h, k, p);
      OffsetsCount(body, false, h);
    }
  }

  // ----- an example -----

  const ONE_A: Ops := Cons(One(Lit(97, false)), Nil)

  /** "a|a|...|a" with `n + 1` branches. */
  function Same(n: nat): Alts { if n == 0 then Last(ONE_A) else More(ONE_A, Same(n - 1)) }

  /** The code tree of "(?!a|a|...|a)", with 167 branches. */
  const CROWD_LOOK: Op := Look(OP_ASSERT_NOT, Same(166))
  const CROWD: Alts := Last(Cons(CROWD_LOOK, Nil))

  lemma {:induction false} SameFacts(x: Ctx, n: nat)
    requires x.subject == [97]
    ensures ValidAlts(Same(n)) && Branches(Same(n)) == n + 1 && |EncAlts(Same(n), false)| == 5 * n + 2 && MAlts(x, Same(n), 0, 1)
    decreases n
  {
    hide EncOp;
    assert ValidOps(Nil) && MOps(x, Nil, 1, 1);
    assert EncOps(Cons(One(Lit(97, false)), Nil)) == EncOp(One(Lit(97, false)));
    assert |EncOp(One(Lit(97, false)))| == 2 by { OneSize(); }
    MOpsCons(x, One(Lit(97, false)), Nil, 0, 1, 1);
    if n > 0 {
      SameFacts(x, n - 1);
      AltsUnits(Same(n), false);
    } else {
      LastAlts(Same(0), false);
    }
  }

  lemma OneSize()
    ensures |EncOp(One(Lit(97, false)))| == 2
  {
  }

  /** It does not match at the "a", yet its run has no room for the first list, so that the matcher
      takes the assertion to hold. */
  lemma CrowdBreaks(t: CharTables)
    ensures ValidAlts(CROWD) && |EncPattern(CROWD)| <= MAX_PATTERN_SIZE
    ensures var x, code := Ctx(t, [97], false, false, false, false, 0, false, false, 0), EncPattern(CROWD);
            && (forall j: nat :: !MAlts(x, CROWD, 0, j))
            && At(code, 1 + LINK_SIZE) == OP_ASSERT_NOT && |Starts(code, 1 + LINK_SIZE, 0)| > Capacity(LOOK_WORKSPACE)
  {
    hide EncPattern, EncOp, EncAlts, EncBranch, Starts, Same, Placed, MAlts, MLook, At;
    var x := Ctx(t, [97], false, false, false, false, 0, false, false, 0);
    SameFacts(x, 166);
    assert ValidOps(Nil) && ValidOp(CROWD_LOOK) && ValidAlts(CROWD);
    CrowdPlaced();
    CrowdExactly(EncPattern(CROWD), CROWD_LOOK, 1 + LINK_SIZE, 0);
    forall j: nat
      ensures !MAlts(x, CROWD, 0, j)
    {
      MLookIntro(x, OP_ASSERT_NOT, Same(166), 0, 1);
      if MAlts(x, CROWD, 0, j) {
        CrowdLooks(x, j);
      }
    }
  }

  lemma CrowdLooks(x: Ctx, j: nat)
    requires ValidAlts(CROWD) && ValidAlts(Same(166)) && MAlts(x, CROWD, 0, j)
    ensures !MLook(x, OP_ASSERT_NOT, Same(166), 0)
  {
    hide Same, MLook;
    var k := MOpsElim(x, CROWD.branch, 0, j);
  }

  lemma CrowdPlaced()
    requires ValidAlts(CROWD) && |EncAlts(Same(166), false)| == 832
    ensures |EncPattern(CROWD)| <= MAX_PATTERN_SIZE && Placed(EncPattern(CROWD), 1 + LINK_SIZE, EncOp(CROWD_LOOK))
    ensures At(EncPattern(CROWD), 1 + LINK_SIZE) == OP_ASSERT_NOT
  {
    hide Same, EncAlts, EncOpen, Bracketed, Heading, Placed, EncOp;
    CrowdSize();
    var code := EncPattern(CROWD);
    var k := CodeLaidOut(CROWD);
    BracketHeading(code, CROWD, k);
    BranchPlaced(code, 0, CROWD, false, 1 + LINK_SIZE);
    BranchStart(code, CROWD, false, 1 + LINK_SIZE);
    PlacedOps(code, 1 + LINK_SIZE, CROWD_LOOK, Nil);
    LeadUnit(code, 1 + LINK_SIZE, CROWD_LOOK);
  }

  lemma CrowdSize()
    requires ValidAlts(CROWD) && |EncAlts(Same(166), false)| == 832
    ensures 800 < |EncPattern(CROWD)| <= MAX_PATTERN_SIZE
  {
    hide Same, EncAlts, EncOpen;
    LastAlts(CROWD, false);
    assert |EncOp(CROWD_LOOK)| == 838;
    assert EncOps(CROWD.branch) == EncOp(CROWD_LOOK) + EncOps(Nil);
  }

  lemma {:induction false} SameShallow(n: nat)
    ensures AltsDepth(Same(n)) == 0
    decreases n
  {
    assert OpsDepth(Nil) == 0 && OpsDepth(ONE_A) == 0;
    if n > 0 {
      SameShallow(n - 1);
    }
  }

  /** A run on that code, at the assertion. */
  lemma CrowdRun(x: Ctx) returns (env: Env, area: Area)
    requires ValidAlts(CROWD) && |EncAlts(Same(166), false)| == 832
    ensures env.code == EncPattern(CROWD) && env.ctx == x && env.depth == 1
    ensures Sealed(env.code, area.places, false) && Place(1 + LINK_SIZE, env.depth, env.end) in area.places
    ensures Decode(env.code, 1 + LINK_SIZE) == ILook(OP_ASSERT_NOT, ToKet(env.code, 1 + LINK_SIZE) + 1 + LINK_SIZE)
  {
    hide EncAlts, EncOpen, Bracketed, Heading, Placed, EncOp, Same, Decode, ToKet, Entries, Starts, Known, EncPattern, At, Closed, AltsSet;
    var code := EncPattern(CROWD);
    CrowdSize();
    CrowdPlaced();
    SameShallow(166);
    assert OpDepth(CROWD_LOOK) == 1 && OpsDepth(Nil) == 0 && OpsDepth(CROWD.branch) == 1;
    var k := CodeLaidOut(CROWD);
    BracketHeading(code, CROWD, k);
    var exit := Place(k, 1, k);
    AltsPlaces(code, 0, CROWD, false, 1 + LINK_SIZE, exit, false);
    var places := AltsSet(CROWD, false, 1 + LINK_SIZE, 1, k);
    assert Offsets(CROWD, false, 1 + LINK_SIZE)[0] in Offsets(CROWD, false, 1 + LINK_SIZE);
    assert exit.(off := 1 + LINK_SIZE) in places;
    Seal(code, places, exit, false);
    BracketDecoded(code, 1 + LINK_SIZE, OP_ASSERT_NOT);
    env, area := Env(code, x, k, 1), Area(places, 0);
  }

  /** From a negative lookahead whose body matches no edge leads on. */
  lemma NoEdge(env: Env, body: Alts, a: nat, p: nat)
    requires ValidAlts(body) && AltsDepth(body) < env.depth && p <= |env.ctx.subject|
    requires Placed(env.code, a, EncOp(Look(OP_ASSERT_NOT, body))) && MLook(env.ctx, OP_ASSERT_NOT, body, p)
    ensures Act(env, Node(p, a, 0)) == []
  {
    hide EncAlts, EncOpen, Bracketed, Decode, ToKet, Entries, At, MLook, LookHolds, HeaderLen, Offsets;
    var h, k := Bracket(env.code, a, OP_ASSERT_NOT, 0, body, OP_KET, false);
    LookCorrect(env, OP_ASSERT_NOT, body, a, h, k, p);
    BracketDecoded(env.code, a, OP_ASSERT_NOT);
    LookAct(env, Node(p, a, 0), OP_ASSERT_NOT, ToKet(env.code, a) + 1 + LINK_SIZE);
  }

  lemma CrowdStuck(env: Env)
    requires ValidAlts(CROWD) && |EncAlts(Same(166), false)| == 832
    requires env.code == EncPattern(CROWD) && env.depth == 1 && env.ctx.subject == [97]
    ensures Act(env, Node(0, 1 + LINK_SIZE, 0)) == []
  {
    hide EncPattern, EncAlts, Placed, Same, Act, MAlts, MLook;
    SameFacts(env.ctx.(som := 0), 166);
    SameShallow(166);
    MLookIntro(env.ctx, OP_ASSERT_NOT, Same(166), 0, 1);
    CrowdPlaced();
    NoEdge(env, Same(166), 1 + LINK_SIZE, 0);
  }

  /** The matcher at that assertion: its run is made, and it goes on behind the assertion, although no edge
      of the graph leads there. */
  method CrowdTaken(t: CharTables) returns (act: StateVector, ghost env: Env)
    ensures ValidAlts(CROWD) && env.code == EncPattern(CROWD) && env.ctx == Ctx(t, [97], false, false, false, false, 0, false, false, 0)
    ensures act.Valid() && act.View() == ToStates([Node(0, ToKet(env.code, 1 + LINK_SIZE) + 1 + LINK_SIZE, 0)])
    ensures Act(env, Node(0, 1 + LINK_SIZE, 0)) == []
  {
    hide EncPattern, EncOp, EncAlts, Starts, Same, Placed, At, Decode, ToKet, Act, Sealed, Capacity, ToStates, Quiet;
    var x := Ctx(t, [97], false, false, false, false, 0, false, false, 0);
    SameFacts(x, 166);
    CrowdBreaks(t);
    var code := EncPattern(CROWD);
    ghost var area;
    env, area := CrowdRun(x);
    var next := ToKet(code, 1 + LINK_SIZE) + 1 + LINK_SIZE;
    var md := new MatchBlock(0);
    act := new StateVector(1);
    ghost var clean, a;
    var ok;
    ok, clean, a := StepLook(md, code, x, Options(false, false, false), 0, 1 + LINK_SIZE, 0, OP_ASSERT_NOT, next, act, 1, env, area, false);
    CrowdStuck(env);
    assert [] + ToStates(a) == ToStates(a);
  }
}
