/** Where partial matching falls short: runs that are not suspended although more of the subject would change
    what the pattern matches. */
module Unforeseen {
  import opened Bytecode
  import opened Tree
  import opened Subject
  import opened Graph
  import opened Layout
  import opened Correctness
  import opened Scan
  import opened Matcher
  import opened DfaRun
  import opened Inspection
  import opened Pattern
  import opened Expansion
  import opened Possession
  import opened Preservation
  import opened Refinement
  import opened Growth
  import opened Unseen

  // ----- a test alone -----

  function Alone(op: Byte): PAlts { PLast(BCons(PTest(op), BNil)) }

  function AloneTree(op: Byte): Alts { Last(Cons(Test(op), Nil)) }

  lemma AloneScope(t: CharTables, op: Byte)
    requires IsTest(op)
    ensures InScope(t, Alone(op)) && CodeOf(t, Alone(op)) == EncPattern(AloneTree(op)) && DepthOf(t, Alone(op)) == 0
    ensures ValidAlts(AloneTree(op)) && |EncPattern(AloneTree(op))| <= MAX_PATTERN_SIZE
  {
    NothingCompilable(t);
    CompilableFirst(t, PTest(op), BNil);
    assert ExpandBranch(t, BNil) == Nil && ExpandItem(t, PTest(op), BNil) == Cons(Test(op), Nil);
    assert Append(Cons(Test(op), Nil), Nil) == Cons(Test(op), Nil);
    assert ExpandBranch(t, Alone(op).branch) == Cons(Test(op), Nil);
    assert TreeOf(t, Alone(op)) == AloneTree(op);
    assert ValidOps(Nil) && EncOps(Nil) == [] && OpsDepth(Nil) == 0;
  }

  lemma AloneCode(op: Byte, s: nat)
    requires IsTest(op) && ValidAlts(AloneTree(op)) && |EncPattern(AloneTree(op))| <= MAX_PATTERN_SIZE
    ensures var code := EncPattern(AloneTree(op));
            && Starts(code, 0, s) == [Node(s, 3, 0)] && Decode(code, 3) == ITest(op, 4)
            && ToKet(code, 0) == 4 && Decode(code, 4).IKet?
  {
    hide Decode, Entries, ToKet, Starts, Heading, Bracketed;
    var al := AloneTree(op);
    var code := EncPattern(al);
    var k := CodeLaidOut(al);
    ForwardStarts(code, 0, al, OP_KET, 3, k, s);
    BracketHeading(code, al, k);
    BranchPlaced(code, 0, al, false, 3);
    PlacedOps(code, 3, al.branch.head, Nil);
    DecodeTest(code, 3, op);
    KetOf(code, al, k);
    assert EncOps(Nil) == [] && Offsets(al, false, 3) == [3];
  }

  /** Its run comes to the test, and to its end if the test holds. */
  lemma AloneRun(env: Env, op: Byte, s: nat)
    requires Decode(env.code, 3) == ITest(op, 4) && env.end == 4 && Decode(env.code, 4).IKet? && s <= |env.ctx.subject|
    ensures var starts := [Node(s, 3, 0)];
            && (Wanting(env, starts) <==> s == |env.ctx.subject| && (Inspects(ITest(op, 4)) || Awaits(env.ctx, op, s)))
            && (Unopened(env, starts) <==> !Opens(env.ctx, op, s)) && (Unclosed(env, starts) <==> !Closes(env.ctx, op, s))
  {
    hide Decode, R, Opens, Closes, Awaits;
    var starts, first := [Node(s, 3, 0)], Node(s, 3, 0);
    ReachedStart(env, starts, first);
    forall n | Reached(env, starts, n)
      ensures n == first || n == Node(s, 4, 0)
    {
      var m: nat, t :| t in starts && R(env, m, t, n);
      if t != n {
        var z := Step(env, m, t, n);
        if z != n {
          var w := Step(env, m - 1, z, n);
        }
      }
    }
    assert !Wants(env, Node(s, 4, 0));
    assert Still(env, Node(s, 4, 0), true) && Still(env, Node(s, 4, 0), false);
    assert Wants(env, first) <==> s == |env.ctx.subject| && (Inspects(ITest(op, 4)) || Awaits(env.ctx, op, s));
  }

  lemma AloneMatches(x: Ctx, op: Byte, s: nat, j: nat)
    requires IsTest(op) && s <= |x.subject|
    ensures ValidPAlts(Alone(op)) && (MPAlts(x, Alone(op), s, j) <==> j == s && TestHolds(x, op, s))
  {
    assert ValidBranch(BNil);
    if MPAlts(x, Alone(op), s, j) {
      var k := MBranchElim(x, Alone(op).branch, s, j);
    }
    if j == s && TestHolds(x, op, s) {
      assert MBranch(x, BNil, s, s);
      MBranchCons(x, PTest(op), BNil, s, s, s);
    }
  }

  /** A pattern that is one test: if its run is not to be suspended, more of the subject never lets it match exactly if
      it does not come to a test that more would open, and never undoes a match exactly if to none that it would close. */
  lemma AloneExactly(x: Ctx, op: Byte, s: nat)
    requires IsTest(op) && s <= |x.subject| && InScope(x.tables, Alone(op))
    requires !Wanting(EnvOf(x, Alone(op)), Starts(CodeOf(x.tables, Alone(op)), 0, s))
    ensures var env, starts := EnvOf(x, Alone(op)), Starts(CodeOf(x.tables, Alone(op)), 0, s);
            && (Unopened(env, starts) <==>
                  forall y: seq<Byte>, j: nat :: MPAlts(Longer(x, y), Alone(op), s, j) ==> MPAlts(x, Alone(op), s, j))
            && (Unclosed(env, starts) <==>
                  forall y: seq<Byte>, j: nat :: MPAlts(x, Alone(op), s, j) ==> MPAlts(Longer(x, y), Alone(op), s, j))
  {
    hide InScope, CodeOf, Starts, Wanting, Unopened, Unclosed, MPAlts, TestHolds, Opens, Closes, DepthOf, EncPattern, Decode;
    AloneScope(x.tables, op);
    AloneCode(op, s);
    EnvFacts(x, Alone(op));
    AloneEnd(x, op);
    AloneRun(EnvOf(x, Alone(op)), op, s);
    TestExactly(x, op, s);
    AloneGains(x, op, s);
  }

  lemma AloneGains(x: Ctx, op: Byte, s: nat)
    requires IsTest(op) && s <= |x.subject| && ValidPAlts(Alone(op))
    ensures (forall y: seq<Byte>, j: nat :: MPAlts(Longer(x, y), Alone(op), s, j) ==> MPAlts(x, Alone(op), s, j))
            <==> !(!TestHolds(x, op, s) && exists y: seq<Byte> :: TestHolds(Longer(x, y), op, s))
    ensures (forall y: seq<Byte>, j: nat :: MPAlts(x, Alone(op), s, j) ==> MPAlts(Longer(x, y), Alone(op), s, j))
            <==> !(TestHolds(x, op, s) && exists y: seq<Byte> :: !TestHolds(Longer(x, y), op, s))
  {
    hide MPAlts, TestHolds;
    AloneMatches(x, op, s, s);
    forall y: seq<Byte>, j: nat
      ensures MPAlts(Longer(x, y), Alone(op), s, j) <==> j == s && TestHolds(Longer(x, y), op, s)
      ensures MPAlts(x, Alone(op), s, j) <==> j == s && TestHolds(x, op, s)
    {
      AloneMatches(x, op, s, j);
      AloneMatches(Longer(x, y), op, s, j);
    }
    if y: seq<Byte> :| TestHolds(Longer(x, y), op, s) != TestHolds(x, op, s) {
      AloneMatches(Longer(x, y), op, s, s);
    }
  }

  lemma AloneEnd(x: Ctx, op: Byte)
    requires InScope(x.tables, Alone(op))
    ensures EnvOf(x, Alone(op)).end == ToKet(CodeOf(x.tables, Alone(op)), 0)
  {
    hide CodeOf, ToKet;
  }

  // ----- a lookahead -----

  const LETTER_A: Atom := Lit(97, false)
  const LETTER_B: Atom := Lit(98, false)
  const ONE_B: Branch := BCons(PAtom(LETTER_B, false), BNil)
  const AHEAD_B: Branch := BCons(PLook(OP_ASSERT, PLast(ONE_B)), BNil)

  /** "a(?=b)" */
  const A_AHEAD_B: PAlts := PLast(BCons(PAtom(LETTER_A, false), AHEAD_B))

  const LOOK_B: Op := Look(OP_ASSERT, Last(Cons(One(LETTER_B), Nil)))
  const A_TREE: Alts := Last(Cons(One(LETTER_A), Cons(LOOK_B, Nil)))

  lemma AheadValid()
    ensures ValidBranch(ONE_B) && ValidPAlts(PLast(ONE_B)) && ValidItem(AHEAD_B.head) && ValidBranch(AHEAD_B) && ValidPAlts(A_AHEAD_B)
    ensures ValidOps(Cons(One(LETTER_B), Nil)) && ValidAlts(LOOK_B.body) && ValidOp(LOOK_B) && ValidOps(Cons(LOOK_B, Nil)) && ValidAlts(A_TREE)
  {
    assert ValidBranch(BNil) && ValidBranch(ONE_B) && ValidPAlts(PLast(ONE_B)) && ValidItem(AHEAD_B.head) && ValidBranch(AHEAD_B);
    assert ValidOps(Nil) && ValidOps(Cons(One(LETTER_B), Nil)) && ValidAlts(LOOK_B.body) && ValidOp(LOOK_B) && ValidOps(Cons(LOOK_B, Nil));
  }

  lemma AheadTree(t: CharTables)
    requires ValidPAlts(A_AHEAD_B) && ValidAlts(A_TREE)
    ensures TreeOf(t, A_AHEAD_B) == A_TREE
  {
    assert ExpandBranch(t, BNil) == Nil;
    assert ExpandBranch(t, ONE_B) == Cons(One(LETTER_B), Nil);
    assert TreeOf(t, PLast(ONE_B)) == LOOK_B.body;
    assert ExpandItem(t, AHEAD_B.head, BNil) == Cons(LOOK_B, Nil);
    assert ExpandBranch(t, AHEAD_B) == Cons(LOOK_B, Nil);
  }

  lemma AheadScope(t: CharTables)
    requires ValidPAlts(A_AHEAD_B) && ValidAlts(A_TREE)
    ensures InScope(t, A_AHEAD_B) && CodeOf(t, A_AHEAD_B) == EncPattern(A_TREE)
  {
    hide EncPattern, TreeOf;
    NothingCompilable(t);
    CompilableFirst(t, PAtom(LETTER_B, false), BNil);
    CompilableAhead(t, ONE_B);
    CompilableFirst(t, PAtom(LETTER_A, false), AHEAD_B);
    AheadTree(t);
  }

  lemma CompilableAhead(t: CharTables, b: Branch)
    requires Compilable(t, b)
    ensures Compilable(t, BCons(PLook(OP_ASSERT, PLast(b)), BNil))
  {
    hide TreeOf;
    var item := PLook(OP_ASSERT, PLast(b));
    var c := BCons(item, BNil);
    NothingCompilable(t);
    assert ValidPAlts(PLast(b)) && Settled(PLast(b)) && FixedBehind(t, PLast(b)) && Unwrapped(t, PLast(b)) && Certain(t, PLast(b)) && Short(t, PLast(b));
    assert ValidItem(item) && SettledItem(item) && FixedBehindItem(t, item) && UnwrappedItem(t, item, BNil) && CertainItem(t, item) && ShortItem(t, item);
    assert c.head == item && c.tail == BNil && Safe(t, item, BNil);
    assert ValidBranch(c);
    assert SettledBranch(c);
    assert FixedBehindBranch(t, c);
    assert UnwrappedBranch(t, c);
    assert CertainBranch(t, c);
    assert ShortBranch(t, c);
  }

  lemma AheadCode()
    requires ValidAlts(A_TREE) && ValidOp(LOOK_B) && ValidAlts(LOOK_B.body)
    ensures var code := EncPattern(A_TREE);
            && |code| <= MAX_PATTERN_SIZE && Starts(code, 0, 0) == [Node(0, 3, 0)]
            && Decode(code, 3) == IOne(LETTER_A, 5) && Decode(code, 5) == ILook(OP_ASSERT, 13)
            && ToKet(code, 0) == 13 && Decode(code, 13).IKet?
  {
    hide Decode, Entries, ToKet, Starts, Heading, EncPattern;
    var code, ops := EncPattern(A_TREE), A_TREE.branch;
    AheadUnits();
    var k := CodeLaidOut(A_TREE);
    ForwardStarts(code, 0, A_TREE, OP_KET, 3, k, 0);
    assert Offsets(A_TREE, false, 3) == [3];
    BracketHeading(code, A_TREE, k);
    BranchPlaced(code, 0, A_TREE, false, 3);
    PlacedOps(code, 3, ops.head, ops.tail);
    PlacedOps(code, 5, LOOK_B, Nil);
    DecodeOne(code, 3, LETTER_A);
    LookDecoded(code, 5);
    KetOf(code, A_TREE, k);
  }

  lemma LookDecoded(code: seq<Byte>, a: nat)
    requires ValidOp(LOOK_B) && ValidAlts(LOOK_B.body) && Placed(code, a, EncOp(LOOK_B)) && |EncOp(LOOK_B)| == 8
    ensures Decode(code, a) == ILook(OP_ASSERT, a + 8)
  {
    hide Decode, Entries, ToKet, Heading;
    var h, k := Bracket(code, a, OP_ASSERT, 0, LOOK_B.body, OP_KET, false);
  }

  lemma AheadUnits()
    requires ValidAlts(A_TREE) && ValidOp(LOOK_B) && ValidAlts(LOOK_B.body)
    ensures |EncPattern(A_TREE)| == 17 && |EncOps(A_TREE.branch)| == 10 && |EncOp(LOOK_B)| == 8
  {
    assert |EncOps(Nil)| == 0 && |EncOps(Cons(One(LETTER_B), Nil))| == 2 && |EncOp(LOOK_B)| == 8;
    assert |EncOps(Cons(LOOK_B, Nil))| == 8;
  }

  /** On "a" its run is not to be suspended and finds nothing, but on "ab" the pattern matches: an assertion does
      not wait for more of the subject. */
  lemma AheadBreaks(t: CharTables)
    ensures var x := Ctx(t, [97], false, false, false, true, 0, false, false, 0);
            && InScope(t, A_AHEAD_B) && !Wanting(EnvOf(x, A_AHEAD_B), Starts(CodeOf(t, A_AHEAD_B), 0, 0))
            && (forall j: nat :: !MPAlts(x, A_AHEAD_B, 0, j)) && MPAlts(Longer(x, [98]), A_AHEAD_B, 0, 1)
  {
    hide Decode, Starts, Reached, DepthOf, InScope, TreeOf, EncPattern, MPAlts, ToKet, Wanting;
    var x := Ctx(t, [97], false, false, false, true, 0, false, false, 0);
    AheadValid();
    AheadScope(t);
    AheadCode();
    EnvFacts(x, A_AHEAD_B);
    AheadNot(EnvOf(x, A_AHEAD_B), Starts(CodeOf(t, A_AHEAD_B), 0, 0));
    forall j: nat
      ensures !MPAlts(x, A_AHEAD_B, 0, j)
    {
      if MPAlts(x, A_AHEAD_B, 0, j) {
        AheadTried(x, j);
      }
    }
    AheadOne(Longer(x, [98]));
  }

  predicate AheadCoded(env: Env) {
    Decode(env.code, 3) == IOne(LETTER_A, 5) && Decode(env.code, 5) == ILook(OP_ASSERT, 13) && Decode(env.code, 13).IKet? && env.end == 13
  }

  /** The states of the run. */
  predicate Met(n: Node) { n == Node(0, 3, 0) || n == Node(1, 5, 0) || n == Node(1, 13, 0) }

  lemma MetStep(env: Env, z: Node, w: Node)
    requires AheadCoded(env) && Met(z) && (w in Act(env, z) || w in Fresh(env.code, env.ctx, z))
    ensures Met(w)
  {
    hide Decode, LookHolds, Recordable, AtomAt;
    if z.off == 5 {
      LookAct(env, z, OP_ASSERT, 13);
    }
  }

  lemma {:induction false} MetPath(env: Env, m: nat, z: Node, n: Node)
    requires AheadCoded(env) && Met(z) && R(env, m, z, n)
    ensures Met(n)
    decreases m
  {
    hide AheadCoded, Act, Fresh;
    if m > 0 {
      var w := Step(env, m, z, n);
      MetStep(env, z, w);
      MetPath(env, m - 1, w, n);
    }
  }

  lemma AheadNot(env: Env, starts: seq<Node>)
    requires AheadCoded(env) && env.ctx.subject == [97] && starts == [Node(0, 3, 0)]
    ensures !Wanting(env, starts)
  {
    hide Decode, R;
    forall n | Reached(env, starts, n)
      ensures !Wants(env, n)
    {
      var m: nat, t :| t in starts && R(env, m, t, n);
      MetPath(env, m, t, n);
    }
  }

  /** Its matches need a second character. */
  lemma AheadTried(x: Ctx, j: nat)
    requires ValidPAlts(A_AHEAD_B) && ValidPAlts(PLast(ONE_B)) && ValidBranch(ONE_B) && ValidBranch(AHEAD_B)
    requires MPAlts(x, A_AHEAD_B, 0, j)
    ensures |x.subject| > 1
  {
    var k := MBranchElim(x, A_AHEAD_B.branch, 0, j);
    var i := MBranchElim(x, AHEAD_B, k, j);
    var y := x.(som := k);
    var e: nat :| MPAlts(y, PLast(ONE_B), k, e);
    var u := MBranchElim(y, ONE_B, k, e);
  }

  lemma AheadOne(x: Ctx)
    requires x.subject == [97, 98] && ValidPAlts(A_AHEAD_B) && ValidPAlts(PLast(ONE_B)) && ValidBranch(ONE_B) && ValidItem(AHEAD_B.head) && ValidBranch(AHEAD_B)
    ensures MPAlts(x, A_AHEAD_B, 0, 1)
  {
    var y := x.(som := 1);
    assert ValidBranch(BNil) && MBranch(y, BNil, 2, 2) && MBranch(x, BNil, 1, 1);
    MBranchCons(y, PAtom(LETTER_B, false), BNil, 1, 2, 2);
    MPLookIntro(x, OP_ASSERT, PLast(ONE_B), 1, 2);
    MBranchCons(x, AHEAD_B.head, BNil, 1, 1, 1);
    MBranchCons(x, PAtom(LETTER_A, false), AHEAD_B, 0, 1, 1);
  }
}
