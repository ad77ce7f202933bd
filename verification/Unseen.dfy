/** What a run does not depend on: the characters before the earliest one that it reports to have inspected. */
module Unseen {
  import opened Bytecode
  import opened Tree
  import opened Subject
  import opened Semantics
  import opened Graph
  import opened Layout
  import opened Correctness
  import opened Closure
  import opened Room
  import opened Scan
  import opened Matcher
  import opened Inspection
  import opened DfaRun
  import opened Absence
  import opened Pattern
  import opened Expansion
  import opened Possession
  import opened Preservation
  import opened Refinement

  /** Another subject of the same length that is the same from `u` on. */
  predicate Agrees(x: Ctx, y: Ctx, u: nat) {
    && y == x.(subject := y.subject) && |y.subject| == |x.subject|
    && forall k | u <= k < |x.subject| :: y.subject[k] == x.subject[k]
  }

  // ----- the start of a line -----

  /** The matcher does not count the character before a multiline ^ among those inspected. At this place the
      test depends on it only if it is not before `u`. */
  predicate LineSafe(x: Ctx, u: nat, p: nat) { u < p || p == 0 || p >= |x.subject| }

  /** The subject with a newline, or none, at `k`. */
  function Marked(x: Ctx, k: nat, newline: bool): Ctx
    requires k < |x.subject|
  {
    x.(subject := x.subject[k := if newline then NEWLINE else NEWLINE - 1])
  }

  /** A multiline ^ is the same for all such subjects exactly there. */
  lemma LineExactly(x: Ctx, u: nat, p: nat)
    requires u <= p
    ensures LineSafe(x, u, p) <==> forall y | Agrees(x, y, u) :: TestHolds(y, OP_CIRCM, p) == TestHolds(x, OP_CIRCM, p)
  {
    if !LineSafe(x, u, p) {
      var y, z := Marked(x, p - 1, true), Marked(x, p - 1, false);
      assert Agrees(x, y, u) && Agrees(x, z, u);
      assert TestHolds(y, OP_CIRCM, p) && !TestHolds(z, OP_CIRCM, p);
    }
  }

  /** Every multiline ^ that the run comes to is at a place where that does not matter. */
  ghost predicate LineGuarded(env: Env, u: nat, n: Node)
    decreases env.depth, 0
  {
    match Decode(env.code, n.off)
    case ITest(op, _) => op == OP_CIRCM ==> LineSafe(env.ctx, u, n.pos)
    case ILook(_, _) =>
      env.depth > 0 ==> LinesGuarded(Nested(env.code, env.ctx, env.depth, n.off, n.pos), Starts(env.code, n.off, n.pos), u)
    case _ => true
  }

  ghost predicate LinesGuarded(env: Env, starts: seq<Node>, u: nat)
    decreases env.depth, 1
  {
    forall n :: Reached(env, starts, n) ==> LineGuarded(env, u, n)
  }

  // ----- steps -----

  function On(env: Env, y: Ctx): Env { env.(ctx := y) }

  lemma OtherTest(x: Ctx, y: Ctx, u: nat, op: Byte, p: nat)
    requires Agrees(x, y, u) && u <= p && IsTest(op)
    requires IsBoundary(op) && p > 0 ==> u < p
    requires op == OP_CIRCM ==> LineSafe(x, u, p)
    ensures TestHolds(y, op, p) == TestHolds(x, op, p)
  {
  }

  lemma OtherChar(x: Ctx, y: Ctx, u: nat, a: Atom, p: nat)
    requires Agrees(x, y, u) && u <= p && ValidAtom(a)
    ensures MatchesHere(y, a, p) == MatchesHere(x, a, p)
  {
  }

  /** A step that inspects nothing before `u` is the same. */
  lemma SameSuccs(env: Env, y: Ctx, u: nat, n: Node)
    requires Agrees(env.ctx, y, u) && Confined(env, u, n) && LineGuarded(env, u, n)
    ensures Act(On(env, y), n) == Act(env, n) && Fresh(env.code, y, n) == Fresh(env.code, env.ctx, n)
    decreases env.depth, 1
  {
    hide Decode, Entries, TestHolds, MatchesHere, Starts, Nested, LookHolds, Recordable, RunFrom, ToKet;
    DecodedTest(env.code, n.off);
    match Decode(env.code, n.off)
    case ITest(op, _) => OtherTest(env.ctx, y, u, op, n.pos);
    case IOne(a, _) => OtherChar(env.ctx, y, u, a, n.pos);
    case IRep(a, _, _, _, _) => OtherChar(env.ctx, y, u, a, n.pos);
    case ILook(_, _) => SameLook(env, y, u, n);
    case _ =>
  }

  lemma DecodedTest(code: seq<Byte>, o: nat)
    ensures Decode(code, o).ITest? ==> IsTest(Decode(code, o).op)
  {
  }

  lemma SameLook(env: Env, y: Ctx, u: nat, n: Node)
    requires Agrees(env.ctx, y, u) && Confined(env, u, n) && LineGuarded(env, u, n) && Decode(env.code, n.off).ILook?
    ensures LookHolds(env.code, y, env.depth, n.off, n.pos) == LookHolds(env.code, env.ctx, env.depth, n.off, n.pos)
    decreases env.depth, 0
  {
    hide Decode, Starts, ToKet, RunFrom, Finishes, ConfinedRun, LinesGuarded;
    if env.depth > 0 {
      var inner, starts, start := Nested(env.code, env.ctx, env.depth, n.off, n.pos), Starts(env.code, n.off, n.pos), RunFrom(env.code, n.off, n.pos);
      var other := y.(som := n.pos);
      assert On(inner, other) == Nested(env.code, y, env.depth, n.off, n.pos);
      assert Agrees(inner.ctx, other, u);
      SameFound(inner, other, u, starts, start);
    } else {
      NoLevels(env.code, y, n.off, n.pos);
      NoLevels(env.code, env.ctx, n.off, n.pos);
    }
  }

  lemma NoLevels(code: seq<Byte>, x: Ctx, o: nat, p: nat)
    ensures !LookHolds(code, x, 0, o, p)
  {
  }

  ghost predicate Found(env: Env, starts: seq<Node>, start: nat) {
    exists j: nat :: Finishes(env, starts, j) && Recordable(env.ctx, start, j)
  }

  /** Whether the run finds an end is the same. */
  lemma SameFound(env: Env, y: Ctx, u: nat, starts: seq<Node>, start: nat)
    requires Agrees(env.ctx, y, u) && ConfinedRun(env, starts, start, u) && LinesGuarded(env, starts, u)
    ensures Found(On(env, y), starts, start) == Found(env, starts, start)
    decreases env.depth, 4
  {
    hide Reached, LinesGuarded, Finishes, AllConfined, Agrees, Recordable;
    SameTaken(env.ctx, y, u, start);
    if AllConfined(env, starts, u) {
      forall j: nat
        ensures Finishes(On(env, y), starts, j) <==> Finishes(env, starts, j)
      {
        SameEnds(env, y, u, starts, j);
      }
    } else {
      var j: nat :| SureReached(env, starts, u, Node(j, env.end, 0)) && Recordable(env.ctx, start, j);
      SureEnd(env, y, u, starts, j);
      assert Finishes(On(env, y), starts, j) && Finishes(env, starts, j);
    }
  }

  lemma SameTaken(x: Ctx, y: Ctx, u: nat, start: nat)
    requires Agrees(x, y, u)
    ensures forall j: nat :: Recordable(y, start, j) == Recordable(x, start, j)
  {
  }

  /** The paths are the same if every node inspects nothing before `u`. */
  lemma {:induction false} SamePath(env: Env, y: Ctx, u: nat, starts: seq<Node>, m: nat, z: Node, n: Node)
    requires Agrees(env.ctx, y, u) && AllConfined(env, starts, u) && LinesGuarded(env, starts, u) && Reached(env, starts, z)
    ensures R(On(env, y), m, z, n) <==> R(env, m, z, n)
    decreases env.depth, 2, m
  {
    hide Agrees, Confined, LineGuarded, Reached, Act, Fresh;
    if m > 0 {
      SameSuccs(env, y, u, z);
      assert Succs(On(env, y), z) == Succs(env, z);
      forall w | w in Succs(env, z)
        ensures R(On(env, y), m - 1, w, n) <==> R(env, m - 1, w, n)
      {
        ReachedStep(env, starts, z, w);
        SamePath(env, y, u, starts, m - 1, w, n);
      }
    }
  }

  lemma SameReached(env: Env, y: Ctx, u: nat, starts: seq<Node>, n: Node)
    requires Agrees(env.ctx, y, u) && AllConfined(env, starts, u) && LinesGuarded(env, starts, u)
    ensures Reached(On(env, y), starts, n) <==> Reached(env, starts, n)
    decreases env.depth, 3
  {
    hide Agrees, AllConfined, LinesGuarded, R;
    forall m: nat, s | s in starts
      ensures R(On(env, y), m, s, n) <==> R(env, m, s, n)
    {
      ReachedStart(env, starts, s);
      SamePath(env, y, u, starts, m, s, n);
    }
  }

  lemma SameEnds(env: Env, y: Ctx, u: nat, starts: seq<Node>, j: nat)
    requires Agrees(env.ctx, y, u) && AllConfined(env, starts, u) && LinesGuarded(env, starts, u)
    ensures Finishes(On(env, y), starts, j) <==> Finishes(env, starts, j)
    decreases env.depth, 3
  {
    hide Agrees, AllConfined, LinesGuarded, R, Reached;
    forall m: nat, s | s in starts
      ensures R(On(env, y), m, s, Node(j, env.end, 0)) <==> R(env, m, s, Node(j, env.end, 0))
    {
      ReachedStart(env, starts, s);
      SamePath(env, y, u, starts, m, s, Node(j, env.end, 0));
    }
  }

  /** Steps that inspect nothing before `u` can be taken all the same. */
  lemma {:induction false} SurePath(env: Env, y: Ctx, u: nat, starts: seq<Node>, m: nat, z: Node, n: Node)
    requires Agrees(env.ctx, y, u) && LinesGuarded(env, starts, u) && Reached(env, starts, z) && Sure(env, u, m, z, n)
    ensures R(On(env, y), m, z, n) && R(env, m, z, n)
    decreases env.depth, 2, m
  {
    hide Agrees, Confined, LineGuarded, Reached, Act, Fresh;
    if m > 0 {
      SameSuccs(env, y, u, z);
      assert Succs(On(env, y), z) == Succs(env, z);
      var w :| w in Succs(env, z) && Sure(env, u, m - 1, w, n);
      ReachedStep(env, starts, z, w);
      SurePath(env, y, u, starts, m - 1, w, n);
    }
  }

  lemma SureEnd(env: Env, y: Ctx, u: nat, starts: seq<Node>, j: nat)
    requires Agrees(env.ctx, y, u) && LinesGuarded(env, starts, u) && SureReached(env, starts, u, Node(j, env.end, 0))
    ensures Finishes(On(env, y), starts, j) && Finishes(env, starts, j)
    decreases env.depth, 3
  {
    hide Agrees, LinesGuarded, R, Sure, Reached;
    var m: nat, s :| s in starts && Sure(env, u, m, s, Node(j, env.end, 0));
    ReachedStart(env, starts, s);
    SurePath(env, y, u, starts, m, s, Node(j, env.end, 0));
  }

  // ----- whole runs -----

  /** Some path could use more of the subject, for one subject exactly if for the other. */
  lemma SameWanting(env: Env, y: Ctx, u: nat, starts: seq<Node>)
    requires Agrees(env.ctx, y, u) && AllConfined(env, starts, u) && LinesGuarded(env, starts, u)
    ensures Wanting(On(env, y), starts) <==> Wanting(env, starts)
  {
    hide AllConfined, LinesGuarded, Reached, Decode;
    forall n
      ensures Reached(On(env, y), starts, n) <==> Reached(env, starts, n)
      ensures Wants(On(env, y), n) <==> Wants(env, n)
    {
      SameReached(env, y, u, starts, n);
    }
    SameSome(On(env, y), env, starts);
  }

  lemma SameSome(first: Env, second: Env, starts: seq<Node>)
    requires forall n :: (Reached(first, starts, n) <==> Reached(second, starts, n)) && (Wants(first, n) <==> Wants(second, n))
    ensures Wanting(first, starts) <==> Wanting(second, starts)
  {
    hide Reached, Wants;
    if Wanting(first, starts) {
      var n :| Reached(first, starts, n) && Wants(first, n);
      assert Reached(second, starts, n) && Wants(second, n);
    }
  }

  /** Without assertions, the steps of the run depend on nothing before `u` exactly if no multiline ^ is
      in the way. */
  lemma StepsExactly(env: Env, u: nat, starts: seq<Node>)
    requires env.depth == 0 && AllConfined(env, starts, u)
    ensures LinesGuarded(env, starts, u) <==>
      forall y, n | Agrees(env.ctx, y, u) && Reached(env, starts, n) :: Act(On(env, y), n) == Act(env, n)
  {
    hide Reached, Act, Fresh, Confined, Decode, Agrees;
    if LinesGuarded(env, starts, u) {
      forall y, n | Agrees(env.ctx, y, u) && Reached(env, starts, n)
        ensures Act(On(env, y), n) == Act(env, n)
      {
        SameSuccs(env, y, u, n);
      }
    } else {
      var n :| Reached(env, starts, n) && !LineGuarded(env, u, n);
      assert u <= n.pos by { ConfinedFrom(env, u, n); }
      LineExactly(env.ctx, u, n.pos);
      var y :| Agrees(env.ctx, y, u) && TestHolds(y, OP_CIRCM, n.pos) != TestHolds(env.ctx, OP_CIRCM, n.pos);
      LineStep(env, y, n);
      assert Act(On(env, y), n) != Act(env, n);
    }
  }

  lemma ConfinedFrom(env: Env, u: nat, n: Node)
    requires Confined(env, u, n)
    ensures u <= n.pos
  {
  }

  lemma LineStep(env: Env, y: Ctx, n: Node)
    requires Decode(env.code, n.off).ITest? && Decode(env.code, n.off).op == OP_CIRCM
    requires TestHolds(y, OP_CIRCM, n.pos) != TestHolds(env.ctx, OP_CIRCM, n.pos)
    ensures Act(On(env, y), n) != Act(env, n)
  {
    hide Decode, TestHolds;
  }

  // ----- runs without certain tests -----

  const LINES: set<Byte> := {OP_CIRCM}
  const BOUNDARIES: set<Byte> := {OP_WORD_BOUNDARY, OP_NOT_WORD_BOUNDARY}

  /** A run whose places hold no multiline ^ meets none, and neither do the runs of its assertions. */
  lemma LinelessRun(env: Env, area: Area, starts: seq<Node>, u: nat)
    requires Sealed(env.code, area.places, false) && Proper(env, area, set s | s in starts) && Decode(env.code, env.end).IKet?
    requires forall x | x in area.places :: WithoutAt(env.code, x.off, LINES)
    ensures LinesGuarded(env, starts, u)
    decreases env.depth
  {
    hide Decode, Sealed, Proper, Starts, Reached, ToKet;
    forall n | Reached(env, starts, n)
      ensures LineGuarded(env, u, n)
    {
      ReachedProper(env, area, starts, n);
      var off := n.off;
      if Decode(env.code, off).ILook? {
        var op, next := Decode(env.code, off).op, Decode(env.code, off).next;
        InPlaces(env, area, n);
        LookPlace(env, area, false, n.pos, off, op, next);
        LinelessRun(Nested(env.code, env.ctx, env.depth, off, n.pos), area, Starts(env.code, off, n.pos), u);
      } else if Decode(env.code, off).ITest? {
        InPlaces(env, area, n);
        assert WithoutAt(env.code, Place(off, env.depth, env.end).off, LINES);
      }
    }
  }

  lemma {:induction false} PathOn(env: Env, m: nat, z: Node, n: Node)
    requires R(env, m, z, n)
    ensures z.pos <= n.pos
    decreases m
  {
    hide Decode, Entries, LookHolds;
    if m > 0 {
      var w := Step(env, m, z, n);
      PathOn(env, m - 1, w, n);
    }
  }

  /** A run without boundary tests and assertions inspects nothing before its start. */
  lemma HereRun(env: Env, area: Area, starts: seq<Node>, u: nat)
    requires Sealed(env.code, area.places, false) && Proper(env, area, set s | s in starts) && Decode(env.code, env.end).IKet?
    requires env.depth == 0 && (forall x | x in area.places :: WithoutAt(env.code, x.off, BOUNDARIES)) && forall s | s in starts :: u <= s.pos
    ensures AllConfined(env, starts, u) && forall v: nat :: !Touched(env, starts, v)
  {
    hide Decode, Sealed, Proper, Starts, R, ToKet;
    forall n | Reached(env, starts, n)
      ensures Confined(env, u, n) && forall v: nat :: !Touches(env, n, v)
    {
      var m: nat, s :| s in starts && R(env, m, s, n);
      PathOn(env, m, s, n);
      ReachedProper(env, area, starts, n);
      if Decode(env.code, n.off).ITest? {
        InPlaces(env, area, n);
        assert WithoutAt(env.code, Place(n.off, env.depth, env.end).off, BOUNDARIES);
      }
    }
  }

  // ----- compiled patterns -----

  lemma Unlined(x: Ctx, p: PAlts, s: nat, u: nat)
    requires InScope(x.tables, p) && |CodeOf(x.tables, p)| <= MAX_PATTERN_SIZE && s <= |x.subject| && Without(TreeOf(x.tables, p), LINES)
    ensures LinesGuarded(EnvOf(x, p), Starts(CodeOf(x.tables, p), 0, s), u)
  {
    hide CodeOf, Starts, ToKet, Decode, Sealed, Proper, WithoutAt, Without, LinesGuarded, PlacesOf, DepthOf;
    var area := Area(PlacesOf(x.tables, p), 0);
    CompiledSealed(x, p, false, 0);
    CodeWithout(x, p, LINES);
    assert Startable(EnvOf(x, p), area, 0, s);
    LinelessRun(EnvOf(x, p), area, Starts(CodeOf(x.tables, p), 0, s), u);
  }

  lemma StartsHere(code: seq<Byte>, o: nat, p: nat)
    requires !GoesBack(code, o)
    ensures forall t | t in Starts(code, o, p) :: t.pos == p
  {
    hide Entries;
  }

  /** Without boundary tests and assertions, what a run reports as inspected begins with its start. */
  lemma HereExactly(x: Ctx, p: PAlts, s: nat, u: nat)
    requires InScope(x.tables, p) && |CodeOf(x.tables, p)| <= MAX_PATTERN_SIZE && s <= |x.subject|
    requires DepthOf(x.tables, p) == 0 && Without(TreeOf(x.tables, p), BOUNDARIES)
    ensures Inspected(EnvOf(x, p), Starts(CodeOf(x.tables, p), 0, s), s, false, s, u) <==> u == s
  {
    hide CodeOf, Starts, ToKet, Decode, Sealed, Proper, WithoutAt, Without, PlacesOf, DepthOf, AllConfined, Touched;
    var area := Area(PlacesOf(x.tables, p), 0);
    CompiledSealed(x, p, false, 0);
    CodeWithout(x, p, BOUNDARIES);
    assert Startable(EnvOf(x, p), area, 0, s);
    NoReverseAtStart(x, p);
    StartsHere(CodeOf(x.tables, p), 0, s);
    HereRun(EnvOf(x, p), area, Starts(CodeOf(x.tables, p), 0, s), s);
  }

  /** What a suspended run reports as inspected is what it depended on: with another subject that is the same
      from there on, the pattern matches the same from the same start, and the run is suspended alike. */
  lemma SameMatches(x: Ctx, y: Ctx, p: PAlts, s: nat, u: nat, j: nat)
    requires InScope(x.tables, p) && ValidPAlts(p) && |CodeOf(x.tables, p)| <= MAX_PATTERN_SIZE && s <= |x.subject| && Undisturbed(x, p)
    requires Agrees(x, y, u) && AllConfined(EnvOf(x, p), Starts(CodeOf(x.tables, p), 0, s), u)
    requires Without(TreeOf(x.tables, p), LINES) || LinesGuarded(EnvOf(x, p), Starts(CodeOf(x.tables, p), 0, s), u)
    ensures MPAlts(y, p, s, j) <==> MPAlts(x, p, s, j)
    ensures var starts := Starts(CodeOf(x.tables, p), 0, s);
            && (Wanting(EnvOf(y, p), starts) <==> Wanting(EnvOf(x, p), starts))
            && forall n :: Reached(EnvOf(y, p), starts, n) <==> Reached(EnvOf(x, p), starts, n)
  {
    hide InScope, CodeOf, TreeOf, MPAlts, Starts, Finishes, Wanting, Reached, AllConfined, LinesGuarded, Without, DepthOf, Firm;
    var env, starts := EnvOf(x, p), Starts(CodeOf(x.tables, p), 0, s);
    if Without(TreeOf(x.tables, p), LINES) {
      Unlined(x, p, s, u);
    }
    assert EnvOf(y, p) == On(env, y);
    SameWanting(env, y, u, starts);
    forall n
      ensures Reached(EnvOf(y, p), starts, n) <==> Reached(env, starts, n)
    {
      SameReached(env, y, u, starts, n);
    }
    SameEnds(env, y, u, starts, j);
    CompiledExactly(x, p, s, j);
    CompiledExactly(y, p, s, j);
  }

  // ----- where the report falls short -----

  const LETTER_F: Atom := Lit(102, false)
  const LETTER_O: Atom := Lit(111, false)

  /** "(?m)^fo" */
  const LINE_FO: PAlts := PLast(BCons(PTest(OP_CIRCM), BCons(PAtom(LETTER_F, false), BCons(PAtom(LETTER_O, false), BNil))))
  const TREE_FO: Alts := Last(Cons(Test(OP_CIRCM), Cons(One(LETTER_F), Cons(One(LETTER_O), Nil))))

  const ONE_O: Branch := BCons(PAtom(LETTER_O, false), BNil)
  const ONE_FO: Branch := BCons(PAtom(LETTER_F, false), ONE_O)

  lemma LineScope(t: CharTables)
    ensures InScope(t, LINE_FO) && TreeOf(t, LINE_FO) == TREE_FO && ValidAlts(TREE_FO) && AltsDepth(TREE_FO) == 0
    ensures Without(TREE_FO, BOUNDARIES) && |EncPattern(TREE_FO)| <= MAX_PATTERN_SIZE
  {
    hide EncPattern;
    LineTree(t);
    NothingCompilable(t);
    CompilableFirst(t, PAtom(LETTER_O, false), BNil);
    CompilableFirst(t, PAtom(LETTER_F, false), ONE_O);
    CompilableFirst(t, PTest(OP_CIRCM), ONE_FO);
  }

  /** Nothing stands in the way of compiling the branch. */
  ghost predicate Compilable(t: CharTables, b: Branch) {
    ValidBranch(b) && SettledBranch(b) && FixedBehindBranch(t, b) && UnwrappedBranch(t, b) && CertainBranch(t, b) && ShortBranch(t, b)
  }

  lemma NothingCompilable(t: CharTables)
    ensures Compilable(t, BNil)
  {
  }

  lemma CompilableFirst(t: CharTables, item: Item, b: Branch)
    requires Compilable(t, b) && ValidItem(item) && (item.PAtom? || item.PTest?)
    ensures Compilable(t, BCons(item, b))
  {
    hide MadePossessive;
    var c := BCons(item, b);
    assert c.head == item && c.tail == b;
    assert Safe(t, item, b) && SettledItem(item) && UnwrappedItem(t, item, b) && CertainItem(t, item);
    assert FixedBehindItem(t, item) && ShortItem(t, item);
    assert ValidBranch(c);
    assert SettledBranch(c);
    assert FixedBehindBranch(t, c);
    assert UnwrappedBranch(t, c);
    assert CertainBranch(t, c);
    assert ShortBranch(t, c);
  }

  lemma LineTree(t: CharTables)
    ensures ValidPAlts(LINE_FO) && TreeOf(t, LINE_FO) == TREE_FO && ValidAlts(TREE_FO) && AltsDepth(TREE_FO) == 0
    ensures Without(TREE_FO, BOUNDARIES) && |EncPattern(TREE_FO)| <= MAX_PATTERN_SIZE
  {
    var two := TREE_FO.branch.tail;
    assert ValidBranch(BNil) && ValidBranch(ONE_O) && ValidBranch(ONE_FO);
    assert ExpandBranch(t, BNil) == Nil && ExpandBranch(t, ONE_O) == two.tail && ExpandBranch(t, ONE_FO) == two;
    assert ValidOps(Nil) && ValidOps(two.tail) && ValidOps(two);
    assert OpsDepth(Nil) == 0 && OpsDepth(two.tail) == 0 && OpsDepth(two) == 0;
    assert WithoutOps(Nil, BOUNDARIES) && WithoutOps(two.tail, BOUNDARIES) && WithoutOps(two, BOUNDARIES);
    assert |EncOps(Nil)| == 0 && |EncOps(two.tail)| == 2 && |EncOps(two)| == 4;
  }

  /** Its code: where the run starts, and the three items. */
  lemma LineCode()
    requires ValidAlts(TREE_FO) && |EncPattern(TREE_FO)| <= MAX_PATTERN_SIZE
    ensures var code := EncPattern(TREE_FO);
            && Starts(code, 0, 1) == [Node(1, 3, 0)]
            && Decode(code, 3) == ITest(OP_CIRCM, 4) && Decode(code, 4) == IOne(LETTER_F, 6) && Decode(code, 6) == IOne(LETTER_O, 8)
  {
    hide Decode, Entries, ToKet, Starts, EncPattern, Heading, EncOps;
    var code := EncPattern(TREE_FO);
    var k := CodeLaidOut(TREE_FO);
    ForwardStarts(code, 0, TREE_FO, OP_KET, 3, k, 1);
    assert Offsets(TREE_FO, false, 3) == [3];
    BracketHeading(code, TREE_FO, k);
    BranchPlaced(code, 0, TREE_FO, false, 3);
    LineItems(code, 3);
  }

  lemma LineItems(code: seq<Byte>, a: nat)
    requires ValidOps(TREE_FO.branch) && Placed(code, a, EncOps(TREE_FO.branch))
    ensures Decode(code, a) == ITest(OP_CIRCM, a + 1) && Decode(code, a + 1) == IOne(LETTER_F, a + 3)
    ensures Decode(code, a + 3) == IOne(LETTER_O, a + 5)
  {
    hide Decode;
    var ops := TREE_FO.branch;
    PlacedOps(code, a, ops.head, ops.tail);
    PlacedOps(code, a + 1, ops.tail.head, ops.tail.tail);
    PlacedOps(code, a + 3, ops.tail.tail.head, Nil);
    DecodeTest(code, a, OP_CIRCM);
    DecodeOne(code, a + 1, LETTER_F);
    DecodeOne(code, a + 3, LETTER_O);
  }

  /** From position 1 of a newline and "f", the pattern's run is suspended and reports that it inspected the
      subject from there; with another first character it would not be. */
  lemma LineBreaks(t: CharTables)
    ensures var x := Ctx(t, [NEWLINE, 102], false, false, false, true, 1, false, false, 1);
            var y := x.(subject := [120, 102]);
            && InScope(t, LINE_FO) && |CodeOf(t, LINE_FO)| <= MAX_PATTERN_SIZE && Agrees(x, y, 1)
            && var env, starts := EnvOf(x, LINE_FO), Starts(CodeOf(t, LINE_FO), 0, 1);
               Inspected(env, starts, 1, false, 1, 1) && Wanting(env, starts) && !Wanting(EnvOf(y, LINE_FO), starts)
  {
    hide Decode, Starts, Reached, DepthOf, InScope, TreeOf, EncPattern, Inspected, AtomAt;
    var x := Ctx(t, [NEWLINE, 102], false, false, false, true, 1, false, false, 1);
    LineScope(t);
    LineCode();
    LineDepth(t);
    HereExactly(x, LINE_FO, 1, 1);
    LineWanting(EnvOf(x, LINE_FO), Starts(CodeOf(t, LINE_FO), 0, 1));
    LineNot(EnvOf(x.(subject := [120, 102]), LINE_FO), Starts(CodeOf(t, LINE_FO), 0, 1));
  }

  lemma LineDepth(t: CharTables)
    requires InScope(t, LINE_FO) && TreeOf(t, LINE_FO) == TREE_FO && ValidAlts(TREE_FO) && AltsDepth(TREE_FO) == 0
    ensures CodeOf(t, LINE_FO) == EncPattern(TREE_FO) && DepthOf(t, LINE_FO) == 0
  {
  }

  predicate LineCoded(code: seq<Byte>) {
    Decode(code, 3) == ITest(OP_CIRCM, 4) && Decode(code, 4) == IOne(LETTER_F, 6) && Decode(code, 6) == IOne(LETTER_O, 8)
  }

  lemma LineWanting(env: Env, starts: seq<Node>)
    requires LineCoded(env.code) && env.ctx.subject == [NEWLINE, 102] && starts == [Node(1, 3, 0)]
    ensures Wanting(env, starts)
  {
    hide Decode, Reached;
    ReachedStart(env, starts, Node(1, 3, 0));
    assert Node(1, 4, 0) in Act(env, Node(1, 3, 0));
    ReachedStep(env, starts, Node(1, 3, 0), Node(1, 4, 0));
    assert Node(2, 6, 0) in Fresh(env.code, env.ctx, Node(1, 4, 0));
    ReachedStep(env, starts, Node(1, 4, 0), Node(2, 6, 0));
    assert Wants(env, Node(2, 6, 0));
  }

  lemma LineNot(env: Env, starts: seq<Node>)
    requires LineCoded(env.code) && env.ctx.subject == [120, 102] && starts == [Node(1, 3, 0)]
    ensures !Wanting(env, starts)
  {
    hide Decode, R;
    forall n | Reached(env, starts, n)
      ensures !Wants(env, n)
    {
      var m: nat, s :| s in starts && R(env, m, s, n);
      if s != n {
        var z := Step(env, m, s, n);
      }
    }
  }
}
