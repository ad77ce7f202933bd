/** What it means that a run is suspended: whether, with more of the subject, the pattern could match beyond
    its end. Said over the pattern's meaning alone. */
module Growth {
  import opened Bytecode
  import opened Tree
  import opened Subject
  import opened Semantics
  import opened Graph
  import opened Closure
  import opened Room
  import opened Scan
  import opened Matcher
  import opened DfaRun
  import opened Pattern
  import opened Expansion
  import opened Preservation
  import opened Refinement
  import opened Possession
  import opened Layout
  import opened Lookahead
  import opened Continue
  import opened Inspection
  import opened Absence
  import Restart
  import Beyond

  /** The subject with more behind it. */
  function Longer(x: Ctx, y: seq<Byte>): Ctx { x.(subject := x.subject + y) }

  /** With some continuation the pattern matches from `s` past the end of the subject. */
  ghost predicate Grows(x: Ctx, p: PAlts, s: nat)
    requires ValidPAlts(p)
  {
    exists y: seq<Byte>, j: nat :: j > |x.subject| && MPAlts(Longer(x, y), p, s, j)
  }

  // ----- tests that more of the subject would open or close -----

  /** A test that fails at `p` and that more of the subject could let pass, without being waited for. */
  predicate Opens(x: Ctx, op: Byte, p: nat) {
    p == |x.subject| && ((op == OP_CIRCM && IsNewline(x.subject, p - 1)) || (op == OP_DOLLM && x.notEol))
  }

  /** A test that holds at `p` but would fail if more followed. */
  predicate Closes(x: Ctx, op: Byte, p: nat) {
    if p == |x.subject| then
      !x.partialHard && (op == OP_EOD || op == OP_EODN || ((op == OP_DOLL || op == OP_DOLLM) && !x.notEol))
    else
      p == |x.subject| - 1 && IsNewline(x.subject, p) && (op == OP_EODN || (op == OP_DOLL && !x.notEol && !x.dollarEndOnly))
  }

  /** These are all such tests, besides those that are waited for. */
  lemma TestExactly(x: Ctx, op: Byte, p: nat)
    requires IsTest(op) && p <= |x.subject| && !Awaits(x, op, p) && !(IsBoundary(op) && p == |x.subject|)
    ensures Opens(x, op, p) <==> !TestHolds(x, op, p) && exists y: seq<Byte> :: TestHolds(Longer(x, y), op, p)
    ensures Closes(x, op, p) <==> TestHolds(x, op, p) && exists y: seq<Byte> :: !TestHolds(Longer(x, y), op, p)
  {
    forall y: seq<Byte>
      ensures !TestHolds(x, op, p) && TestHolds(Longer(x, y), op, p) ==> Opens(x, op, p)
      ensures TestHolds(x, op, p) && !TestHolds(Longer(x, y), op, p) ==> Closes(x, op, p)
    {
      SameBefore(x, y, op, p);
    }
    assert Longer(x, [NEWLINE]).subject[..|x.subject|] == x.subject;
    if Opens(x, op, p) {
      assert TestHolds(Longer(x, [NEWLINE]), op, p);
    }
    if Closes(x, op, p) {
      assert !TestHolds(Longer(x, [NEWLINE + 1]), op, p);
    }
  }

  lemma SameBefore(x: Ctx, y: seq<Byte>, op: Byte, p: nat)
    requires IsTest(op) && p <= |x.subject| && !Awaits(x, op, p) && !(IsBoundary(op) && p == |x.subject|)
    ensures !TestHolds(x, op, p) && TestHolds(Longer(x, y), op, p) ==> Opens(x, op, p)
    ensures TestHolds(x, op, p) && !TestHolds(Longer(x, y), op, p) ==> Closes(x, op, p)
  {
    var w := Longer(x, y);
    assert forall k | 0 <= k < |x.subject| :: w.subject[k] == x.subject[k];
  }

  /** At the end of the subject a run waits for more at a test, other than for an end or the start of a line, exactly if
      the next character decides it. */
  lemma BoundaryExactly(x: Ctx, op: Byte, next: nat, c: Byte)
    requires IsTest(op) && op != OP_EOD && op != OP_EODN && op != OP_DOLL && op != OP_DOLLM && op != OP_CIRCM && x.tables.word[c]
    ensures Inspects(ITest(op, next)) || Awaits(x, op, |x.subject|) <==>
      exists y: seq<Byte> :: TestHolds(Longer(x, y), op, |x.subject|) != TestHolds(x, op, |x.subject|)
  {
    var n := |x.subject|;
    forall y: seq<Byte>
      ensures !IsBoundary(op) ==> TestHolds(Longer(x, y), op, n) == TestHolds(x, op, n)
    {
      if !IsBoundary(op) { SameBefore(x, y, op, n); }
    }
    var w := Longer(x, [c]);
    assert WordAt(w, n) && !WordAt(x, n) && WordAt(w, n - 1) == WordAt(x, n - 1);
    if IsBoundary(op) {
      assert TestHolds(Longer(x, [c]), op, n) != TestHolds(x, op, n);
    }
  }

  // ----- a run that is not suspended depends on nothing that may follow -----

  /** The run comes to no test that more of the subject would open, */
  ghost predicate Unopened(env: Env, starts: seq<Node>) {
    forall n :: Reached(env, starts, n) ==> Still(env, n, true)
  }

  /** or would close. */
  ghost predicate Unclosed(env: Env, starts: seq<Node>) {
    forall n :: Reached(env, starts, n) ==> Still(env, n, false)
  }

  ghost predicate Still(env: Env, n: Node, open: bool) {
    match Decode(env.code, n.off)
    case ITest(op, _) => if open then !Opens(env.ctx, op, n.pos) else !Closes(env.ctx, op, n.pos)
    case _ => true
  }

  /** Where nothing is waited for, more of the subject changes only what such a test lets pass. */
  lemma MoreSteps(env: Env, y: seq<Byte>, z: Node)
    requires !Wants(env, z) && !Decode(env.code, z.off).ILook? && z.pos <= |env.ctx.subject|
    ensures var long := Over(env, y);
            && (Still(env, z, true) ==> forall w | w in Succs(long, z) :: w in Succs(env, z))
            && (Still(env, z, false) ==> forall w | w in Succs(env, z) :: w in Succs(long, z))
  {
    hide Decode, Entries, MatchesHere, TestHolds, Opens, Closes, Heads, LookHolds;
    DecodedTest(env.code, z.off);
    match Decode(env.code, z.off)
    case ITest(op, _) => SameBefore(env.ctx, y, op, z.pos);
    case IOne(a, _) => CharBefore(env.ctx, y, a, z.pos);
    case IRep(a, _, _, _, _) => CharBefore(env.ctx, y, a, z.pos);
    case _ =>
  }

  lemma CharBefore(x: Ctx, y: seq<Byte>, a: Atom, p: nat)
    requires ValidAtom(a) && p < |x.subject|
    ensures MatchesHere(Longer(x, y), a, p) == MatchesHere(x, a, p)
  {
  }

  lemma DecodedTest(code: seq<Byte>, o: nat)
    ensures Decode(code, o).ITest? ==> IsTest(Decode(code, o).op)
  {
  }

  function Over(env: Env, y: seq<Byte>): Env { env.(ctx := Longer(env.ctx, y)) }

  lemma {:induction false} MorePath(env: Env, area: Area, starts: seq<Node>, y: seq<Byte>, m: nat, z: Node, e: Node)
    requires env.depth == 0 && Sealed(env.code, area.places, false) && Decode(env.code, env.end).IKet? && Proper(env, area, {z})
    requires Reached(env, starts, z) && !Wanting(env, starts)
    ensures Unopened(env, starts) ==> R(Over(env, y), m, z, e) ==> R(env, m, z, e)
    ensures Unclosed(env, starts) ==> R(env, m, z, e) ==> R(Over(env, y), m, z, e)
    decreases m
  {
    hide Act, Fresh, Sealed, Proper, Reached, Decode, Wants, Succs, Still;
    var long := Over(env, y);
    if m > 0 {
      assert !Wants(env, z);
      NoLook(env, area, z);
      MoreSteps(env, y, z);
      if Unopened(env, starts) && R(long, m, z, e) {
        var w :| w in Succs(long, z) && R(long, m - 1, w, e);
        MoreOn(env, area, starts, z, w);
        MorePath(env, area, starts, y, m - 1, w, e);
      }
      if Unclosed(env, starts) && R(env, m, z, e) {
        var w :| w in Succs(env, z) && R(env, m - 1, w, e);
        MoreOn(env, area, starts, z, w);
        MorePath(env, area, starts, y, m - 1, w, e);
      }
    }
  }

  lemma MoreOn(env: Env, area: Area, starts: seq<Node>, z: Node, w: Node)
    requires Sealed(env.code, area.places, false) && Decode(env.code, env.end).IKet? && Proper(env, area, {z})
    requires Reached(env, starts, z) && w in Succs(env, z)
    ensures Proper(env, area, {w}) && Reached(env, starts, w)
  {
    hide Act, Fresh, Sealed, Proper, Reached, Decode;
    StepProper(env, area, z, false);
    ReachedStep(env, starts, z, w);
    OneOf(env, area, w, if w in Act(env, z) then Act(env, z) else Fresh(env.code, env.ctx, z));
  }

  /** If the run of a pattern without assertions is not to be suspended, nothing is lost by going on without more
      of the subject: what the pattern matches then it matches now, in particular nothing beyond the end, if
      the run comes to no test that more would open; and nothing is to be taken back if to none that it would close. */
  lemma NothingMore(x: Ctx, p: PAlts, s: nat, y: seq<Byte>, j: nat)
    requires InScope(x.tables, p) && ValidPAlts(p) && |CodeOf(x.tables, p)| <= MAX_PATTERN_SIZE && s <= |x.subject|
    requires DepthOf(x.tables, p) == 0 && !Wanting(EnvOf(x, p), Starts(CodeOf(x.tables, p), 0, s))
    ensures Unopened(EnvOf(x, p), Starts(CodeOf(x.tables, p), 0, s)) ==> MPAlts(Longer(x, y), p, s, j) ==> MPAlts(x, p, s, j)
    ensures Unclosed(EnvOf(x, p), Starts(CodeOf(x.tables, p), 0, s)) ==> MPAlts(x, p, s, j) ==> MPAlts(Longer(x, y), p, s, j)
  {
    hide InScope, CodeOf, TreeOf, MPAlts, Starts, Finishes, DepthOf, Sealed, Proper, R, Wanting, Reached, Decode, PlacesOf, Unopened, Unclosed;
    var w, env, starts, area := Longer(x, y), EnvOf(x, p), Starts(CodeOf(x.tables, p), 0, s), Area(PlacesOf(x.tables, p), 0);
    FreeDepth(x.tables, p);
    FreeFirm(x.tables, p);
    CompiledExactly(x, p, s, j);
    CompiledExactly(w, p, s, j);
    CompiledSealed(x, p, false, 0);
    assert Startable(env, area, 0, s);
    forall m: nat, t | t in starts
      ensures Unopened(env, starts) ==> R(Over(env, y), m, t, Node(j, env.end, 0)) ==> R(env, m, t, Node(j, env.end, 0))
      ensures Unclosed(env, starts) ==> R(env, m, t, Node(j, env.end, 0)) ==> R(Over(env, y), m, t, Node(j, env.end, 0))
    {
      ReachedStart(env, starts, t);
      OneOf(env, area, t, starts);
      MorePath(env, area, starts, y, m, t, Node(j, env.end, 0));
    }
    if Unopened(env, starts) { FinishAlso(Over(env, y), env, starts, j); }
    if Unclosed(env, starts) { FinishAlso(env, Over(env, y), starts, j); }
  }

  lemma FinishAlso(first: Env, second: Env, starts: seq<Node>, j: nat)
    requires first.end == second.end
    requires forall m: nat, t | t in starts :: R(first, m, t, Node(j, first.end, 0)) ==> R(second, m, t, Node(j, first.end, 0))
    ensures Finishes(first, starts, j) ==> Finishes(second, starts, j)
  {
    hide R;
    if Finishes(first, starts, j) {
      var m, t := FinishesElim(first, starts, j);
    }
  }

  const OPENING: set<Byte> := {OP_CIRCM, OP_DOLLM}

  /** A pattern without multiline ^ and $ comes to no test that more would open. */
  lemma NoneOpens(x: Ctx, p: PAlts, s: nat)
    requires InScope(x.tables, p) && |CodeOf(x.tables, p)| <= MAX_PATTERN_SIZE && s <= |x.subject| && Without(TreeOf(x.tables, p), OPENING)
    ensures Unopened(EnvOf(x, p), Starts(CodeOf(x.tables, p), 0, s))
  {
    hide CodeOf, Starts, Decode, Sealed, Proper, Without, PlacesOf, DepthOf, Reached, TreeOf, InScope, WithoutAt;
    var env, area, starts := EnvOf(x, p), Area(PlacesOf(x.tables, p), 0), Starts(CodeOf(x.tables, p), 0, s);
    CompiledSealed(x, p, false, 0);
    CodeWithout(x, p, OPENING);
    assert Startable(env, area, 0, s);
    EnvFacts(x, p);
    forall n | Reached(env, starts, n)
      ensures Still(env, n, true)
    {
      ReachedProper(env, area, starts, n);
      if Decode(env.code, n.off).ITest? {
        InPlaces(env, area, n);
        OpensNot(env, Place(n.off, env.depth, env.end), n);
      }
    }
  }

  lemma OpensNot(env: Env, x: Place, n: Node)
    requires WithoutAt(env.code, x.off, OPENING) && x.off == n.off
    ensures Still(env, n, true)
  {
    hide Decode;
  }

  /** The environments of a run over the subject, over what follows, and over both. */
  lemma LongerJoined(x: Ctx, p: PAlts, y: seq<Byte>)
    requires InScope(x.tables, p)
    ensures Restart.Joined(EnvOf(Longer(x, y), p), EnvOf(x, p), EnvOf(x.(subject := y), p))
  {
    hide CodeOf, DepthOf;
  }

  lemma PlainRun(x: Ctx, p: PAlts, s: nat)
    requires InScope(x.tables, p) && |CodeOf(x.tables, p)| <= MAX_PATTERN_SIZE && s <= |x.subject| && MovableAlts(TreeOf(x.tables, p))
    ensures var env, area := EnvOf(x, p), Area(PlacesOf(x.tables, p), 0);
            Restart.Plain(env, area) && forall t | t in Starts(CodeOf(x.tables, p), 0, s) :: Restart.Ahead(env, area, t) && t.pos <= s
  {
    hide CodeOf, PlacesOf, Starts, Decode, Sealed, Proper, DepthOf;
    CompiledSealed(x, p, true, 0);
    var env, area := EnvOf(x, p), Area(PlacesOf(x.tables, p), 0);
    Restart.StartsPlaceable(env, env, area, s);
    StartsFrom(x, p, s);
  }

  lemma StartsFrom(x: Ctx, p: PAlts, s: nat)
    requires InScope(x.tables, p) && |CodeOf(x.tables, p)| <= MAX_PATTERN_SIZE
    ensures forall t | t in Starts(CodeOf(x.tables, p), 0, s) :: t.pos <= s
  {
    StartsInside(CodeOf(x.tables, p), 0, s);
  }

  /** If a pattern without assertions and without multiline ^ and $ matches past the end of the subject when
      more of it is there, then its run is to be suspended: nothing is lost by going on without. */
  lemma GrowsWanting(x: Ctx, p: PAlts, s: nat)
    requires InScope(x.tables, p) && ValidPAlts(p) && |CodeOf(x.tables, p)| <= MAX_PATTERN_SIZE && s <= |x.subject|
    requires Without(TreeOf(x.tables, p), OPENING) && DepthOf(x.tables, p) == 0 && Grows(x, p, s)
    ensures Wanting(EnvOf(x, p), Starts(CodeOf(x.tables, p), 0, s))
  {
    hide InScope, CodeOf, TreeOf, MPAlts, Starts, EnvOf, DepthOf, Without, Wanting, Unopened;
    var y: seq<Byte>, j: nat :| j > |x.subject| && MPAlts(Longer(x, y), p, s, j);
    NoneOpens(x, p, s);
    if !Wanting(EnvOf(x, p), Starts(CodeOf(x.tables, p), 0, s)) {
      NothingMore(x, p, s, y, j);
      SpanPAlts(x, p, s, j);
    }
  }

  lemma EnvFacts(x: Ctx, p: PAlts)
    requires InScope(x.tables, p)
    ensures EnvOf(x, p).ctx == x && EnvOf(x, p).code == CodeOf(x.tables, p) && EnvOf(x, p).depth == DepthOf(x.tables, p)
  {
    hide CodeOf, DepthOf;
  }

  // ----- the end that partial matching does not take for one -----

  /** With the hard option, a test awaits more exactly if the end of the subject would be an end for it. */
  lemma AwaitsExactly(x: Ctx, op: Byte, p: nat)
    requires IsTest(op) && x.partialHard
    ensures Awaits(x, op, p) <==> TestHolds(x.(partialHard := false), op, p) && !TestHolds(x, op, p)
  {
  }

  /** The same subject without the option. */
  function Soft(x: Ctx): Ctx { x.(partialHard := false) }

  /** Elsewhere the option makes no difference. */
  lemma SameUnlessAwaited(hard: Env, z: Node)
    requires !Wants(hard, z) && !Decode(hard.code, z.off).ILook?
    ensures var soft := hard.(ctx := Soft(hard.ctx));
            Act(soft, z) == Act(hard, z) && Fresh(soft.code, soft.ctx, z) == Fresh(hard.code, hard.ctx, z)
  {
    hide Decode, Entries, AtomAt;
    var ins := Decode(hard.code, z.off);
    if ins.ITest? && IsTest(ins.op) && hard.ctx.partialHard {
      AwaitsExactly(hard.ctx, ins.op, z.pos);
    }
  }

  /** A run without assertions in which nothing is awaited takes the same steps without the option. */
  lemma {:induction false} SoftPath(hard: Env, area: Area, starts: seq<Node>, m: nat, z: Node, e: Node)
    requires hard.depth == 0 && Sealed(hard.code, area.places, false) && Decode(hard.code, hard.end).IKet? && Proper(hard, area, {z})
    requires Reached(hard, starts, z) && !Wanting(hard, starts)
    ensures R(hard.(ctx := Soft(hard.ctx)), m, z, e) <==> R(hard, m, z, e)
    decreases m
  {
    hide Act, Fresh, Sealed, Proper, Reached, Decode, Wants;
    var soft := hard.(ctx := Soft(hard.ctx));
    if m > 0 {
      assert !Wants(hard, z);
      NoLook(hard, area, z);
      SameUnlessAwaited(hard, z);
      assert Succs(soft, z) == Succs(hard, z);
      StepProper(hard, area, z, false);
      forall z1 | z1 in Succs(hard, z)
        ensures R(soft, m - 1, z1, e) <==> R(hard, m - 1, z1, e)
      {
        ReachedStep(hard, starts, z, z1);
        OneOf(hard, area, z1, if z1 in Act(hard, z) then Act(hard, z) else Fresh(hard.code, hard.ctx, z));
        SoftPath(hard, area, starts, m - 1, z1, e);
      }
    }
  }

  lemma NoLook(env: Env, area: Area, z: Node)
    requires env.depth == 0 && Sealed(env.code, area.places, false) && Decode(env.code, env.end).IKet? && Proper(env, area, {z})
    ensures !Decode(env.code, z.off).ILook? && z.pos <= |env.ctx.subject|
  {
    hide Decode, Sealed, Starts, Counts;
    if z.off != env.end && Decode(env.code, z.off).ILook? {
      assert Place(z.off, env.depth, env.end) in area.places;
      LookPlace(env, area, false, z.pos, z.off, Decode(env.code, z.off).op, Decode(env.code, z.off).next);
    }
  }

  /** A run of a pattern without assertions that is not suspended finds what it would find if the end of the
      subject were known to be the end. */
  lemma NoneAwaited(x: Ctx, p: PAlts, s: nat, j: nat)
    requires InScope(x.tables, p) && ValidPAlts(p) && |CodeOf(x.tables, p)| <= MAX_PATTERN_SIZE && s <= |x.subject|
    requires DepthOf(x.tables, p) == 0 && !Wanting(EnvOf(x, p), Starts(CodeOf(x.tables, p), 0, s))
    ensures MPAlts(Soft(x), p, s, j) <==> MPAlts(x, p, s, j)
  {
    hide InScope, CodeOf, TreeOf, MPAlts, Starts, Finishes, DepthOf, Sealed, Proper, R, Wanting, Reached, Decode, PlacesOf;
    var hard, soft, starts, area := EnvOf(x, p), EnvOf(Soft(x), p), Starts(CodeOf(x.tables, p), 0, s), Area(PlacesOf(x.tables, p), 0);
    FreeDepth(x.tables, p);
    FreeFirm(x.tables, p);
    CompiledExactly(x, p, s, j);
    CompiledExactly(Soft(x), p, s, j);
    CompiledSealed(x, p, false, 0);
    assert Startable(hard, area, 0, s);
    EnvFacts(x, p);
    forall m: nat, t | t in starts
      ensures R(soft, m, t, Node(j, hard.end, 0)) <==> R(hard, m, t, Node(j, hard.end, 0))
    {
      ReachedStart(hard, starts, t);
      OneOf(hard, area, t, starts);
      SoftPath(hard, area, starts, m, t, Node(j, hard.end, 0));
    }
    SameFinish(hard, soft, starts, j);
  }

  lemma SameFinish(first: Env, second: Env, starts: seq<Node>, j: nat)
    requires first.end == second.end
    requires forall m: nat, t | t in starts :: R(second, m, t, Node(j, first.end, 0)) <==> R(first, m, t, Node(j, first.end, 0))
    ensures Finishes(first, starts, j) <==> Finishes(second, starts, j)
  {
    hide R;
  }

  // ----- a run that is suspended can be continued -----

  /** Characters, repeats that are not possessive by themselves, and groups; and each has a character to match. */
  ghost predicate Live(t: CharTables, al: PAlts)
    requires ValidPAlts(al)
    decreases al, 1
  {
    LiveBranch(t, al.branch) && (al.PMore? ==> Live(t, al.rest))
  }

  ghost predicate LiveBranch(t: CharTables, b: Branch)
    requires ValidBranch(b)
    decreases b, 0
  {
    b.BCons? ==> LiveItem(t, b.head) && LiveBranch(t, b.tail)
  }

  ghost predicate LiveItem(t: CharTables, item: Item)
    requires ValidItem(item)
    decreases item, 0
  {
    match item
    case PAtom(a, _) => Some(t, a)
    case PRep(a, q) => q.greed != Possessive && Some(t, a)
    case PGroup(_, body) => Live(t, body)
    case PGroupRep(_, body, _) => Live(t, body)
    case _ => false
  }

  predicate Yielding(ops: Ops) { ops.Cons? ==> !Unyielding(ops.head) && Yielding(ops.tail) }

  lemma OpenAppend(t: CharTables, a: Ops, b: Ops)
    requires ValidOps(a) && ValidOps(b) && ValidOps(Append(a, b)) && OpenOps(t, a) && Yielding(a) && OpenOps(t, b)
    ensures OpenOps(t, Append(a, b))
    decreases a
  {
    hide OpenOp;
    if a.Cons? {
      assert Append(a, b) == Cons(a.head, Append(a.tail, b));
      OpenAppend(t, a.tail, b);
    }
  }

  lemma OpenCopies(t: CharTables, g: Op, n: nat, rest: Ops)
    requires ValidOp(g) && g.Bra? && OpenOp(t, g) && ValidOps(rest) && OpenOps(t, rest) && Yielding(rest)
    ensures ValidOps(Copies(g, n, rest)) && OpenOps(t, Copies(g, n, rest)) && Yielding(Copies(g, n, rest))
    decreases n
  {
    hide OpenOp, ValidOp;
    if n > 0 {
      OpenCopies(t, g, n - 1, rest);
    }
  }

  lemma OpenOptional(t: CharTables, g: Op, m: nat, lazy: bool)
    requires ValidOp(g) && g.Bra? && OpenOp(t, g)
    ensures ValidOps(Optional(g, m, lazy)) && OpenOps(t, Optional(g, m, lazy)) && Yielding(Optional(g, m, lazy))
    decreases m
  {
    assert ValidOps(Nil) && OpenOps(t, Nil) && Yielding(Nil);
    if m == 1 {
      OpenOne(t, Zero(lazy, g));
    } else if m > 1 {
      OpenOptional(t, g, m - 1, lazy);
      var nest := Cons(g, Optional(g, m - 1, lazy));
      assert ValidOps(nest) && OpenOps(t, nest);
      assert ValidAlts(Last(nest)) && OpenAlts(t, Last(nest));
      var bra := Bra(OP_BRA, 0, Last(nest), OP_KET);
      assert ValidOp(bra) && OpenOp(t, bra);
      OpenOne(t, Zero(lazy, bra));
    }
  }

  lemma OpenOne(t: CharTables, op: Op)
    requires ValidOp(op) && OpenOp(t, op) && !op.Rep?
    ensures ValidOps(Cons(op, Nil)) && OpenOps(t, Cons(op, Nil)) && Yielding(Cons(op, Nil))
  {
    assert ValidOps(Nil) && OpenOps(t, Nil) && Yielding(Nil);
  }

  lemma OpenGroup(t: CharTables, g: Op, q: Quant)
    requires ValidOp(g) && g.Bra? && (g.op == OP_BRA || g.op == OP_CBRA) && ValidQuant(q) && OpenOp(t, g)
    ensures ValidOps(ExpandGroup(g, q)) && OpenOps(t, ExpandGroup(g, q)) && Yielding(ExpandGroup(g, q))
  {
    hide OpenAlts, ValidAlts;
    var lazy := q.greed == Lazy;
    var loop := Looped(g, lazy);
    assert ValidOp(loop) && OpenOp(t, loop);
    OpenOne(t, loop);
    if q.max == 0 {
      OpenOne(t, Skip(g));
    } else if q.max < 0 {
      if q.min == 0 {
        OpenOne(t, Zero(lazy, loop));
      } else {
        OpenCopies(t, g, q.min - 1, Cons(loop, Nil));
      }
    } else {
      OpenOptional(t, g, q.max - q.min, lazy);
      OpenCopies(t, g, q.min, Optional(g, q.max - q.min, lazy));
    }
  }

  /** A repeat that is not possessive. */
  lemma OpenRepeat(t: CharTables, a: Atom, q: Quant)
    requires ValidAtom(a) && ValidQuant(q) && q.greed != Possessive && Some(t, a)
    ensures var ops := if a.Class? then ExpandClass(a, q) else ExpandChar(a, q, false);
            ValidOps(ops) ==> OpenOps(t, ops) && Yielding(ops)
  {
    var ops := if a.Class? then ExpandClass(a, q) else ExpandChar(a, q, false);
    assert OpenOps(t, Nil) && Yielding(Nil);
    if ops.Cons? && ValidOps(ops) {
      assert ValidOps(ops.tail) && !Unyielding(ops.head);
      if ops.tail.Cons? {
        assert ops.tail.tail == Nil && ValidOp(ops.tail.head) && OpenOp(t, ops.tail.head) && !Unyielding(ops.tail.head);
        assert OpenOps(t, ops.tail) && Yielding(ops.tail);
      }
    }
  }

  /** What stands behind a repeat that the compiler makes possessive stops it. */
  lemma StopsIt(t: CharTables, a: Atom, rest: Branch)
    requires ValidAtom(a) && ValidBranch(rest) && AutoPossessive(t, a, rest) && SameSetting(a, rest) && !CanSkip(rest.head)
    requires ValidOps(ExpandBranch(t, rest))
    ensures var ops := ExpandBranch(t, rest); ops.Cons? && ValidOp(ops.head) && Barring(t, a, ops.head)
  {
    hide Excludes, AtomAt, MadePossessive;
    var b := rest.head.atom;
    forall c: Byte | AtomAt(t, b, c)
      ensures !AtomAt(t, a, c)
    {
      Disjoint(t, a, b, c);
    }
    assert !b.Class? by { NotClass(t, a, b); }
    var ops := ExpandItem(t, rest.head, rest.tail);
    assert ops.Cons? && ops.head.atom == b && (ops.head.One? || RepBounds(b, ops.head.form, ops.head.n, ops.head.m).lo > 0);
    assert Append(ops, ExpandBranch(t, rest.tail)) == Cons(ops.head, Append(ops.tail, ExpandBranch(t, rest.tail)));
  }

  lemma NotClass(t: CharTables, a: Atom, b: Atom)
    requires Excludes(t, a, b)
    ensures !b.Class?
  {
  }

  /** A repeat with that behind it. */
  lemma OpenPossessive(t: CharTables, a: Atom, q: Quant, tail: Ops)
    requires ValidAtom(a) && ValidQuant(q) && q.max < 0 && !a.Class? && Some(t, a)
    requires ValidOps(tail) && OpenOps(t, tail) && tail.Cons? && Barring(t, a, tail.head)
    requires ValidOps(Append(ExpandChar(a, q, true), tail))
    ensures OpenOps(t, Append(ExpandChar(a, q, true), tail))
  {
    hide Barring;
    var ops := ExpandChar(a, q, true);
    if q.min < 2 {
      assert ops == Cons(ops.head, Nil) && Append(ops, tail) == Cons(ops.head, tail);
    } else {
      assert ops.tail.Cons? && ops.tail.tail == Nil;
      assert Append(ops.tail, tail) == Cons(ops.tail.head, tail);
      assert Append(ops, tail) == Cons(ops.head, Cons(ops.tail.head, tail));
      assert ValidOps(Cons(ops.tail.head, tail)) && OpenOps(t, Cons(ops.tail.head, tail));
    }
  }

  lemma {:induction false} OpenBranch(t: CharTables, b: Branch)
    requires ValidBranch(b) && LiveBranch(t, b) && CertainBranch(t, b) && SettledBranch(b)
    requires FixedBehindBranch(t, b) && UnwrappedBranch(t, b)
    ensures ValidOps(ExpandBranch(t, b)) && OpenOps(t, ExpandBranch(t, b))
    decreases b, 0
  {
    hide OpenOps, OpenOp, ExpandChar, ExpandClass, ExpandGroup, AutoPossessive;
    ValidBranchTree(t, b);
    if b.BNil? {
      OpenNil(t);
    } else {
      var ops, tail := ExpandItem(t, b.head, b.tail), ExpandBranch(t, b.tail);
      ValidItemTree(t, b.head, b.tail);
      OpenBranch(t, b.tail);
      match b.head {
        case PAtom(a, _) => OpenSingle(t, a);
        case PRep(a, q) =>
          if MadePossessive(t, a, q, b.tail) {
            StopsIt(t, a, b.tail);
            OpenPossessive(t, a, q, tail);
          } else {
            OpenRepeat(t, a, q);
          }
        case PGroup(cap, body) =>
          OpenTree(t, body);
          OpenBody(t, cap, TreeOf(t, body));
        case PGroupRep(cap, body, q) =>
          OpenRest(t, cap, body, q);
      }
      if Yielding(ops) && OpenOps(t, ops) {
        OpenAppend(t, ops, tail);
      }
    }
  }

  lemma OpenNil(t: CharTables)
    ensures OpenOps(t, Nil)
  {
  }

  lemma OpenSingle(t: CharTables, a: Atom)
    requires ValidAtom(a) && Some(t, a)
    ensures ValidOps(Cons(One(a), Nil)) && OpenOps(t, Cons(One(a), Nil)) && Yielding(Cons(One(a), Nil))
  {
    assert ValidOps(Nil) && OpenOps(t, Nil) && Yielding(Nil);
  }

  lemma OpenBody(t: CharTables, cap: nat, body: Alts)
    requires ValidAlts(body) && OpenAlts(t, body) && cap < 0x10000
    ensures var g := Group(cap, body);
            ValidOp(g) && OpenOp(t, g) && ValidOps(Cons(g, Nil)) && OpenOps(t, Cons(g, Nil)) && Yielding(Cons(g, Nil))
  {
    OpenOne(t, Group(cap, body));
  }

  lemma {:induction false} OpenRest(t: CharTables, cap: nat, body: PAlts, q: Quant)
    requires ValidItem(PGroupRep(cap, body, q)) && Live(t, body) && Certain(t, body) && Settled(body)
    requires FixedBehind(t, body) && Unwrapped(t, body)
    ensures ValidOps(ExpandGroup(Group(cap, TreeOf(t, body)), q))
    ensures OpenOps(t, ExpandGroup(Group(cap, TreeOf(t, body)), q)) && Yielding(ExpandGroup(Group(cap, TreeOf(t, body)), q))
    decreases body, 2
  {
    hide OpenOps, OpenOp, ExpandGroup, TreeOf;
    OpenTree(t, body);
    OpenBody(t, cap, TreeOf(t, body));
    OpenGroup(t, Group(cap, TreeOf(t, body)), q);
  }

  /** Such a pattern has a tree from any place of which some continuation leads to the end. */
  lemma {:induction false} OpenTree(t: CharTables, al: PAlts)
    requires ValidPAlts(al) && Live(t, al) && Certain(t, al) && Settled(al) && FixedBehind(t, al) && Unwrapped(t, al)
    ensures ValidAlts(TreeOf(t, al)) && OpenAlts(t, TreeOf(t, al))
    decreases al, 1
  {
    hide OpenOps, ExpandBranch;
    ValidTree(t, al);
    OpenBranch(t, al.branch);
    if al.PMore? {
      OpenTree(t, al.rest);
    }
  }

  /** The run of such a pattern over a subject, or over a longer one. */
  lemma OpenRun(x: Ctx, p: PAlts, s: nat)
    requires InScope(x.tables, p) && ValidPAlts(p) && |CodeOf(x.tables, p)| <= MAX_PATTERN_SIZE && s <= |x.subject| && Live(x.tables, p)
    ensures MovableAlts(TreeOf(x.tables, p)) && DepthOf(x.tables, p) == 0
    ensures forall y: seq<Byte> :: EnvOf(Longer(x, y), p) == EnvOf(x, p).(ctx := Longer(x, y))
  {
    hide CodeOf;
    OpenTree(x.tables, p);
    OpenMovable(x.tables, TreeOf(x.tables, p));
  }

  /** From any state of its run some continuation leads to the end of the pattern. */
  lemma SomeWay(x: Ctx, p: PAlts, z: Node) returns (w: seq<Byte>)
    requires InScope(x.tables, p) && ValidPAlts(p) && |CodeOf(x.tables, p)| <= MAX_PATTERN_SIZE && Live(x.tables, p)
    requires Restart.Ahead(EnvOf(x, p), Area(PlacesOf(x.tables, p), 0), z)
    ensures LeadsTo(EnvOf(x, p), z.off, z.cnt, w, EnvOf(x, p).end) && Decode(CodeOf(x.tables, p), EnvOf(x, p).end).IKet?
    ensures Inspects(Decode(CodeOf(x.tables, p), z.off)) ==> |w| > 0
  {
    hide Starts, ToKet, Entries, Decode, Bracketed, Offsets, Heading, EncPattern, EncAlts, LeadsTo, Counts, AltsSet, OpenAlts, Live, InScope;
    var t, al, env := x.tables, TreeOf(x.tables, p), EnvOf(x, p);
    Beyond.TreeValid(t, p);
    ScopeParts(t, p);
    OpenTree(t, p);
    var k := CodeLaidOut(al);
    KetOf(env.code, al, k);
    BracketHeading(env.code, al, k);
    if z.off == k {
      w := [];
      LeadsNowhere(env, k, z.cnt);
    } else {
      w := FinishAlts(env, 0, al, 1 + LINK_SIZE, z.off, z.cnt, z.pos);
    }
  }

  lemma ScopeParts(t: CharTables, p: PAlts)
    requires InScope(t, p)
    ensures ValidPAlts(p) && Certain(t, p) && Settled(p) && FixedBehind(t, p) && Unwrapped(t, p)
  {
  }

  lemma LeadsNowhere(env: Env, k: nat, cnt: nat)
    requires cnt == 0
    ensures LeadsTo(env, k, cnt, [], k)
  {
    forall x: Ctx, i: nat | x.tables == env.ctx.tables && Reads(x, i, [])
      ensures Goes(env.(ctx := x), Node(i, k, cnt), Node(i + 0, k, 0))
    {
      assert R(env.(ctx := x), 0, Node(i, k, 0), Node(i, k, 0));
    }
  }

  /** Where nothing is awaited, more of the subject changes nothing. */
  lemma SameStep(whole: Env, first: Env, second: Env, area: Area, z: Node, z1: Node)
    requires Restart.Joined(whole, first, second) && Restart.Plain(whole, area) && Restart.Ahead(whole, area, z)
    requires z.pos <= |first.ctx.subject| && !Decode(first.code, z.off).ITest? && !Wants(first, z)
    requires z1 in Act(first, z) || z1 in Fresh(first.code, first.ctx, z)
    ensures z1 in Act(whole, z) || z1 in Fresh(whole.code, whole.ctx, z)
  {
    hide Decode, Entries, AtomAt;
    Restart.PlainAt(whole, area, z);
    if z.pos < |first.ctx.subject| {
      Restart.SameBefore(whole, first, second, area, z);
    }
  }

  /** The first state on the way to one that wants more is reached whatever follows. */
  lemma {:induction false} FirstWant(x: Ctx, p: PAlts, s: nat, m: nat, z: Node, n: Node) returns (u: Node)
    requires InScope(x.tables, p) && ValidPAlts(p) && |CodeOf(x.tables, p)| <= MAX_PATTERN_SIZE && s <= |x.subject| && Live(x.tables, p)
    requires Restart.Ahead(EnvOf(x, p), Area(PlacesOf(x.tables, p), 0), z) && R(EnvOf(x, p), m, z, n) && Wants(EnvOf(x, p), n)
    requires forall y: seq<Byte> :: Reached(EnvOf(Longer(x, y), p), Starts(CodeOf(x.tables, p), 0, s), z)
    ensures Restart.Ahead(EnvOf(x, p), Area(PlacesOf(x.tables, p), 0), u) && Wants(EnvOf(x, p), u)
    ensures forall y: seq<Byte> :: Reached(EnvOf(Longer(x, y), p), Starts(CodeOf(x.tables, p), 0, s), u)
    decreases m
  {
    hide InScope, CodeOf, TreeOf, Starts, EnvOf, DepthOf, Live, Restart.Plain, Restart.Ahead, Restart.Joined, R, Reached, Wants, Decode,
      Act, Fresh, PlacesOf, MovableAlts, LeadsTo;
    var first, area, starts := EnvOf(x, p), Area(PlacesOf(x.tables, p), 0), Starts(CodeOf(x.tables, p), 0, s);
    OpenRun(x, p, s);
    PlainRun(x, p, s);
    EnvFacts(x, p);
    if Wants(first, z) {
      u := z;
    } else {
      var z1 := Stepped(first, m, z, n);
      Restart.SuccProper(first, area, z, z1);
      NodeFacts(x, p, z);
      forall y: seq<Byte>
        ensures Reached(EnvOf(Longer(x, y), p), starts, z1)
      {
        var w := Longer(x, y);
        PlainRun(w, p, s);
        LongerJoined(x, p, y);
        EnvFacts(w, p);
        AheadLonger(x, p, y, z);
        SameStep(EnvOf(w, p), first, EnvOf(x.(subject := y), p), area, z, z1);
        ReachedStep(EnvOf(w, p), starts, z, z1);
      }
      u := FirstWant(x, p, s, m - 1, z1, n);
    }
  }

  lemma Stepped(env: Env, m: nat, z: Node, n: Node) returns (z1: Node)
    requires R(env, m, z, n) && Wants(env, n) && !Wants(env, z)
    ensures m > 0 && R(env, m - 1, z1, n) && (z1 in Act(env, z) || z1 in Fresh(env.code, env.ctx, z))
  {
    hide Wants;
    z1 := Step(env, m, z, n);
  }

  lemma NodeFacts(x: Ctx, p: PAlts, z: Node)
    requires InScope(x.tables, p) && ValidPAlts(p) && |CodeOf(x.tables, p)| <= MAX_PATTERN_SIZE && Live(x.tables, p)
    requires Restart.Ahead(EnvOf(x, p), Area(PlacesOf(x.tables, p), 0), z) && Restart.Plain(EnvOf(x, p), Area(PlacesOf(x.tables, p), 0))
    ensures !Decode(CodeOf(x.tables, p), z.off).ITest? && z.pos <= |x.subject|
  {
    hide InScope, CodeOf, TreeOf, DepthOf, Live, Decode, PlacesOf, LeadsTo, Restart.Plain, EnvOf;
    EnvFacts(x, p);
    var w := SomeWay(x, p, z);
    Restart.PlainAt(EnvOf(x, p), Area(PlacesOf(x.tables, p), 0), z);
    NotTest(EnvOf(x, p), z.off, z.cnt, w, EnvOf(x, p).end);
  }

  lemma AheadLonger(x: Ctx, p: PAlts, y: seq<Byte>, z: Node)
    requires InScope(x.tables, p) && Restart.Ahead(EnvOf(x, p), Area(PlacesOf(x.tables, p), 0), z)
    ensures Restart.Ahead(EnvOf(Longer(x, y), p), Area(PlacesOf(x.tables, p), 0), z)
  {
    hide CodeOf, DepthOf, PlacesOf, Counts;
  }

  /** If the run of a live pattern is to be suspended, then with some continuation the pattern matches past the
      end of the subject. */
  lemma WantingGrows(x: Ctx, p: PAlts, s: nat)
    requires InScope(x.tables, p) && ValidPAlts(p) && |CodeOf(x.tables, p)| <= MAX_PATTERN_SIZE && s <= |x.subject| && Live(x.tables, p)
    requires Wanting(EnvOf(x, p), Starts(CodeOf(x.tables, p), 0, s))
    ensures Grows(x, p, s)
  {
    hide InScope, CodeOf, TreeOf, MPAlts, Starts, Finishes, EnvOf, DepthOf, Live, Restart.Plain, Restart.Ahead, R, Reached, Decode, PlacesOf,
      MovableAlts, LeadsTo, Inspects;
    var first, area, starts := EnvOf(x, p), Area(PlacesOf(x.tables, p), 0), Starts(CodeOf(x.tables, p), 0, s);
    OpenRun(x, p, s);
    PlainRun(x, p, s);
    EnvFacts(x, p);
    var n :| Reached(first, starts, n) && Wants(first, n);
    var m, t := Beyond.ReachedElim(first, starts, n);
    forall y: seq<Byte>
      ensures Reached(EnvOf(Longer(x, y), p), starts, t)
    {
      ReachedStart(EnvOf(Longer(x, y), p), starts, t);
    }
    var u := FirstWant(x, p, s, m, t, n);
    NodeFacts(x, p, u);
    var w := SomeWay(x, p, u);
    var long := Longer(x, w);
    EnvFacts(long, p);
    WayOn(first, long, u, w);
    WayReached(EnvOf(long, p), starts, u, Node(u.pos + |w|, first.end, 0));
    Restart.FinishesReached(EnvOf(long, p), starts, u.pos + |w|);
    FreeDepth(x.tables, p);
    FreeFirm(x.tables, p);
    CompiledExactly(long, p, s, u.pos + |w|);
  }

  lemma WayReached(env: Env, starts: seq<Node>, u: Node, e: Node)
    requires Reached(env, starts, u) && Goes(env, u, e)
    ensures Reached(env, starts, e)
  {
    hide R, Reached;
    var m: nat :| R(env, m, u, e);
    Restart.ReachedOn(env, starts, m, u, e);
  }

  lemma WayOn(env: Env, long: Ctx, u: Node, w: seq<Byte>)
    requires LeadsTo(env, u.off, u.cnt, w, env.end) && long == Longer(env.ctx, w) && u.pos == |env.ctx.subject|
    ensures Goes(env.(ctx := long), u, Node(u.pos + |w|, env.end, 0))
  {
    hide Goes;
    assert long.subject[u.pos..u.pos + |w|] == w;
    assert Reads(long, u.pos, w) && Node(u.pos, u.off, u.cnt) == u;
  }
}
