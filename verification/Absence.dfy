/** Patterns without certain tests, and the places that a run over their code comes to. */
module Absence {
  import opened Bytecode
  import opened Tree
  import opened Subject
  import opened Graph
  import opened Layout
  import opened Correctness
  import opened Closure
  import opened Room
  import opened Scan
  import opened Pattern
  import opened Expansion
  import opened Refinement

  predicate WithoutOp(op: Op, tests: set<Byte>) {
    match op
    case Test(o) => o !in tests
    case Look(_, body) => Without(body, tests)
    case Bra(_, _, body, _) => Without(body, tests)
    case Zero(_, g) => WithoutOp(g, tests)
    case Skip(g) => WithoutOp(g, tests)
    case _ => true
  }

  predicate WithoutOps(ops: Ops, tests: set<Byte>) { ops.Cons? ==> WithoutOp(ops.head, tests) && WithoutOps(ops.tail, tests) }

  predicate Without(al: Alts, tests: set<Byte>) { WithoutOps(al.branch, tests) && (al.More? ==> Without(al.rest, tests)) }

  predicate WithoutAt(code: seq<Byte>, o: nat, tests: set<Byte>) { Decode(code, o).ITest? ==> Decode(code, o).op !in tests }

  lemma {:induction false} WithoutOpsAt(code: seq<Byte>, ops: Ops, a: nat, d: nat, e: nat, x: Place, tests: set<Byte>)
    requires ValidOps(ops) && Placed(code, a, EncOps(ops)) && OpsDepth(ops) <= d && WithoutOps(ops, tests) && x in OpsSet(ops, a, d, e)
    ensures WithoutAt(code, x.off, tests)
    decreases ops, 2
  {
    hide OpSet, WithoutAt, EncOp, WithoutOp;
    PlacedOps(code, a, ops.head, ops.tail);
    if x in OpSet(ops.head, a, d, e) {
      WithoutOpAt(code, ops.head, a, d, e, x, tests);
    } else {
      WithoutOpsAt(code, ops.tail, a + |EncOp(ops.head)|, d, e, x, tests);
    }
  }

  lemma {:induction false} WithoutOpAt(code: seq<Byte>, op: Op, a: nat, d: nat, e: nat, x: Place, tests: set<Byte>)
    requires ValidOp(op) && Placed(code, a, EncOp(op)) && OpDepth(op) <= d && WithoutOp(op, tests) && x in OpSet(op, a, d, e)
    ensures WithoutAt(code, x.off, tests)
    decreases op, 2
  {
    hide Decode, Entries, ToKet, EncAtom, EncRep, EncAlts, EncOpen, EncBranch, AltsSet, Offsets, Heading, Without;
    match op
    case Bra(_, _, body, _) =>
      var h, k := Bracket(code, a, op.op, op.cap, body, op.ket, false);
      if x.off != a && x.off != k {
        WithoutAltsAt(code, a, body, false, h, d, e, x, tests);
      }
    case Look(_, body) =>
      var h, k, u := LookParts(code, op, a, d, e);
      if x.off != a {
        LookHeading(code, a, body, IsBack(op.op), h, k);
        WithoutAltsAt(code, a, body, IsBack(op.op), h, d - 1, k, x, tests);
      }
    case Zero(_, g) =>
      var h, k := ZeroPlaced(code, a, op, g);
      if x.off != a {
        WithoutOpAt(code, g, a + 1, d, e, x, tests);
      }
    case Test(o) => DecodeTest(code, a, o);
    case One(atom) => DecodeOne(code, a, atom);
    case Rep(atom, form, n, m) => DecodeRepeat(code, a, atom, form, n, m);
    case Skip(g) => var h, k := ZeroPlaced(code, a, op, g);
  }

  lemma {:induction false} WithoutAltsAt(code: seq<Byte>, o: nat, al: Alts, back: bool, h: nat, d: nat, e: nat, x: Place, tests: set<Byte>)
    requires ValidAlts(al) && (back ==> FixedAlts(al)) && Heading(code, o, al, back, h) && AltsDepth(al) <= d
    requires Without(al, tests) && x in AltsSet(al, back, h, d, e)
    ensures WithoutAt(code, x.off, tests)
    decreases al, 1
  {
    hide Decode, EncBranch, EncAlts, OpsSet, Entries, ToKet, Heading, WithoutOps;
    var f, a := h + |EncBranch(al.branch, back)|, if back then h + 1 + LINK_SIZE else h;
    BranchPlaced(code, o, al, back, h);
    BranchStart(code, al, back, h);
    if x in OpsSet(al.branch, a, d, e) {
      WithoutOpsAt(code, al.branch, a, d, e, x, tests);
    } else {
      NextHeading(code, o, al, back, h);
      if x.off != f {
        WithoutAltsAt(code, f, al.rest, back, f + 1 + LINK_SIZE, d, e, x, tests);
      }
    }
  }

  // ----- what a run comes to -----

  lemma InPlaces(env: Env, area: Area, n: Node)
    requires Proper(env, area, {n}) && Decode(env.code, env.end).IKet? && !Decode(env.code, n.off).IKet?
    ensures Place(n.off, env.depth, env.end) in area.places && n.pos <= |env.ctx.subject|
  {
    hide Decode, Counts;
  }

  lemma ReachedProper(env: Env, area: Area, starts: seq<Node>, n: Node)
    requires Sealed(env.code, area.places, false) && Proper(env, area, set s | s in starts) && Decode(env.code, env.end).IKet?
    requires Reached(env, starts, n)
    ensures Proper(env, area, {n})
  {
    hide Decode, Sealed, Proper, R;
    var m: nat, s :| s in starts && R(env, m, s, n);
    OneOf(env, area, s, starts);
    PathProper(env, area, m, s, n);
  }

  lemma OneOf(env: Env, area: Area, z: Node, all: seq<Node>)
    requires z in all && Proper(env, area, set n | n in all)
    ensures Proper(env, area, {z})
  {
  }

  lemma {:induction false} PathProper(env: Env, area: Area, m: nat, z: Node, n: Node)
    requires Sealed(env.code, area.places, false) && Proper(env, area, {z}) && Decode(env.code, env.end).IKet? && R(env, m, z, n)
    ensures Proper(env, area, {n})
    decreases m
  {
    hide Decode, Sealed, Proper, Act, Fresh;
    if m > 0 {
      var w := Step(env, m, z, n);
      StepProper(env, area, z, false);
      OneOf(env, area, w, if w in Act(env, z) then Act(env, z) else Fresh(env.code, env.ctx, z));
      PathProper(env, area, m - 1, w, n);
    }
  }

  lemma CodeWithout(x: Ctx, p: PAlts, tests: set<Byte>)
    requires InScope(x.tables, p) && |CodeOf(x.tables, p)| <= MAX_PATTERN_SIZE && Without(TreeOf(x.tables, p), tests)
    ensures forall y | y in PlacesOf(x.tables, p) :: WithoutAt(CodeOf(x.tables, p), y.off, tests)
  {
    hide EncPattern, EncAlts, Starts, ToKet, Entries, Decode, Offsets, WithoutAt, Without;
    var al, code := TreeOf(x.tables, p), CodeOf(x.tables, p);
    ValidTree(x.tables, p);
    var k := CodeLaidOut(al);
    KetOf(code, al, k);
    BracketHeading(code, al, k);
    forall y | y in PlacesOf(x.tables, p)
      ensures WithoutAt(code, y.off, tests)
    {
      WithoutAltsAt(code, 0, al, false, 1 + LINK_SIZE, AltsDepth(al), k, y, tests);
    }
  }
}
