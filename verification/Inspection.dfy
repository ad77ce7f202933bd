/** How far back a run looks: which characters before a position it may have inspected. */
module Inspection {
  import opened Bytecode
  import opened Tree
  import opened Subject
  import opened Graph
  import opened Scan

  predicate IsBoundary(op: Byte) { op == OP_WORD_BOUNDARY || op == OP_NOT_WORD_BOUNDARY }

  /** The bracket at `o` is the body of a lookbehind. */
  predicate GoesBack(code: seq<Byte>, o: nat) { At(code, o + HeaderLen(At(code, o))) == OP_REVERSE }

  // ----- nothing before `u` was inspected -----

  /** The step from `n` inspects nothing before `u`: a boundary test looks at the character before it, and an
      assertion at what its own run does. */
  ghost predicate Confined(env: Env, u: nat, n: Node)
    decreases env.depth, 1
  {
    && u <= n.pos
    && match Decode(env.code, n.off)
       case ITest(op, _) => IsBoundary(op) && n.pos > 0 ==> u < n.pos
       case ILook(_, _) =>
         env.depth > 0 ==>
           ConfinedRun(Nested(env.code, env.ctx, env.depth, n.off, n.pos), Starts(env.code, n.off, n.pos),
                      RunFrom(env.code, n.off, n.pos), u)
       case _ => true
  }

  ghost predicate AllConfined(env: Env, starts: seq<Node>, u: nat)
    decreases env.depth, 2
  {
    forall n :: Reached(env, starts, n) ==> Confined(env, u, n)
  }

  /** `y` is reached from `x` in `m` steps that inspect nothing before `u`. */
  ghost predicate Sure(env: Env, u: nat, m: nat, x: Node, y: Node)
    decreases env.depth, 2, m
  {
    if m == 0 then x == y else Confined(env, u, x) && exists z :: z in Succs(env, x) && Sure(env, u, m - 1, z, y)
  }

  ghost predicate SureReached(env: Env, starts: seq<Node>, u: nat, n: Node)
    decreases env.depth, 3
  {
    exists m: nat, s :: s in starts && Sure(env, u, m, s, n)
  }

  /** Whether the run finds an end is so confined: all its steps inspect nothing before `u`, or some of them that
      do not lead to an end already. */
  ghost predicate ConfinedRun(env: Env, starts: seq<Node>, start: nat, u: nat)
    decreases env.depth, 4
  {
    || AllConfined(env, starts, u)
    || exists j: nat :: SureReached(env, starts, u, Node(j, env.end, 0)) && Recordable(env.ctx, start, j)
  }

  // ----- `u` was inspected -----

  /** The step from `n` looks back to `u`: from a boundary test just behind it; or it is an assertion that
      begins there, or that looks back so far itself. */
  ghost predicate Touches(env: Env, n: Node, u: nat)
    decreases env.depth, 0
  {
    match Decode(env.code, n.off)
    case ITest(op, _) => IsBoundary(op) && n.pos == u + 1
    case ILook(_, _) =>
      && env.depth > 0
      && ((GoesBack(env.code, n.off) && u == RunFrom(env.code, n.off, n.pos))
          || Touched(Nested(env.code, env.ctx, env.depth, n.off, n.pos), Starts(env.code, n.off, n.pos), u))
    case _ => false
  }

  ghost predicate Touched(env: Env, starts: seq<Node>, u: nat)
    decreases env.depth, 1
  {
    exists n :: Reached(env, starts, n) && Touches(env, n, u)
  }

  /** The earliest position from which a run that began with `u0` may have inspected the subject, and did,
      is `u`. */
  ghost predicate Inspected(env: Env, starts: seq<Node>, start: nat, cut: bool, u0: nat, u: nat) {
    && (if cut then ConfinedRun(env, starts, start, u) else AllConfined(env, starts, u))
    && (u == u0 || Touched(env, starts, u))
  }

  /** The step from `n` took the earliest position inspected from `u` to `v`. */
  ghost predicate Looks(env: Env, n: Node, u: nat, v: nat) {
    v <= u && Confined(env, v, n) && (v == u || Touches(env, n, v))
  }

  // ----- going further back -----

  lemma LowerConfined(env: Env, u: nat, v: nat, n: Node)
    requires Confined(env, u, n) && v <= u
    ensures Confined(env, v, n)
    decreases env.depth, 1
  {
    hide Decode, Starts;
    match Decode(env.code, n.off)
    case ILook(_, _) =>
      if env.depth > 0 {
        LowerRun(Nested(env.code, env.ctx, env.depth, n.off, n.pos), Starts(env.code, n.off, n.pos),
                 RunFrom(env.code, n.off, n.pos), u, v);
      }
    case _ =>
  }

  lemma LowerAll(env: Env, starts: seq<Node>, u: nat, v: nat)
    requires AllConfined(env, starts, u) && v <= u
    ensures AllConfined(env, starts, v)
    decreases env.depth, 2
  {
    hide Confined, Reached;
    forall n | Reached(env, starts, n)
      ensures Confined(env, v, n)
    {
      LowerConfined(env, u, v, n);
    }
  }

  lemma {:induction false} LowerSure(env: Env, u: nat, v: nat, m: nat, x: Node, y: Node)
    requires Sure(env, u, m, x, y) && v <= u
    ensures Sure(env, v, m, x, y)
    decreases env.depth, 2, m
  {
    hide Confined, Succs;
    if m > 0 {
      LowerConfined(env, u, v, x);
      var z :| z in Succs(env, x) && Sure(env, u, m - 1, z, y);
      LowerSure(env, u, v, m - 1, z, y);
    }
  }

  lemma LowerReached(env: Env, starts: seq<Node>, u: nat, v: nat, n: Node)
    requires SureReached(env, starts, u, n) && v <= u
    ensures SureReached(env, starts, v, n)
    decreases env.depth, 3
  {
    hide Sure;
    var m: nat, s :| s in starts && Sure(env, u, m, s, n);
    LowerSure(env, u, v, m, s, n);
  }

  lemma LowerRun(env: Env, starts: seq<Node>, start: nat, u: nat, v: nat)
    requires ConfinedRun(env, starts, start, u) && v <= u
    ensures ConfinedRun(env, starts, start, v)
    decreases env.depth, 4
  {
    hide AllConfined, SureReached;
    if AllConfined(env, starts, u) {
      LowerAll(env, starts, u, v);
    } else {
      var j: nat :| SureReached(env, starts, u, Node(j, env.end, 0)) && Recordable(env.ctx, start, j);
      LowerReached(env, starts, u, v, Node(j, env.end, 0));
    }
  }

  lemma SureStart(env: Env, starts: seq<Node>, u: nat, n: Node)
    requires n in starts
    ensures SureReached(env, starts, u, n)
  {
    assert Sure(env, u, 0, n, n);
  }

  lemma {:induction false} SureMore(env: Env, u: nat, m: nat, x: Node, n: Node, z: Node)
    requires Sure(env, u, m, x, n) && Confined(env, u, n) && z in Succs(env, n)
    ensures Sure(env, u, m + 1, x, z)
    decreases m
  {
    hide Confined, Succs;
    if m == 0 {
      assert Sure(env, u, 0, z, z);
    } else {
      var y :| y in Succs(env, x) && Sure(env, u, m - 1, y, n);
      SureMore(env, u, m - 1, y, n, z);
    }
  }

  lemma SureStep(env: Env, starts: seq<Node>, u: nat, n: Node, z: Node)
    requires SureReached(env, starts, u, n) && Confined(env, u, n) && (z in Act(env, n) || z in Fresh(env.code, env.ctx, n))
    ensures SureReached(env, starts, u, z)
  {
    hide Confined, Sure, Act, Fresh;
    var m: nat, s :| s in starts && Sure(env, u, m, s, n);
    assert z in Succs(env, n);
    SureMore(env, u, m, s, n, z);
  }

  // ----- while the states at one position are dealt with -----

  /** Of the nodes seen, those dealt with inspect nothing before `u`, and neither do some steps that lead to
      them; and `u` itself was inspected unless the run began with it. */
  ghost predicate Careful(env: Env, starts: seq<Node>, seen: set<Node>, p: nat, done: set<Node>, u0: nat, u: nat) {
    && (forall n | n in seen :: u <= n.pos && SureReached(env, starts, u, n) && (n.pos < p ==> Confined(env, u, n)))
    && (forall n | n in done && n.pos == p :: Confined(env, u, n))
    && (u == u0 || Touched(env, starts, u))
  }

  lemma CarefulStart(env: Env, starts: seq<Node>, seen: set<Node>, p: nat, u: nat)
    requires seen == (set n | n in starts) && u <= p && forall n | n in starts :: p <= n.pos
    ensures Careful(env, starts, seen, p, {}, u, u)
  {
    hide Confined, SureReached;
    forall n | n in seen
      ensures SureReached(env, starts, u, n)
    {
      SureStart(env, starts, u, n);
    }
  }

  /** One more node was dealt with, in inspecting the subject from `v` on. */
  lemma CarefulStep(env: Env, starts: seq<Node>, seen: set<Node>, p: nat, done: set<Node>, u0: nat, u: nat, n: Node, v: nat, more: set<Node>)
    requires Careful(env, starts, seen, p, done, u0, u) && n in seen && n.pos == p && Reached(env, starts, n)
    requires Looks(env, n, u, v)
    requires more == seen + (set z | z in Act(env, n)) + (set z | z in Fresh(env.code, env.ctx, n))
    requires forall z | z in more && z !in seen :: z.pos >= p
    ensures Careful(env, starts, more, p, done + {n}, u0, v)
  {
    hide Confined, SureReached, Act, Fresh, Reached, Touches;
    LowerReached(env, starts, u, v, n);
    forall z | z in more
      ensures v <= z.pos && SureReached(env, starts, v, z) && (z.pos < p ==> Confined(env, v, z))
    {
      if z in seen {
        LowerReached(env, starts, u, v, z);
        if z.pos < p { LowerConfined(env, u, v, z); }
      } else {
        SureStep(env, starts, v, n, z);
        PosFrom(env, starts, seen, p, done, u0, u, n);
      }
    }
    forall z | z in done && z.pos == p
      ensures Confined(env, v, z)
    {
      LowerConfined(env, u, v, z);
    }
  }

  /** A node of a later position can wait. */
  lemma CarefulSkip(env: Env, starts: seq<Node>, seen: set<Node>, p: nat, done: set<Node>, u0: nat, u: nat, n: Node)
    requires Careful(env, starts, seen, p, done, u0, u) && n.pos != p
    ensures Careful(env, starts, seen, p, done + {n}, u0, u)
  {
    hide Confined, SureReached, Touched;
  }

  lemma PosFrom(env: Env, starts: seq<Node>, seen: set<Node>, p: nat, done: set<Node>, u0: nat, u: nat, n: Node)
    requires Careful(env, starts, seen, p, done, u0, u) && n in seen
    ensures u <= n.pos
  {
    hide Confined, SureReached, Touched;
  }

  /** All positions up to `p` are done with. */
  lemma CarefulNext(env: Env, starts: seq<Node>, seen: set<Node>, p: nat, done: set<Node>, u0: nat, u: nat)
    requires Careful(env, starts, seen, p, done, u0, u) && forall n | n in seen && n.pos == p :: n in done
    ensures Careful(env, starts, seen, p + 1, {}, u0, u)
  {
    hide Confined, SureReached, Touched;
  }

  lemma CarefulEnd(env: Env, starts: seq<Node>, seen: set<Node>, p: nat, done: set<Node>, u0: nat, u: nat, start: nat)
    requires Careful(env, starts, seen, p, done, u0, u) && (forall n | n in seen :: n.pos < p || (n.pos == p && n in done))
    requires forall n :: Reached(env, starts, n) ==> n in seen
    ensures Inspected(env, starts, start, false, u0, u)
  {
    hide Confined, SureReached, Touched, Reached;
  }

  /** The run stops at the first end that may be recorded. */
  lemma CarefulStop(env: Env, starts: seq<Node>, seen: set<Node>, p: nat, done: set<Node>, u0: nat, u: nat, start: nat)
    requires Careful(env, starts, seen, p, done, u0, u) && Node(p, env.end, 0) in seen && Recordable(env.ctx, start, p)
    ensures Inspected(env, starts, start, true, u0, u)
  {
    hide Confined, SureReached, Touched, AllConfined;
  }
}
