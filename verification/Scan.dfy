/** The bookkeeping of one run of the matcher, as values: what holds of the two state lists
    while the active one is being scanned, and why each thing the matcher does to a state
    (skip it, wake it, drop it as a duplicate, expand it) keeps that true. */
module Scan {
  import opened Bytecode
  import opened Graph
  import opened Closure
  import opened Room

  /** A state block. A negative offset means: wait `data` more characters, then go to -offset. */
  datatype State = State(offset: int, count: nat, data: int)

  /** The node a state stands for, seen from position `p`. */
  function AsNode(st: State, p: nat): Node
    requires st.offset < 0 ==> st.data >= 0
  {
    if st.offset < 0 then Node(p + st.data, -st.offset, st.count) else Node(p, st.offset, st.count)
  }

  predicate Sane(v: seq<State>) {
    forall k | 0 <= k < |v| :: v[k].offset < 0 ==> v[k].data >= 0
  }

  function NodesOf(v: seq<State>, p: nat): set<Node>
    requires Sane(v)
  {
    set k | 0 <= k < |v| :: AsNode(v[k], p)
  }

  function ToStates(ns: seq<Node>): (v: seq<State>)
    ensures |v| == |ns| && Sane(v) && forall k | 0 <= k < |v| :: v[k] == State(ns[k].off, ns[k].cnt, 0)
  {
    seq(|ns|, k requires 0 <= k < |ns| => State(ns[k].off, ns[k].cnt, 0))
  }

  lemma NodesAppend(v: seq<State>, w: seq<State>, p: nat)
    requires Sane(v) && Sane(w)
    ensures Sane(v + w) && NodesOf(v + w, p) == NodesOf(v, p) + NodesOf(w, p)
  {
    var u := v + w;
    forall k | 0 <= k < |u|
      ensures u[k].offset < 0 ==> u[k].data >= 0
    {
      assert u[k] == if k < |v| then v[k] else w[k - |v|];
    }
    forall n | n in NodesOf(v, p)
      ensures n in NodesOf(u, p)
    {
      var k :| 0 <= k < |v| && n == AsNode(v[k], p);
      assert u[k] == v[k];
    }
    forall n | n in NodesOf(w, p)
      ensures n in NodesOf(u, p)
    {
      var k :| 0 <= k < |w| && n == AsNode(w[k], p);
      assert u[|v| + k] == w[k];
    }
  }

  lemma NodesOfStates(ns: seq<Node>, p: nat)
    requires forall n | n in ns :: n.pos == p
    ensures NodesOf(ToStates(ns), p) == set n | n in ns
  {
    var v := ToStates(ns);
    forall n | n in ns
      ensures n in NodesOf(v, p)
    {
      var k :| 0 <= k < |ns| && ns[k] == n;
      assert AsNode(v[k], p) == n;
    }
  }

  /** `n` is reached from one of the start nodes. */
  ghost predicate Reached(env: Env, starts: seq<Node>, n: Node) {
    exists m: nat, s :: s in starts && R(env, m, s, n)
  }

  lemma ReachedStart(env: Env, starts: seq<Node>, n: Node)
    requires n in starts
    ensures Reached(env, starts, n)
  {
    assert R(env, 0, n, n);
  }

  lemma ReachedStep(env: Env, starts: seq<Node>, n: Node, z: Node)
    requires Reached(env, starts, n) && (z in Act(env, n) || z in Fresh(env.code, env.ctx, n))
    ensures Reached(env, starts, z)
  {
    var m: nat, s :| s in starts && R(env, m, s, n);
    OneStep(env, n, z);
    RTrans(env, m, 1, s, n, z);
  }

  /** A set that contains the start and every step from its members contains all that is reached. */
  lemma {:induction false} ClosedReach(env: Env, seen: set<Node>, m: nat, s: Node, y: Node)
    requires s in seen && R(env, m, s, y)
    requires forall n, z | n in seen && z in Succs(env, n) :: z in seen
    ensures y in seen
    decreases m
  {
    if m > 0 {
      var z := Step(env, m, s, y);
      assert z in Succs(env, s);
      ClosedReach(env, seen, m - 1, z, y);
    }
  }

  /** All steps from `n` lead into `seen`. */
  ghost predicate Expanded(env: Env, seen: set<Node>, n: Node) {
    && (forall z | z in Act(env, n) :: z in seen)
    && (forall z | z in Fresh(env.code, env.ctx, n) :: z in seen)
  }

  /** A state's offset is one the code is known to allow. */
  ghost predicate Allowed(env: Env, area: Area, n: Node) {
    n.off == env.end || Place(n.off, env.depth, env.end) in area.places
  }

  /** Nodes inside the subject, at allowed offsets, with counts that can have been reached, and at the
      end of the pattern without a count. */
  ghost predicate Proper(env: Env, area: Area, nodes: set<Node>) {
    forall n | n in nodes ::
      && n.pos <= |env.ctx.subject| && Allowed(env, area, n) && (n.off == env.end ==> n.cnt == 0)
      && n.cnt < Counts(env.code, n.off, area.base + n.pos)
  }

  /** Every step from a proper node leads to a proper node. */
  lemma StepProper(env: Env, area: Area, n: Node, plain: bool)
    requires Sealed(env.code, area.places, plain) && Proper(env, area, {n}) && Decode(env.code, env.end).IKet?
    ensures Proper(env, area, set z | z in Act(env, n)) && Proper(env, area, set z | z in Fresh(env.code, env.ctx, n))
    ensures forall z | z in Act(env, n) :: z.pos == n.pos && z.cnt == 0
    ensures forall z | z in Fresh(env.code, env.ctx, n) :: z.pos == n.pos + 1
  {
    hide Decode, Entries, ToKet, Starts, LookHolds;
    var x := Place(n.off, env.depth, env.end);
    assert n.off != env.end ==> x in area.places && Known(env.code, area.places, Place(x.end, x.depth, x.end), x, plain);
    forall z | z in Heads(n.pos, Entries(env.code, n.off))
      ensures z.off in Entries(env.code, n.off)
    {
    }
  }

  /** The lists at position `p` with the first `i` active states dealt with: `act` holds every
      node seen at `p`, later nodes wait in what is left of `act` or in `later`, and all that
      has been dealt with is expanded. */
  ghost predicate Scanning(env: Env, seen: set<Node>, p: nat, i: nat, act: seq<State>, later: seq<State>) {
    && i <= |act| && Sane(act) && Sane(later)
    && NodesOf(act, p) <= seen && NodesOf(later, p + 1) <= seen
    && (forall n | n in seen :: n.pos == p ==> n in NodesOf(act, p))
    && (forall n | n in seen :: n.pos > p ==> n in NodesOf(act[i..], p) || n in NodesOf(later, p + 1))
    && (forall n | n in seen :: n.pos < p ==> Expanded(env, seen, n))
    && (forall n | n in NodesOf(act[..i], p) :: n.pos == p ==> Expanded(env, seen, n))
  }

  lemma NodeAt(v: seq<State>, k: nat, p: nat)
    requires Sane(v) && k < |v|
    ensures AsNode(v[k], p) in NodesOf(v, p)
  {
  }

  /** Moving on from one active state. */
  lemma Split(act: seq<State>, i: nat, p: nat)
    requires Sane(act) && i < |act|
    ensures Sane(act[i..]) && Sane(act[i + 1..]) && Sane(act[..i]) && Sane(act[..i + 1])
    ensures NodesOf(act[i..], p) == {AsNode(act[i], p)} + NodesOf(act[i + 1..], p)
    ensures NodesOf(act[..i + 1], p) == NodesOf(act[..i], p) + {AsNode(act[i], p)}
  {
    assert act[i..] == [act[i]] + act[i + 1..];
    assert act[..i + 1] == act[..i] + [act[i]];
    NodesAppend([act[i]], act[i + 1..], p);
    NodesAppend(act[..i], [act[i]], p);
    NodesSingle(act[i], p);
  }

  lemma NodesSingle(st: State, p: nat)
    requires st.offset < 0 ==> st.data >= 0
    ensures NodesOf([st], p) == {AsNode(st, p)}
  {
    assert [st][0] == st;
  }

  /** A waiting state is carried over to the next character. */
  lemma SkipWaiting(env: Env, seen: set<Node>, p: nat, i: nat, act: seq<State>, later: seq<State>)
    requires Scanning(env, seen, p, i, act, later) && i < |act| && act[i].offset < 0 && act[i].data > 0
    ensures Scanning(env, seen, p, i + 1, act, later + [act[i].(data := act[i].data - 1)])
  {
    hide Act, Fresh, Expanded;
    var st := act[i].(data := act[i].data - 1);
    Split(act, i, p);
    NodesSingle(st, p + 1);
    NodesAppend(later, [st], p + 1);
    NodeAt(act, i, p);
    assert AsNode(st, p + 1) == AsNode(act[i], p);
  }

  /** A state that need wait no longer stands for the same node under its plain offset. */
  lemma Wake(env: Env, seen: set<Node>, p: nat, i: nat, act: seq<State>, later: seq<State>, st: State)
    requires Scanning(env, seen, p, i, act, later) && i < |act| && act[i].offset < 0 && act[i].data == 0
    requires st.offset == -act[i].offset && st.count == act[i].count
    ensures Scanning(env, seen, p, i, act[i := st], later)
  {
    hide Act, Fresh, Expanded;
    var b := act[i := st];
    SameNodes(act, b, p);
    SameNodes(act[i..], b[i..], p);
    assert b[..i] == act[..i];
  }

  lemma SameNodes(v: seq<State>, w: seq<State>, p: nat)
    requires |v| == |w| && Sane(v) && Sane(w) && forall k | 0 <= k < |v| :: AsNode(v[k], p) == AsNode(w[k], p)
    ensures NodesOf(v, p) == NodesOf(w, p)
  {
    forall n | n in NodesOf(v, p)
      ensures n in NodesOf(w, p)
    {
      var k :| 0 <= k < |v| && n == AsNode(v[k], p);
      assert n == AsNode(w[k], p);
    }
    forall n | n in NodesOf(w, p)
      ensures n in NodesOf(v, p)
    {
      var k :| 0 <= k < |w| && n == AsNode(w[k], p);
      assert n == AsNode(v[k], p);
    }
  }

  /** A state equal to an earlier one may be dropped: its node is expanded already. */
  lemma Duplicate(env: Env, seen: set<Node>, p: nat, i: nat, act: seq<State>, later: seq<State>, j: nat)
    requires Scanning(env, seen, p, i, act, later) && j < i < |act| && act[i].offset >= 0
    requires act[j].offset == act[i].offset && act[j].count == act[i].count
    ensures Scanning(env, seen, p, i + 1, act, later)
  {
    hide Act, Fresh, Expanded;
    Split(act, i, p);
    NodeAt(act[..i], j, p);
    assert act[..i][j] == act[j];
  }

  /** Appending to the active list changes neither what has been dealt with nor the rest. */
  lemma Extend(act: seq<State>, i: nat, p: nat, ns: seq<Node>)
    requires Sane(act) && i < |act| && forall z | z in ns :: z.pos == p
    ensures var b := act + ToStates(ns);
            && Sane(b) && b[..i + 1] == act[..i + 1]
            && NodesOf(b, p) == NodesOf(act, p) + (set z | z in ns)
            && NodesOf(b[i + 1..], p) == NodesOf(act[i + 1..], p) + (set z | z in ns)
  {
    var a := ToStates(ns);
    NodesAppend(act, a, p);
    NodesOfStates(ns, p);
    assert (act + a)[..i + 1] == act[..i + 1];
    assert (act + a)[i + 1..] == act[i + 1..] + a;
    NodesAppend(act[i + 1..], a, p);
  }

  /** Expanding a state: its steps at this position join the active list, the others the next one. */
  lemma Expand(env: Env, seen: set<Node>, p: nat, i: nat, act: seq<State>, later: seq<State>, n: Node, more: set<Node>)
    requires Scanning(env, seen, p, i, act, later) && i < |act| && act[i].offset >= 0 && n == AsNode(act[i], p)
    requires more == seen + (set z | z in Act(env, n)) + (set z | z in Fresh(env.code, env.ctx, n))
    requires (forall z | z in Act(env, n) :: z.pos == p) && (forall z | z in Fresh(env.code, env.ctx, n) :: z.pos == p + 1)
    ensures Scanning(env, more, p, i + 1,
                     act + ToStates(Act(env, n)), later + ToStates(Fresh(env.code, env.ctx, n)))
  {
    hide Act, Fresh, ToStates, NodesOf;
    Split(act, i, p);
    Extend(act, i, p, Act(env, n));
    NodesAppend(later, ToStates(Fresh(env.code, env.ctx, n)), p + 1);
    NodesOfStates(Fresh(env.code, env.ctx, n), p + 1);
    Carry(env, seen, more, p, act[..i]);
    assert Expanded(env, more, n);
  }

  lemma Carry(env: Env, seen: set<Node>, more: set<Node>, p: nat, done: seq<State>)
    requires seen <= more && Sane(done)
    requires forall n | n in seen :: n.pos < p ==> Expanded(env, seen, n)
    requires forall n | n in more && n !in seen :: n.pos >= p
    requires forall n | n in NodesOf(done, p) :: n.pos == p ==> Expanded(env, seen, n)
    ensures forall n | n in more :: n.pos < p ==> Expanded(env, more, n)
    ensures forall n | n in NodesOf(done, p) :: n.pos == p ==> Expanded(env, more, n)
  {
    hide Act, Fresh;
  }

  /** With every active state dealt with, the next position's list takes over. */
  lemma NextPosition(env: Env, seen: set<Node>, p: nat, act: seq<State>, later: seq<State>)
    requires Scanning(env, seen, p, |act|, act, later)
    ensures Scanning(env, seen, p + 1, 0, later, [])
  {
    hide Act, Fresh, Expanded;
    assert act[..|act|] == act && act[|act|..] == [];
    assert later[0..] == later && later[..0] == [];
  }

  /** When nothing waits for a later position, everything reached has been seen. */
  lemma Finish(env: Env, starts: seq<Node>, seen: set<Node>, p: nat, act: seq<State>, j: nat)
    requires Scanning(env, seen, p, |act|, act, [])
    requires forall s | s in starts :: s in seen
    requires forall n | n in seen :: Reached(env, starts, n)
    ensures Finishes(env, starts, j) <==> Node(j, env.end, 0) in seen
  {
    hide Act, Fresh;
    NextPosition(env, seen, p, act, []);
    if Finishes(env, starts, j) {
      var m, s := FinishesElim(env, starts, j);
      forall n, z | n in seen && z in Succs(env, n)
        ensures z in seen
      {
        assert Expanded(env, seen, n);
      }
      ClosedReach(env, seen, m, s, Node(j, env.end, 0));
    }
  }

  // ----- runs that stop at the first match -----

  lemma {:induction false} Forward(env: Env, m: nat, x: Node, y: Node)
    requires R(env, m, x, y)
    ensures x.pos <= y.pos
    decreases m
  {
    if m > 0 {
      var z := Step(env, m, x, y);
      Forward(env, m - 1, z, y);
    }
  }

  /** Positions already left behind hold everything that can be reached there. */
  lemma {:induction false} ReachBelow(env: Env, seen: set<Node>, p: nat, m: nat, s: Node, y: Node)
    requires s in seen && R(env, m, s, y) && y.pos < p
    requires forall n | n in seen :: n.pos < p ==> Expanded(env, seen, n)
    ensures y in seen
    decreases m
  {
    hide Act, Fresh, Decode, Succs;
    if m > 0 {
      Forward(env, m, s, y);
      var z := Step(env, m, s, y);
      assert Expanded(env, seen, s);
      ReachBelow(env, seen, p, m - 1, z, y);
    }
  }

  lemma FinishesBelow(env: Env, starts: seq<Node>, seen: set<Node>, p: nat, j: nat)
    requires j < p && (forall s | s in starts :: s in seen)
    requires forall n | n in seen :: Reached(env, starts, n) && (n.pos < p ==> Expanded(env, seen, n))
    ensures Finishes(env, starts, j) <==> Node(j, env.end, 0) in seen
  {
    hide Act, Fresh, Expanded;
    if Finishes(env, starts, j) {
      var m, s := FinishesElim(env, starts, j);
      ReachBelow(env, seen, p, m, s, Node(j, env.end, 0));
    }
  }
}
