/** Suspending at the end of one piece of the subject and going on with the next loses nothing:
    for patterns that do not look around and test at most for the very end, the states saved at the
    boundary lead to exactly the nodes that one run over both pieces reaches. */
module Restart {
  import opened Bytecode
  import opened Tree
  import opened Subject
  import opened Graph
  import opened Closure
  import opened Room
  import opened Scan
  import opened DfaRun

  /** `whole` is the subject of `first` followed by that of `second`; the tables are the same, and what
      the subject's end means is what it means for `second`. */
  ghost predicate Joined(whole: Env, first: Env, second: Env) {
    && whole.code == first.code == second.code && whole.end == first.end == second.end
    && whole.depth == first.depth == second.depth
    && whole.ctx.tables == first.ctx.tables == second.ctx.tables && whole.ctx.partialHard == second.ctx.partialHard
    && whole.ctx.subject == first.ctx.subject + second.ctx.subject
  }

  /** The states at which the run over the second piece begins. */
  ghost predicate Continues(saved: seq<State>, p: nat, starts: seq<Node>)
    requires Sane(saved)
  {
    (set n | n in starts) == NodesOf(saved, p)
  }

  /** The states that can be met are at places that test at most for the end and do not look around. */
  ghost predicate Plain(env: Env, area: Area) {
    Sealed(env.code, area.places, true) && Decode(env.code, env.end).IKet?
  }

  ghost predicate Ahead(env: Env, area: Area, n: Node) {
    Proper(env, area, {n})
  }

  function Shifted(n: Node, p: nat): Node
    requires n.pos >= p
  {
    Node(n.pos - p, n.off, n.cnt)
  }

  /** What is decoded there does not depend on the position, except for the end. */
  lemma PlainAt(env: Env, area: Area, n: Node)
    requires Plain(env, area) && Ahead(env, area, n)
    ensures (Decode(env.code, n.off).ITest? ==> MovableTest(Decode(env.code, n.off).op)) && !Decode(env.code, n.off).ILook?
  {
    hide Decode, Entries, ToKet, Starts;
    if n.off != env.end {
      var x := Place(n.off, env.depth, env.end);
      assert Known(env.code, area.places, Place(x.end, x.depth, x.end), x, true);
    }
  }

  lemma SuccProper(env: Env, area: Area, n: Node, z: Node)
    requires Plain(env, area) && Ahead(env, area, n) && z in Succs(env, n)
    ensures Ahead(env, area, z)
    ensures z in Act(env, n) ==> z.pos == n.pos
    ensures z in Fresh(env.code, env.ctx, n) ==> z.pos == n.pos + 1
    ensures z in Act(env, n) || z in Fresh(env.code, env.ctx, n)
  {
    hide Act, Fresh, Decode;
    StepProper(env, area, n, true);
  }

  /** Before the boundary, the first piece alone and both together lead on alike. */
  lemma SameBefore(whole: Env, first: Env, second: Env, area: Area, n: Node)
    requires Joined(whole, first, second) && Plain(whole, area) && Ahead(whole, area, n) && n.pos < |first.ctx.subject|
    ensures Act(first, n) == Act(whole, n) && Fresh(first.code, first.ctx, n) == Fresh(whole.code, whole.ctx, n)
  {
    hide Decode, Entries, AtomAt;
    PlainAt(whole, area, n);
  }

  /** From the boundary on, the second piece alone leads on like both together. */
  lemma SameAct(whole: Env, first: Env, second: Env, area: Area, n: Node, z: Node)
    requires Joined(whole, first, second) && Plain(whole, area) && Ahead(whole, area, n)
    requires n.pos >= |first.ctx.subject| && z.pos >= |first.ctx.subject|
    ensures var p := |first.ctx.subject|; z in Act(whole, n) <==> Shifted(z, p) in Act(second, Shifted(n, p))
  {
    hide Decode, Entries, AtomAt, Fresh;
    var p := |first.ctx.subject|;
    PlainAt(whole, area, n);
    HeadsShift(n.pos, p, Entries(whole.code, n.off), z);
    assert n.pos < |whole.ctx.subject| ==> whole.ctx.subject[n.pos] == second.ctx.subject[n.pos - p];
  }

  lemma SameFresh(whole: Env, first: Env, second: Env, n: Node, z: Node)
    requires Joined(whole, first, second) && n.pos >= |first.ctx.subject| && z.pos >= |first.ctx.subject|
    ensures var p := |first.ctx.subject|;
            z in Fresh(whole.code, whole.ctx, n) <==> Shifted(z, p) in Fresh(second.code, second.ctx, Shifted(n, p))
  {
    hide Decode, AtomAt;
    assert n.pos < |whole.ctx.subject| ==> whole.ctx.subject[n.pos] == second.ctx.subject[n.pos - |first.ctx.subject|];
  }

  lemma HeadsShift(pos: nat, p: nat, offs: seq<nat>, z: Node)
    requires pos >= p && z.pos >= p
    ensures z in Heads(pos, offs) <==> Shifted(z, p) in Heads(pos - p, offs)
  {
    var a, b := Heads(pos, offs), Heads(pos - p, offs);
    if z in a {
      var k :| 0 <= k < |a| && a[k] == z;
      assert b[k] == Shifted(z, p);
    }
    if Shifted(z, p) in b {
      var k :| 0 <= k < |b| && b[k] == Shifted(z, p);
      assert a[k] == z;
    }
  }

  // ----- paths before the boundary -----

  lemma {:induction false} PathBefore(whole: Env, first: Env, second: Env, area: Area, m: nat, s: Node, y: Node)
    requires Joined(whole, first, second) && Plain(whole, area) && Ahead(whole, area, s) && y.pos < |first.ctx.subject|
    ensures R(first, m, s, y) <==> R(whole, m, s, y)
    decreases m
  {
    hide Act, Fresh, Plain, Ahead;
    if m > 0 && R(first, m, s, y) {
      Forward(first, m, s, y);
      var z := Step(first, m, s, y);
      SameBefore(whole, first, second, area, s);
      SuccProper(whole, area, s, z);
      PathBefore(whole, first, second, area, m - 1, z, y);
      RCons(whole, m - 1, s, z, y);
    }
    if m > 0 && R(whole, m, s, y) {
      Forward(whole, m, s, y);
      var z := Step(whole, m, s, y);
      SameBefore(whole, first, second, area, s);
      SuccProper(whole, area, s, z);
      PathBefore(whole, first, second, area, m - 1, z, y);
      RCons(first, m - 1, s, z, y);
    }
  }

  /** The first run's start nodes are at places known to the whole, and not beyond the boundary. */
  ghost predicate Placeable(whole: Env, first: Env, area: Area, starts: seq<Node>) {
    forall s | s in starts :: Ahead(whole, area, s) && s.pos <= |first.ctx.subject|
  }

  lemma ReachedBefore(whole: Env, first: Env, second: Env, area: Area, starts: seq<Node>, y: Node)
    requires Joined(whole, first, second) && Plain(whole, area) && Placeable(whole, first, area, starts)
    requires y.pos < |first.ctx.subject|
    ensures Reached(first, starts, y) <==> Reached(whole, starts, y)
  {
    hide R, Plain, Ahead, Joined;
    if Reached(first, starts, y) {
      var m: nat, s :| s in starts && R(first, m, s, y);
      PathBefore(whole, first, second, area, m, s, y);
    }
    if Reached(whole, starts, y) {
      var m: nat, s :| s in starts && R(whole, m, s, y);
      PathBefore(whole, first, second, area, m, s, y);
    }
  }

  lemma {:induction false} PathAhead(env: Env, area: Area, m: nat, s: Node, y: Node)
    requires Plain(env, area) && Ahead(env, area, s) && R(env, m, s, y)
    ensures Ahead(env, area, y)
    decreases m
  {
    hide Act, Fresh, Plain, Ahead;
    if m > 0 {
      var z := Step(env, m, s, y);
      SuccProper(env, area, s, z);
      PathAhead(env, area, m - 1, z, y);
    }
  }

  lemma ReachedAhead(env: Env, area: Area, starts: seq<Node>, y: Node)
    requires Plain(env, area) && (forall s | s in starts :: Ahead(env, area, s)) && Reached(env, starts, y)
    ensures Ahead(env, area, y)
  {
    hide R, Plain, Ahead;
    var m: nat, s :| s in starts && R(env, m, s, y);
    PathAhead(env, area, m, s, y);
  }

  lemma EntryReached(env: Env, starts: seq<Node>, n: Node)
    requires Entry(env, starts, n)
    ensures Reached(env, starts, n)
  {
    hide Reached, Fresh;
    if n in starts {
      ReachedStart(env, starts, n);
    } else {
      var m :| Reached(env, starts, m) && m.pos < n.pos && n in Fresh(env.code, env.ctx, m);
      ReachedStep(env, starts, m, n);
    }
  }

  /** Entered before or at the boundary by the first piece: also by the whole. */
  lemma EntryBefore(whole: Env, first: Env, second: Env, area: Area, starts: seq<Node>, n: Node)
    requires Joined(whole, first, second) && Plain(whole, area) && Placeable(whole, first, area, starts)
    requires n.pos <= |first.ctx.subject| && Entry(first, starts, n)
    ensures Entry(whole, starts, n)
  {
    hide Reached, Fresh, Plain, Ahead, Joined;
    if n !in starts {
      var m :| Reached(first, starts, m) && m.pos < n.pos && n in Fresh(first.code, first.ctx, m);
      ReachedBefore(whole, first, second, area, starts, m);
      ReachedAhead(whole, area, starts, m);
      SameBefore(whole, first, second, area, m);
    }
  }

  // ----- paths beyond the boundary -----

  lemma {:induction false} PathAfter(whole: Env, first: Env, second: Env, area: Area, m: nat, s: Node, y: Node)
    requires Joined(whole, first, second) && Plain(whole, area) && Ahead(whole, area, s)
    requires s.pos >= |first.ctx.subject| && y.pos >= |first.ctx.subject|
    ensures var p := |first.ctx.subject|; R(whole, m, s, y) <==> R(second, m, Shifted(s, p), Shifted(y, p))
    decreases m
  {
    hide Act, Fresh, Plain, Ahead, Joined;
    var p := |first.ctx.subject|;
    if m > 0 && R(whole, m, s, y) {
      var z := Step(whole, m, s, y);
      SuccProper(whole, area, s, z);
      SameAct(whole, first, second, area, s, z);
      SameFresh(whole, first, second, s, z);
      PathAfter(whole, first, second, area, m - 1, z, y);
      RCons(second, m - 1, Shifted(s, p), Shifted(z, p), Shifted(y, p));
    }
    if m > 0 && R(second, m, Shifted(s, p), Shifted(y, p)) {
      var w := Step(second, m, Shifted(s, p), Shifted(y, p));
      var z := Node(w.pos + p, w.off, w.cnt);
      assert Shifted(z, p) == w;
      SameAct(whole, first, second, area, s, z);
      SameFresh(whole, first, second, s, z);
      SuccProper(whole, area, s, z);
      PathAfter(whole, first, second, area, m - 1, z, y);
      RCons(whole, m - 1, s, z, y);
    }
  }

  /** A path of the whole that crosses the boundary passes through the saved states. */
  lemma {:induction false} PathAcross(whole: Env, first: Env, second: Env, area: Area, starts: seq<Node>, saved: seq<State>,
                                      starts2: seq<Node>, m: nat, n: Node, y: Node)
    requires Joined(whole, first, second) && Plain(whole, area) && Ahead(whole, area, n)
    requires Resumable(first, starts, saved) && Continues(saved, 0, starts2)
    requires n.pos < |first.ctx.subject| <= y.pos && Reached(first, starts, n) && R(whole, m, n, y)
    ensures Reached(second, starts2, Shifted(y, |first.ctx.subject|))
    decreases m
  {
    hide Act, Fresh, Plain, Ahead, Reached, Resumable, Continues;
    var p := |first.ctx.subject|;
    var z := Step(whole, m, n, y);
    SuccProper(whole, area, n, z);
    SameBefore(whole, first, second, area, n);
    if z.pos < p {
      ReachedStep(first, starts, n, z);
      PathAcross(whole, first, second, area, starts, saved, starts2, m - 1, z, y);
    } else {
      SavedStart(first, starts, saved, starts2, n, z);
      PathAfter(whole, first, second, area, m - 1, z, y);
      ReachedFrom(second, starts2, m - 1, Shifted(z, p), Shifted(y, p));
    }
  }

  lemma ReachedFrom(env: Env, starts: seq<Node>, m: nat, s: Node, y: Node)
    requires s in starts && R(env, m, s, y)
    ensures Reached(env, starts, y)
  {
  }

  lemma SavedStart(first: Env, starts: seq<Node>, saved: seq<State>, starts2: seq<Node>, n: Node, z: Node)
    requires Resumable(first, starts, saved) && Continues(saved, 0, starts2)
    requires z.pos == |first.ctx.subject|
    requires (Reached(first, starts, n) && n.pos < z.pos && z in Fresh(first.code, first.ctx, n)) || z in starts
    ensures Shifted(z, |first.ctx.subject|) in starts2
  {
    hide Reached, Fresh;
    SavedAt(saved, z.pos, z);
    assert z in NodesOf(saved, z.pos);
    assert Shifted(z, z.pos) in NodesOf(saved, 0);
  }

  /** The saved states, read at the boundary and at the start of the next piece. */
  lemma SavedAt(saved: seq<State>, p: nat, z: Node)
    requires Sane(saved) && z.pos >= p
    ensures z in NodesOf(saved, p) <==> Shifted(z, p) in NodesOf(saved, 0)
  {
    if z in NodesOf(saved, p) {
      var k :| 0 <= k < |saved| && z == AsNode(saved[k], p);
      assert Shifted(z, p) == AsNode(saved[k], 0);
    }
    if Shifted(z, p) in NodesOf(saved, 0) {
      var k :| 0 <= k < |saved| && Shifted(z, p) == AsNode(saved[k], 0);
      assert z == AsNode(saved[k], p);
    }
  }

  lemma SavedEntry(first: Env, starts: seq<Node>, saved: seq<State>, starts2: seq<Node>, s: Node) returns (z: Node)
    requires Resumable(first, starts, saved) && Continues(saved, 0, starts2) && s in starts2
    ensures z.pos == |first.ctx.subject| && Shifted(z, z.pos) == s && Entry(first, starts, z)
  {
    hide Reached, Fresh, Entry;
    var p := |first.ctx.subject|;
    z := Node(s.pos + p, s.off, s.cnt);
    assert Shifted(z, p) == s;
    SavedAt(saved, p, z);
    assert s in NodesOf(saved, 0);
    assert z in NodesOf(saved, p);
  }

  // ----- the two runs together -----

  /** A run over the first piece stopped with `saved`, and the run over the second begins there. */
  ghost predicate TwoRuns(whole: Env, first: Env, second: Env, area: Area, starts: seq<Node>,
                          saved: seq<State>, starts2: seq<Node>) {
    && Joined(whole, first, second) && Plain(whole, area) && Placeable(whole, first, area, starts)
    && Resumable(first, starts, saved) && Continues(saved, 0, starts2)
  }

  /** Beyond the boundary, the second run reaches exactly what one run over both would reach. */
  lemma RestartReaches(whole: Env, first: Env, second: Env, area: Area, starts: seq<Node>, saved: seq<State>,
                       starts2: seq<Node>, y: Node)
    requires TwoRuns(whole, first, second, area, starts, saved, starts2) && y.pos >= |first.ctx.subject|
    ensures Reached(second, starts2, Shifted(y, |first.ctx.subject|)) <==> Reached(whole, starts, y)
  {
    hide R, Plain, Ahead, Joined, Resumable, Continues, Fresh, Entry;
    var p := |first.ctx.subject|;
    if Reached(whole, starts, y) {
      var m: nat, s :| s in starts && R(whole, m, s, y);
      if s.pos < p {
        ReachedStart(first, starts, s);
        PathAcross(whole, first, second, area, starts, saved, starts2, m, s, y);
      } else {
        SavedStart(first, starts, saved, starts2, s, s);
        PathAfter(whole, first, second, area, m, s, y);
      }
    }
    if Reached(second, starts2, Shifted(y, p)) {
      var m: nat, s :| s in starts2 && R(second, m, s, Shifted(y, p));
      var z := SavedEntry(first, starts, saved, starts2, s);
      EntryBefore(whole, first, second, area, starts, z);
      EntryReached(whole, starts, z);
      ReachedAhead(whole, area, starts, z);
      PathAfter(whole, first, second, area, m, z, y);
      ReachedOn(whole, starts, m, z, y);
    }
  }

  lemma ReachedOn(env: Env, starts: seq<Node>, m: nat, z: Node, y: Node)
    requires Reached(env, starts, z) && R(env, m, z, y)
    ensures Reached(env, starts, y)
  {
    hide R;
    var l: nat, s :| s in starts && R(env, l, s, z);
    RTrans(env, l, m, s, z, y);
  }

  lemma FinishesReached(env: Env, starts: seq<Node>, j: nat)
    ensures Finishes(env, starts, j) <==> Reached(env, starts, Node(j, env.end, 0))
  {
    hide R;
    if Finishes(env, starts, j) {
      var n, s := FinishesElim(env, starts, j);
      ReachedFrom(env, starts, n, s, Node(j, env.end, 0));
    }
  }

  /** The ends that the second run can record are those of the whole at or after the boundary. */
  lemma RestartLosesNothing(whole: Env, first: Env, second: Env, area: Area, starts: seq<Node>, saved: seq<State>,
                            starts2: seq<Node>, j: nat)
    requires TwoRuns(whole, first, second, area, starts, saved, starts2)
    ensures Finishes(second, starts2, j) <==> Finishes(whole, starts, |first.ctx.subject| + j)
  {
    hide R, Plain, Ahead, Resumable, Continues, Reached, Finishes, Placeable;
    var p := |first.ctx.subject|;
    FinishesReached(second, starts2, j);
    FinishesReached(whole, starts, p + j);
    RestartReaches(whole, first, second, area, starts, saved, starts2, Node(p + j, whole.end, 0));
  }

  lemma WantsPlain(whole: Env, first: Env, area: Area, starts: seq<Node>, y: Node)
    requires Plain(whole, area) && Placeable(whole, first, area, starts) && Reached(whole, starts, y)
    ensures Decode(whole.code, y.off).ITest? ==> MovableTest(Decode(whole.code, y.off).op)
  {
    hide Plain, Ahead, Reached, Decode;
    ReachedAhead(whole, area, starts, y);
    PlainAt(whole, area, y);
  }

  /** The second run is to be suspended exactly if the single run would be: the same paths could use
      more subject. */
  lemma RestartWants(whole: Env, first: Env, second: Env, area: Area, starts: seq<Node>, saved: seq<State>,
                     starts2: seq<Node>)
    requires TwoRuns(whole, first, second, area, starts, saved, starts2)
    ensures Wanting(second, starts2) <==> Wanting(whole, starts)
  {
    hide R, Ahead, Resumable, Continues, Reached, Placeable, Decode;
    var p := |first.ctx.subject|;
    if Wanting(second, starts2) {
      var n :| Reached(second, starts2, n) && Wants(second, n);
      var y := Node(n.pos + p, n.off, n.cnt);
      assert Shifted(y, p) == n;
      RestartReaches(whole, first, second, area, starts, saved, starts2, y);
      WantsPlain(whole, first, area, starts, y);
      assert Wants(whole, y);
    }
    if Wanting(whole, starts) {
      var y :| Reached(whole, starts, y) && Wants(whole, y);
      RestartReaches(whole, first, second, area, starts, saved, starts2, y);
      WantsPlain(whole, first, area, starts, y);
      assert Wants(second, Shifted(y, p));
    }
  }

  lemma NodePos(saved: seq<State>, p: nat, n: Node)
    requires Sane(saved) && n in NodesOf(saved, p)
    ensures n.pos >= p
  {
  }

  lemma SavedTwice(saved: seq<State>, p: nat, q: nat, n: Node)
    requires Sane(saved) && n.pos >= p + q
    ensures n in NodesOf(saved, p + q) <==> Shifted(n, p) in NodesOf(saved, q)
  {
    SavedAt(saved, p + q, n);
    SavedAt(saved, q, Shifted(n, p));
  }

  lemma FreshPos(env: Env, area: Area, n: Node, z: Node)
    requires Plain(env, area) && Ahead(env, area, n) && z in Fresh(env.code, env.ctx, n)
    ensures z.pos == n.pos + 1
  {
    hide Act, Fresh, Plain, Ahead;
    SuccProper(env, area, n, z);
  }

  lemma AgainEntry(whole: Env, first: Env, second: Env, area: Area, starts: seq<Node>, saved: seq<State>,
                   starts2: seq<Node>, n: Node)
    requires TwoRuns(whole, first, second, area, starts, saved, starts2) && n.pos >= |first.ctx.subject|
    requires Entry(second, starts2, Shifted(n, |first.ctx.subject|))
    ensures Entry(whole, starts, n)
  {
    hide R, Plain, Ahead, Continues, Reached, Fresh, Resumable;
    var p := |first.ctx.subject|;
    var s := Shifted(n, p);
    if s in starts2 {
      var z := SavedEntry(first, starts, saved, starts2, s);
      assert z == n;
      EntryBefore(whole, first, second, area, starts, n);
    } else {
      var m :| Reached(second, starts2, m) && m.pos < s.pos && s in Fresh(second.code, second.ctx, m);
      var w := Node(m.pos + p, m.off, m.cnt);
      assert Shifted(w, p) == m;
      RestartReaches(whole, first, second, area, starts, saved, starts2, w);
      SameFresh(whole, first, second, w, n);
    }
  }

  lemma AgainSaved(whole: Env, first: Env, second: Env, area: Area, starts: seq<Node>, saved: seq<State>,
                   starts2: seq<Node>, saved2: seq<State>, n: Node)
    requires TwoRuns(whole, first, second, area, starts, saved, starts2) && Resumable(second, starts2, saved2)
    requires n in NodesOf(saved2, |whole.ctx.subject|)
    ensures n.pos == |whole.ctx.subject| && Entry(whole, starts, n)
  {
    hide R, Plain, Ahead, Continues, Reached, Fresh, Entry, NodesOf;
    var p, q := |first.ctx.subject|, |second.ctx.subject|;
    NodePos(saved2, p + q, n);
    SavedTwice(saved2, p, q, n);
    AgainEntry(whole, first, second, area, starts, saved, starts2, n);
  }

  lemma AgainStart(whole: Env, first: Env, second: Env, area: Area, starts: seq<Node>, saved: seq<State>,
                   starts2: seq<Node>, saved2: seq<State>, n: Node)
    requires TwoRuns(whole, first, second, area, starts, saved, starts2) && Resumable(second, starts2, saved2)
    requires n in starts && n.pos == |whole.ctx.subject|
    ensures n in NodesOf(saved2, |whole.ctx.subject|)
  {
    hide R, Plain, Ahead, Continues, Reached, Fresh, Entry, NodesOf;
    SavedStart(first, starts, saved, starts2, n, n);
    SavedTwice(saved2, |first.ctx.subject|, |second.ctx.subject|, n);
  }

  lemma AgainFresh(whole: Env, first: Env, second: Env, area: Area, starts: seq<Node>, saved: seq<State>,
                   starts2: seq<Node>, saved2: seq<State>, n: Node, z: Node)
    requires TwoRuns(whole, first, second, area, starts, saved, starts2) && Resumable(second, starts2, saved2)
    requires Reached(whole, starts, n) && n.pos < z.pos == |whole.ctx.subject| && z in Fresh(whole.code, whole.ctx, n)
    ensures z in NodesOf(saved2, |whole.ctx.subject|)
  {
    hide R, Plain, Ahead, Continues, Reached, Fresh, Entry, NodesOf;
    var p := |first.ctx.subject|;
    ReachedAhead(whole, area, starts, n);
    SavedTwice(saved2, p, |second.ctx.subject|, z);
    if n.pos < p {
      ReachedBefore(whole, first, second, area, starts, n);
      SameBefore(whole, first, second, area, n);
      FreshPos(whole, area, n, z);
      SavedStart(first, starts, saved, starts2, n, z);
    } else {
      RestartReaches(whole, first, second, area, starts, saved, starts2, n);
      SameFresh(whole, first, second, n, z);
    }
  }

  /** If the second run is suspended in turn, what it saves resumes the whole: so any number of
      pieces can follow one another. */
  lemma RestartAgain(whole: Env, first: Env, second: Env, area: Area, starts: seq<Node>, saved: seq<State>,
                     starts2: seq<Node>, saved2: seq<State>)
    requires TwoRuns(whole, first, second, area, starts, saved, starts2) && Resumable(second, starts2, saved2)
    ensures Resumable(whole, starts, saved2)
  {
    hide R, TwoRuns, Reached, Fresh, Entry, NodesOf;
    assert Sane(saved2);
    var e := |whole.ctx.subject|;
    forall n | n in NodesOf(saved2, e)
      ensures n.pos == e && Entry(whole, starts, n)
    {
      AgainSaved(whole, first, second, area, starts, saved, starts2, saved2, n);
    }
    forall n | n in starts && n.pos == e
      ensures n in NodesOf(saved2, e)
    {
      AgainStart(whole, first, second, area, starts, saved, starts2, saved2, n);
    }
    forall n, z | Reached(whole, starts, n) && n.pos < e && z in Fresh(whole.code, whole.ctx, n) && z.pos == e
      ensures z in NodesOf(saved2, e)
    {
      AgainFresh(whole, first, second, area, starts, saved, starts2, saved2, n, z);
    }
  }

  // ----- what a restart needs of its workspace -----

  lemma SavedSane(env: Env, starts: seq<Node>, saved: seq<State>)
    requires Resumable(env, starts, saved)
    ensures Sane(saved)
  {
  }

  lemma StartsPlaceable(whole: Env, first: Env, area: Area, s: nat)
    requires Startable(whole, area, 0, s) && s <= |first.ctx.subject|
    ensures Placeable(whole, first, area, Starts(whole.code, 0, s))
  {
    hide Starts;
    StartsInside(whole.code, 0, s);
  }

  /** Starts at the beginning are proper in any subject. */
  lemma StartableAtZero(whole: Env, env: Env, area: Area, base: nat)
    requires Startable(whole, area, 0, 0) && whole.code == env.code && whole.end == env.end && whole.depth == env.depth
    ensures Startable(env, area.(base := base), 0, 0)
  {
    hide Starts;
    StartsInside(whole.code, 0, 0);
  }

  /** The saved states are ones that the second run may begin with, when the first piece is counted. */
  lemma SavedProper(whole: Env, first: Env, second: Env, area: Area, starts: seq<Node>, saved: seq<State>)
    requires Joined(whole, first, second) && Plain(whole, area) && Placeable(whole, first, area, starts)
    requires Resumable(first, starts, saved)
    ensures Proper(second, area.(base := area.base + |first.ctx.subject|), NodesOf(saved, 0))
  {
    hide Plain, Reached, Fresh, Entry, NodesOf;
    var p := |first.ctx.subject|;
    forall n | n in NodesOf(saved, 0)
      ensures n.pos == 0 && Allowed(second, area, n) && (n.off == second.end ==> n.cnt == 0)
      ensures n.cnt < Counts(second.code, n.off, area.base + |first.ctx.subject|)
    {
      var z := Node(n.pos + p, n.off, n.cnt);
      assert Shifted(z, p) == n;
      SavedAt(saved, p, z);
      EntryBefore(whole, first, second, area, starts, z);
      EntryReached(whole, starts, z);
      ReachedAhead(whole, area, starts, z);
    }
  }

  // ----- which tests can be cut -----

  /** The test at `p` comes out alike in the pieces and in the whole: before the cut in the first piece,
      from the cut on in the second. */
  predicate Alike(op: Byte, so: Ctx, x: Ctx, p: nat) {
    TestHolds(x.(subject := so.subject + x.subject), op, p) ==
      if p < |so.subject| then TestHolds(so, op, p) else TestHolds(x, op, p - |so.subject|)
  }

  ghost predicate Cuttable(op: Byte) {
    forall so: Ctx, x: Ctx, p: nat | so.tables == x.tables :: Alike(op, so, x, p)
  }

  const WORDS: CharTables := Tables(IDENTITY_TABLE, IDENTITY_TABLE, EMPTY_CLASS, EMPTY_CLASS, seq(256, _ => true))

  /** That is the test for the very end, and no other. */
  lemma TestExactly(op: Byte)
    requires IsTest(op)
    ensures Cuttable(op) <==> MovableTest(op)
  {
    if op != OP_EOD {
      var so := Ctx(WORDS, [97], false, false, false, false, 0, false, false, 0);
      var line := so.(subject := [NEWLINE]);
      if op == OP_CIRCM {
        assert !Alike(op, line, so.(notBol := true), 1);
      } else if op == OP_EODN || op == OP_DOLL {
        assert !Alike(op, line, so, 0);
      } else if op == OP_DOLLM {
        assert !Alike(op, line.(dollarEndOnly := true), so, 0);
      } else {
        assert !Alike(op, so, so, 1);
      }
    }
  }
}
