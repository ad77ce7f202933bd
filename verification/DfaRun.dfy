/** One run of the matcher over the subject from a given position, proved to record exactly
    the ends at which the state graph can reach the end of the pattern. */
module DfaRun {
  import opened Bytecode
  import opened Tree
  import opened Subject
  import opened Graph
  import opened Closure
  import opened Room
  import opened Scan
  import opened Tally
  import opened Matcher
  import opened Inspection

  // ----- starting states -----

  /** One more branch state after those of `added`. */
  method AddHead(v: StateVector, e: nat, ghost was: seq<State>, ghost added: seq<nat>, ghost p: nat) returns (ok: bool)
    requires v.Valid() && v.View() == was + ToStates(Heads(p, added))
    modifies v`count, v.items
    ensures v.Valid() && (ok ==> v.View() == was + ToStates(Heads(p, added + [e])))
    ensures !ok ==> v.Full()
    ensures ok <==> old(v.count) < v.items.Length
    ensures ok ==> v.count == old(v.count) + 1
  {
    ok := v.Add(State(e, 0, 0));
    ghost var more := ToStates(Heads(p, added + [e]));
    assert more == ToStates(Heads(p, added)) + [State(e, 0, 0)];
  }

  lemma AltEntriesStep(code: seq<Byte>, h: nat)
    ensures At(code, h) == OP_ALT ==>
              var n := h + Get(code, h + 1);
              AltEntries(code, h) == [h + 1 + LINK_SIZE] + if h < n < |code| then AltEntries(code, n) else []
    ensures At(code, h) != OP_ALT ==> AltEntries(code, h) == []
  {
  }

  lemma BranchAdded(code: seq<Byte>, h: nat, added: seq<nat>, all: seq<nat>)
    requires At(code, h) == OP_ALT && all == added + AltEntries(code, h)
    ensures var n := h + Get(code, h + 1);
            all == (added + [h + 1 + LINK_SIZE]) + if h < n < |code| then AltEntries(code, n) else []
  {
    AltEntriesStep(code, h);
  }

  /** Add a state for each branch of the bracket at `o`. */
  method AddBranches(code: seq<Byte>, o: nat, v: StateVector, ghost p: nat) returns (ok: bool)
    requires v.Valid()
    modifies v`count, v.items
    ensures v.Valid()
    ensures ok ==> v.View() == old(v.View()) + ToStates(Heads(p, Entries(code, o)))
    ensures !ok ==> v.Full()
    ensures ok <==> old(v.count) + |Entries(code, o)| <= v.items.Length
  {
    hide ToStates, HeaderLen, AltEntries, Heads, Get, At;
    ghost var was := v.View();
    ghost var added: seq<nat> := [];
    assert ToStates(Heads(p, added)) == [];
    var e := o + HeaderLen(At(code, o));
    var h: nat := o + Get(code, o + 1);
    ok := AddHead(v, e, was, added, p);
    if !ok { return; }
    added := [e];
    var more := true;
    while more && At(code, h) == OP_ALT
      invariant v.Valid() && v.View() == was + ToStates(Heads(p, added)) && v.count == old(v.count) + |added|
      invariant Entries(code, o) == added + if more then AltEntries(code, h) else []
      decreases more, if h < |code| then |code| - h else 0
    {
      BranchAdded(code, h, added, Entries(code, o));
      ok := AddHead(v, h + 1 + LINK_SIZE, was, added, p);
      if !ok { return; }
      added := added + [h + 1 + LINK_SIZE];
      var n := h + Get(code, h + 1);
      more := h < n < |code|;
      h := n;
    }
    AltEntriesStep(code, h);
  }

  /** One branch of a lookbehind, and the branches after it. */
  lemma BackStartsStep(code: seq<Byte>, h: nat, p: nat)
    ensures var back := Get(code, h + 2 + LINK_SIZE);
            var n := h + Get(code, h + 1);
            BackStarts(code, h, p)
            == (if back <= p then [Node(p - back, h + 2 + 2 * LINK_SIZE, 0)] else [])
               + if h < n < |code| && code[n] == OP_ALT then BackStarts(code, n, p) else []
  {
  }

  /** The greatest distance that any branch of a lookbehind goes back, by way of its links. */
  method MaxBack(code: seq<Byte>, o: nat, p: nat) returns (back: nat)
    ensures back == Furthest(code, o)
    ensures forall t | t in BackStarts(code, o, p) :: p - back <= t.pos
    ensures back <= p ==> exists t :: t in BackStarts(code, o, p) && t.pos == p - back
  {
    hide BackStarts, Get;
    BackStartsStep(code, o, p);
    assert Get(code, o + 2 + LINK_SIZE) <= p ==> BackStarts(code, o, p)[0].pos == p - Get(code, o + 2 + LINK_SIZE);
    back := Get(code, o + 2 + LINK_SIZE);
    var h := o;
    while true
      invariant Get(code, h + 2 + LINK_SIZE) <= back && Furthest(code, o) == Max(back, Furthest(code, h))
      invariant forall t | t in BackStarts(code, o, p) :: t in BackStarts(code, h, p) || p - back <= t.pos
      invariant forall t | t in BackStarts(code, h, p) :: t in BackStarts(code, o, p)
      invariant back <= p ==> exists t :: t in BackStarts(code, o, p) && t.pos == p - back
      decreases if h < |code| then |code| - h else 0
    {
      BackStartsStep(code, h, p);
      var n := h + Get(code, h + 1);
      if !(h < n < |code| && code[n] == OP_ALT) { break; }
      h := n;
      var b := Get(code, h + 2 + LINK_SIZE);
      BackStartsStep(code, h, p);
      assert b <= p ==> BackStarts(code, h, p)[0].pos == p - b;
      if b > back { back := b; }
    }
  }

  /** One more state, to wait from `cur` until the position `q`. */
  method Wait(v: StateVector, off: nat, q: nat, cur: nat) returns (ok: bool)
    requires v.Valid() && Sane(v.View()) && cur <= q && off > 0
    modifies v`count, v.items
    ensures v.Valid()
    ensures ok ==> Sane(v.View()) && NodesOf(v.View(), cur) == old(NodesOf(v.View(), cur)) + {Node(q, off, 0)}
    ensures !ok ==> v.Full()
    ensures (ok <==> old(v.count) < v.items.Length) && (ok ==> v.count == old(v.count) + 1)
  {
    ghost var was := v.View();
    var st := State(0 - off, 0, q - cur);
    ok := v.Add(st);
    if ok {
      NodesAppend(was, [st], cur);
      NodesSingle(st, cur);
    }
  }

  lemma NoNodes(p: nat)
    ensures NodesOf([], p) == {}
  {
  }

  /** Set up the branches of a lookbehind from `p`, gone back to `cur`: each waits until its own start. */
  method AddBackStarts(code: seq<Byte>, o: nat, p: nat, cur: nat, v: StateVector) returns (ok: bool)
    requires v.Valid() && v.View() == [] && cur <= p
    requires forall t | t in BackStarts(code, o, p) :: cur <= t.pos
    modifies v`count, v.items
    ensures v.Valid()
    ensures ok ==> Sane(v.View()) && NodesOf(v.View(), cur) == set t | t in BackStarts(code, o, p)
    ensures !ok ==> v.Full()
    ensures ok <==> |BackStarts(code, o, p)| <= v.items.Length
    ensures ok ==> v.count == |BackStarts(code, o, p)|
  {
    hide BackStarts, Get, NodesOf;
    var h := o;
    ok := true;
    ghost var seen: seq<Node> := [];
    assert NodesOf(v.View(), cur) == {} by { NoNodes(cur); }
    while true
      invariant v.Valid() && Sane(v.View()) && NodesOf(v.View(), cur) == (set t | t in seen) && v.count == |seen|
      invariant BackStarts(code, o, p) == seen + BackStarts(code, h, p)
      decreases if h < |code| then |code| - h else 0
    {
      var back := Get(code, h + 2 + LINK_SIZE);
      BackStartsStep(code, h, p);
      ghost var all := BackStarts(code, h, p);
      if back <= p {
        assert all[0] == Node(p - back, h + 2 + 2 * LINK_SIZE, 0) && all[0] in BackStarts(code, o, p);
        ok := Wait(v, h + 2 + 2 * LINK_SIZE, p - back, cur);
        if !ok { return; }
        seen := seen + [all[0]];
      }
      var n := h + Get(code, h + 1);
      if !(h < n < |code| && code[n] == OP_ALT) { break; }
      h := n;
    }
  }

  // ----- one state -----

  /** The two vectors after a state was expanded: what was appended, and that it is in order. */
  ghost predicate Appended(env: Env, area: Area, n: Node, a: seq<Node>, f: seq<Node>, clean: bool) {
    && Proper(env, area, set z | z in a) && Proper(env, area, set z | z in f)
    && (forall z | z in a :: z.pos == n.pos)
    && (forall z | z in f :: z.pos == n.pos + 1)
    && (clean ==> a == Act(env, n) && f == Fresh(env.code, env.ctx, n))
  }

  /** One more state at this position. */
  method AddState(v: StateVector, off: nat, c: nat, ghost p: nat) returns (ok: bool)
    requires v.Valid()
    modifies v`count, v.items
    ensures v.Valid()
    ensures ok ==> v.View() == old(v.View()) + ToStates([Node(p, off, c)])
    ensures !ok ==> v.Full()
    ensures ok <==> old(v.count) < v.items.Length
  {
    ok := v.Add(State(off, c, 0));
    assert ToStates([Node(p, off, c)]) == [State(off, c, 0)];
  }

  /** Two more states. */
  method AddPair(v: StateVector, off: nat, then2: nat, ghost p: nat) returns (ok: bool)
    requires v.Valid()
    modifies v`count, v.items
    ensures v.Valid()
    ensures ok ==> v.View() == old(v.View()) + ToStates([Node(p, off, 0), Node(p, then2, 0)])
    ensures !ok ==> v.Full()
    ensures ok <==> old(v.count) + 2 <= v.items.Length
  {
    ghost var was := v.View();
    ok := v.Add(State(off, 0, 0));
    if ok {
      ok := v.Add(State(then2, 0, 0));
      var two := ToStates([Node(p, off, 0), Node(p, then2, 0)]);
      assert two == [State(off, 0, 0), State(then2, 0, 0)];
      assert was + [State(off, 0, 0)] + [State(then2, 0, 0)] == was + two;
    }
  }

  /** A repeated character: maybe stop here, maybe take one more. */
  method StepRepeat(x: Ctx, atom: Atom, b: Bounds, p: nat, off: nat, c: nat, next: nat,
                    act: StateVector, later: StateVector) returns (ok: bool, ghost a: seq<Node>, ghost f: seq<Node>)
    requires ValidAtom(atom) && act.Valid() && later.Valid() && act != later && act.items != later.items
    modifies act`count, act.items, later`count, later.items
    ensures act.Valid() && later.Valid()
    ensures a == if CanExit(b, c) && !(b.poss && MatchesHere(x, atom, p)) then [Node(p, next, 0)] else []
    ensures f == if MatchesHere(x, atom, p) then [RepNext(b, Node(p, off, c), next)] else []
    ensures ok ==> act.View() == old(act.View()) + ToStates(a) && later.View() == old(later.View()) + ToStates(f)
    ensures !ok ==> act.Full() || later.Full()
    ensures !ok ==> old(act.count) >= act.items.Length || old(later.count) >= later.items.Length
  {
    ok := true;
    a := if CanExit(b, c) && !(b.poss && MatchesHere(x, atom, p)) then [Node(p, next, 0)] else [];
    f := if MatchesHere(x, atom, p) then [RepNext(b, Node(p, off, c), next)] else [];
    if CanExit(b, c) {
      ok := AddState(act, next, 0, p);
      if !ok { return; }
    }
    if MatchesHere(x, atom, p) {
      if CanExit(b, c) && b.poss {
        act.RemoveLast();
      }
      if b.hi >= 0 && c + 1 >= b.hi {
        ok := AddState(later, next, 0, p + 1);
      } else {
        ok := AddState(later, off, if b.keep then c + 1 else 0, p + 1);
      }
    }
  }

  /** Opcodes that look at the current character add to the next list, repeats also to this one. */
  method StepCharacter(x: Ctx, ins: Instr, p: nat, off: nat, c: nat, act: StateVector, later: StateVector, ghost env: Env)
    returns (ok: bool)
    requires act.Valid() && later.Valid() && act != later && act.items != later.items
    requires env.ctx == x && ins == Decode(env.code, off) && (ins.IOne? || ins.IRep?)
    modifies act`count, act.items, later`count, later.items
    ensures act.Valid() && later.Valid()
    ensures var n := Node(p, off, c);
            ok ==> (act.View() == old(act.View()) + ToStates(Act(env, n))
                    && later.View() == old(later.View()) + ToStates(Fresh(env.code, x, n)))
    ensures !ok ==> act.Full() || later.Full()
    ensures !ok ==> old(act.count) + OutDegree(env.code, off) > act.items.Length || old(later.count) >= later.items.Length
  {
    hide Decode;
    ok := true;
    match ins
    case IOne(atom, next) =>
      var m := SingleAt(x, atom, p);
      if m {
        ok := AddState(later, next, 0, p + 1);
      }
    case IRep(atom, form, least, most, next) =>
      ghost var a, f;
      ok, a, f := StepRepeat(x, atom, RepBounds(atom, form, least, most), p, off, c, next, act, later);
  }

  /** Opcodes that do not look at the current character add to the current list only. */
  method StepPlace(md: MatchBlock, code: seq<Byte>, x: Ctx, ins: Instr, p: nat, off: nat, c: nat, act: StateVector, ghost env: Env)
    returns (ok: bool)
    requires act.Valid() && env.code == code && env.ctx == x && off != env.end && ins == Decode(code, off)
    requires !ins.Bad? && !ins.IOne? && !ins.IRep? && !ins.ILook?
    modifies md, act`count, act.items
    ensures act.Valid()
    ensures var n := Node(p, off, c);
            Fresh(code, x, n) == [] && (ok ==> act.View() == old(act.View()) + ToStates(Act(env, n)))
    ensures !ok ==> act.Full()
    ensures md.startUsed <= old(md.startUsed)
    ensures old(md.startUsed) <= p ==> Looks(env, Node(p, off, c), old(md.startUsed), md.startUsed)
    ensures !ok ==> old(act.count) + OutDegree(code, off) > act.items.Length
  {
    hide Decode, Entries, ToKet;
    ok := true;
    match ins
    case ITest(op, next) =>
      if (op == OP_WORD_BOUNDARY || op == OP_NOT_WORD_BOUNDARY) && p > 0 && p - 1 < md.startUsed {
        md.startUsed := p - 1;
      }
      if TestHolds(x, op, p) {
        ok := AddState(act, next, 0, p);
      }
    case IAlt(ket) =>
      ok := AddState(act, ket, 0, p);
    case IKet(next, loop, back) =>
      if loop {
        ok := AddPair(act, next, back, p);
      } else {
        ok := AddState(act, next, 0, p);
      }
    case IBra =>
      ok := AddBranches(code, off, act, p);
    case IZero(entry, next) =>
      ok := AddPair(act, entry, next, p);
    case ISkip(next) =>
      ok := AddState(act, next, 0, p);
  }

  /** What the matcher does on meeting the state (`off`, `c`) at position `p`. */
  method StepState(md: MatchBlock, code: seq<Byte>, x: Ctx, o: Options, p: nat, off: nat, c: nat,
                   act: StateVector, later: StateVector, level: nat,
                   ghost env: Env, ghost area: Area, ghost plain: bool)
    returns (ok: bool, cont: bool, ghost clean: bool, ghost a: seq<Node>, ghost f: seq<Node>)
    requires act.Valid() && later.Valid() && act != later && act.items != later.items
    requires env.code == code && env.ctx == x && Sealed(code, area.places, plain) && Decode(code, env.end).IKet?
    requires off != env.end && Place(off, env.depth, env.end) in area.places && p <= |x.subject|
    requires c < Counts(code, off, area.base + p)
    requires level >= 1 && md.startUsed <= p
    modifies md, act`count, act.items, later`count, later.items
    ensures act.Valid() && later.Valid()
    ensures ok ==> act.View() == old(act.View()) + ToStates(a) && later.View() == old(later.View()) + ToStates(f)
    ensures ok ==> Appended(env, area, Node(p, off, c), a, f, clean)
    ensures Quiet(env, area) ==> clean
    ensures cont <==> (Decode(code, off).ITest? && Awaits(x, Decode(code, off).op, p))
    ensures !ok ==> act.Full() || later.Full()
    ensures md.startUsed <= old(md.startUsed) && (clean ==> Looks(env, Node(p, off, c), old(md.startUsed), md.startUsed))
    ensures ok ==> |a| <= OutDegree(code, off) && |f| <= 1
    ensures !ok ==> old(act.count) + OutDegree(code, off) > act.items.Length || old(later.count) >= later.items.Length
    decreases env.depth, 1
  {
    hide Decode, Act, Proper, ToStates, Looks;
    ghost var n := Node(p, off, c);
    var ins := Decode(code, off);
    cont, clean := ins.ITest? && Awaits(x, ins.op, p), true;
    a, f := Act(env, n), Fresh(code, x, n);
    PlaceProper(env, area, n);
    StepProper(env, area, n, plain);
    DegreeBound(env, n);
    if ins.IOne? || ins.IRep? {
      ok := StepCharacter(x, ins, p, off, c, act, later, env);
      CharacterLooks(env, n, md.startUsed);
    } else {
      if ins.ILook? {
        ok, clean, a := StepLook(md, code, x, o, p, off, c, ins.op, ins.next, act, level, env, area, plain);
      } else {
        Supported(env, area, plain, off);
        ok := StepPlace(md, code, x, ins, p, off, c, act, env);
      }
      assert ToStates(f) == [] by { NoStates(); }
    }
  }

  /** An item that matches a character looks at nothing before it. */
  lemma CharacterLooks(env: Env, n: Node, u: nat)
    requires (Decode(env.code, n.off).IOne? || Decode(env.code, n.off).IRep?) && u <= n.pos
    ensures Looks(env, n, u, u)
  {
    hide Decode;
  }

  lemma PlaceProper(env: Env, area: Area, n: Node)
    requires Place(n.off, env.depth, env.end) in area.places && n.off != env.end && n.pos <= |env.ctx.subject|
    requires n.cnt < Counts(env.code, n.off, area.base + n.pos)
    ensures Proper(env, area, {n})
  {
  }

  lemma NoStates()
    ensures ToStates([]) == []
  {
  }

  /** No run meets an opcode that the matcher does not support. */
  lemma Supported(env: Env, area: Area, plain: bool, off: nat)
    requires Sealed(env.code, area.places, plain) && Place(off, env.depth, env.end) in area.places
    ensures !Decode(env.code, off).Bad?
  {
    hide Decode, Entries, ToKet, Starts;
    var x := Place(off, env.depth, env.end);
    assert Known(env.code, area.places, Place(x.end, x.depth, x.end), x, plain);
  }

  /** An assertion runs the matcher on its body, with a workspace of its own. A run that is short of
      room counts as one without a match: a positive assertion then fails, a negative one holds,
      whatever the body; and `clean` no longer holds. */
  method StepLook(md: MatchBlock, code: seq<Byte>, x: Ctx, o: Options, p: nat, off: nat, c: nat, op: Byte, next: nat,
                  act: StateVector, level: nat, ghost env: Env, ghost area: Area, ghost plain: bool)
    returns (ok: bool, ghost clean: bool, ghost a: seq<Node>)
    requires act.Valid() && env.code == code && env.ctx == x && Sealed(code, area.places, plain)
    requires Place(off, env.depth, env.end) in area.places && p <= |x.subject| && Decode(code, off) == ILook(op, next)
    requires level >= 1 && md.startUsed <= p
    modifies md, act`count, act.items
    ensures act.Valid()
    ensures ok ==> act.View() == old(act.View()) + ToStates(a)
    ensures Proper(env, area, set z | z in a) && forall z | z in a :: z.pos == p
    ensures clean ==> a == Act(env, Node(p, off, c))
    ensures !ok ==> act.Full()
    ensures md.startUsed <= old(md.startUsed) && (clean ==> Looks(env, Node(p, off, c), old(md.startUsed), md.startUsed))
    ensures |a| <= 1 && (!ok ==> old(act.count) >= act.items.Length)
    ensures Quiet(env, area) ==> clean
    ensures |Starts(code, off, p)| > Capacity(LOOK_WORKSPACE) ==>
      !clean && a == if op == OP_ASSERT || op == OP_ASSERTBACK then [] else [Node(p, next, 0)]
    decreases env.depth, 0
  {
    hide Decode, Entries, ToKet, Starts, Known, Act, Sealed, ToStates, LookHolds, Finishes, R, Capacity, Inspected, Looks, RunFrom;
    LookPlace(env, area, plain, p, off, op, next);
    LookAct(env, Node(p, off, c), op, next);
    LookQuiet(env, area, p, off);
    var lo := new int[2];
    var lw := new Workspace(LOOK_WORKSPACE);
    var rc, ends, starts, start, whole := InternalDfaExec(md, code, off, p, x.(som := p), o, lo, lw, level + 1, env.depth - 1, area, plain);
    clean := whole && rc != WSSIZE;
    ok := true;
    a := [];
    if (rc >= 0) == (op == OP_ASSERT || op == OP_ASSERTBACK) {
      ok := AddState(act, next, 0, p);
      a := [Node(p, next, 0)];
    }
    if clean {
      LookResult(env, o, p, off, ends, starts, start);
      LookLooks(env, o.shortest && ends != [], Node(p, off, c), old(md.startUsed), md.startUsed);
    }
  }

  /** What the assertion's run inspected, the assertion did. */
  lemma LookLooks(env: Env, cut: bool, n: Node, u: nat, v: nat)
    requires Decode(env.code, n.off).ILook? && env.depth > 0 && v <= u <= n.pos
    requires Inspected(Nested(env.code, env.ctx, env.depth, n.off, n.pos), Starts(env.code, n.off, n.pos), RunFrom(env.code, n.off, n.pos),
                       cut, Begun(env.code, n.off, n.pos, u), v)
    ensures Looks(env, n, u, v)
  {
    hide Decode, Starts, RunFrom, AllConfined, Touched, SureReached;
    var inner, starts, start := Nested(env.code, env.ctx, env.depth, n.off, n.pos), Starts(env.code, n.off, n.pos), RunFrom(env.code, n.off, n.pos);
    assert ConfinedRun(inner, starts, start, v);
    assert Confined(env, v, n);
    assert v == u || Touches(env, n, v);
  }

  /** When every assertion's run has room, this one's has. */
  lemma LookQuiet(env: Env, area: Area, p: nat, off: nat)
    requires Place(off, env.depth, env.end) in area.places && Decode(env.code, off).ILook? && env.depth > 0
    ensures var inner := Nested(env.code, env.ctx, env.depth, off, p);
            Quiet(env, area) ==>
              Quiet(inner, area) && |Starts(env.code, off, p)| + RunRoom(inner, area) <= Capacity(LOOK_WORKSPACE)
  {
    hide Decode, Entries, Starts, ToKet;
    StartsFew(env.code, off, p);
    assert Place(off, env.depth, env.end).depth > 0;
  }

  /** A run starts in at most one state for each branch. */
  lemma StartsFew(code: seq<Byte>, o: nat, p: nat)
    ensures |Starts(code, o, p)| <= |Entries(code, o)|
  {
    BackStartsFew(code, o, p);
  }

  lemma BackStartsFew(code: seq<Byte>, o: nat, p: nat)
    ensures |BackStarts(code, o, p)| <= |Entries(code, o)|
    decreases if o < |code| then |code| - o else 0
  {
    hide Get;
    BackStartsStep(code, o, p);
    var n := o + Get(code, o + 1);
    AltEntriesStep(code, n);
    if o < n < |code| && code[n] == OP_ALT {
      BackStartsFew(code, n, p);
    }
  }

  /** What is known where an assertion stands. */
  lemma LookPlace(env: Env, area: Area, plain: bool, p: nat, off: nat, op: Byte, next: nat)
    requires Sealed(env.code, area.places, plain) && Place(off, env.depth, env.end) in area.places
    requires Decode(env.code, off) == ILook(op, next) && p <= |env.ctx.subject|
    ensures env.depth > 0 && Proper(env, area, {Node(p, next, 0)})
    ensures Decode(env.code, ToKet(env.code, off)).IKet?
    ensures Startable(Nested(env.code, env.ctx, env.depth, off, p), area, off, p)
  {
    hide Decode, Entries, ToKet, Starts, Known;
    KnownLook(env.code, area.places, Place(off, env.depth, env.end), plain, op, next);
    StartsInside(env.code, off, p);
  }

  lemma LookAct(env: Env, n: Node, op: Byte, next: nat)
    requires Decode(env.code, n.off) == ILook(op, next)
    ensures Act(env, n)
         == if LookHolds(env.code, env.ctx, env.depth, n.off, n.pos) == (op == OP_ASSERT || op == OP_ASSERTBACK)
            then [Node(n.pos, next, 0)] else []
  {
    hide Decode;
  }

  /** All nodes at which the bracket at `o` may be begun from `p` are proper. */
  ghost predicate Startable(env: Env, area: Area, o: nat, p: nat) {
    Proper(env, area, set t | t in Starts(env.code, o, p))
  }

  lemma StartsInside(code: seq<Byte>, o: nat, p: nat)
    ensures forall t | t in Starts(code, o, p) :: t.pos <= p && t.cnt == 0
  {
    if At(code, o + HeaderLen(At(code, o))) == OP_REVERSE {
      BackInside(code, o, p);
    }
  }

  lemma BackInside(code: seq<Byte>, o: nat, p: nat)
    ensures forall t | t in BackStarts(code, o, p) :: t.pos <= p && t.cnt == 0
    decreases if o < |code| then |code| - o else 0
  {
    BackStartsStep(code, o, p);
    var n := o + Get(code, o + 1);
    if o < n < |code| && code[n] == OP_ALT {
      BackInside(code, n, p);
    }
  }

  /** The nested run found an end exactly when the assertion's body can be matched. */
  lemma LookResult(env: Env, o: Options, p: nat, off: nat, ends: seq<nat>, starts: seq<Node>, cur: nat)
    requires env.depth > 0 && cur == RunFrom(env.code, off, p)
    requires starts == Starts(env.code, off, p)
    requires Recorded(Nested(env.code, env.ctx, env.depth, off, p), starts, o, cur, ends)
    ensures ends != [] <==> LookHolds(env.code, env.ctx, env.depth, off, p)
  {
    var inner := Nested(env.code, env.ctx, env.depth, off, p);
    if ends != [] {
      assert ends[0] in ends;
      LookHoldsIntro(env.code, env.ctx, env.depth, off, p, ends[0]);
    }
    if LookHolds(env.code, env.ctx, env.depth, off, p) {
      var j := LookHoldsElim(env.code, env.ctx, env.depth, off, p);
      assert ends != [];
    }
  }

  /** The earliest position looked at when a run from `p` begins: a lookbehind may go further back. */
  function Begun(code: seq<Byte>, o: nat, p: nat, u: nat): (v: nat)
    ensures v <= u
  {
    if GoesBack(code, o) && RunFrom(code, o, p) < u then RunFrom(code, o, p) else u
  }

  // ----- all active states at one position -----

  /** `ends` are the positions recorded so far: those at which the end of the pattern was seen,
      up to `p` itself, where only the nodes of `done` have been dealt with. */
  ghost predicate EndsUpTo(env: Env, o: Options, start: nat, seen: set<Node>, p: nat, done: set<Node>, ends: seq<nat>) {
    forall j: nat :: j in ends <==>
      var n := Node(j, env.end, 0);
      Recordable(env.ctx, start, j) && n in seen && (j < p || (j == p && n in done))
  }

  /** What holds whatever became of nested runs: the lists are proper, and the ends recorded
      and stored. */
  ghost predicate Sound(env: Env, area: Area, p: nat, act: seq<State>, later: seq<State>) {
    && p <= |env.ctx.subject| && Sane(act) && Sane(later)
    && Proper(env, area, NodesOf(act, p)) && Proper(env, area, NodesOf(later, p + 1))
  }

  ghost predicate Stored(env: Env, start: nat, p: nat, done: seq<State>, ends: seq<nat>, offsets: seq<int>, mc: int) {
    && Increasing(ends) && OffsetsHold(offsets, start, ends) && mc == MatchCount(ends, |offsets| / 2)
    && forall k | 0 <= k < |ends| :: ends[k] < p || (ends[k] == p && AtEnd(done, env.end))
  }

  ghost predicate AtEnd(done: seq<State>, end: nat) {
    exists k :: 0 <= k < |done| && done[k].offset == end
  }

  /** The node is a start, or is reached by passing a character: not by way of another state at
      its own position. */
  ghost predicate Entry(env: Env, starts: seq<Node>, n: Node) {
    n in starts || exists m :: Reached(env, starts, m) && m.pos < n.pos && n in Fresh(env.code, env.ctx, m)
  }

  /** Nodes that the scan has not come to yet were entered from earlier positions. */
  ghost predicate Entered(env: Env, starts: seq<Node>, seen: set<Node>, p: nat, i: nat) {
    forall n | n in seen && (n.pos > p || (i == 0 && n.pos == p)) :: Entry(env, starts, n)
  }

  /** The exact state of the scan, when no nested run overflowed. */
  ghost predicate Exact(env: Env, o: Options, starts: seq<Node>, start: nat, t: Trace, p: nat, i: nat,
                        act: seq<State>, later: seq<State>) {
    && Scanning(env, t.seen, p, i, act, later)
    && (forall s | s in starts :: s in t.seen)
    && (forall n | n in t.seen :: Reached(env, starts, n))
    && EndsUpTo(env, o, start, t.seen, p, NodesOf(act[..i], p), t.ends)
    && Entered(env, starts, t.seen, p, i)
    && (o.shortest ==> t.ends == [])
    && Careful(env, starts, t.seen, p, NodesOf(act[..i], p), t.from, t.low)
  }

  /** The nodes seen, the ends recorded, whether every nested run had room, and the earliest position looked at
      when the run began and by now. */
  datatype Trace = Trace(seen: set<Node>, ends: seq<nat>, clean: bool, from: nat, low: nat)

  /** What a run tells of the subject is exact. */
  ghost predicate Told(env: Env, o: Options, starts: seq<Node>, start: nat, t: Trace) {
    Recorded(env, starts, o, start, t.ends) && Inspected(env, starts, start, o.shortest && t.ends != [], t.from, t.low)
  }

  datatype Status = Scanned | Stopped | NoRoom

  /** Is there an equal state before the `i`th? */
  method FindDuplicate(v: StateVector, i: nat) returns (dup: bool, j: nat)
    requires v.Valid() && i < v.count
    ensures dup ==> j < i && v.View()[j].offset == v.View()[i].offset && v.View()[j].count == v.View()[i].count
    ensures !dup ==> forall k | 0 <= k < i ::
              v.View()[k].offset != v.View()[i].offset || v.View()[k].count != v.View()[i].count
  {
    dup, j := false, 0;
    while j < i
      invariant 0 <= j <= i
      invariant forall k | 0 <= k < j ::
        v.View()[k].offset != v.View()[i].offset || v.View()[k].count != v.View()[i].count
    {
      if v.items[j].offset == v.items[i].offset && v.items[j].count == v.items[i].count {
        return true, j;
      }
      j := j + 1;
    }
  }

  lemma ProperAppend(env: Env, area: Area, v: seq<State>, w: seq<State>, p: nat)
    requires Sane(v) && Sane(w) && Proper(env, area, NodesOf(v, p)) && Proper(env, area, NodesOf(w, p))
    ensures Sane(v + w) && Proper(env, area, NodesOf(v + w, p))
  {
    NodesAppend(v, w, p);
  }

  /** Carrying a waiting state over. */
  lemma StepSkip(env: Env, area: Area, o: Options, starts: seq<Node>, start: nat, t: Trace, p: nat, i: nat,
                 act: seq<State>, later: seq<State>)
    requires Sound(env, area, p, act, later) && i < |act| && act[i].offset < 0 && act[i].data > 0
    ensures Sound(env, area, p, act, later + [act[i].(data := act[i].data - 1)])
    ensures Exact(env, o, starts, start, t, p, i, act, later)
        ==> Exact(env, o, starts, start, t, p, i + 1, act, later + [act[i].(data := act[i].data - 1)])
  {
    hide Act, Fresh, Scanning, Reached, Careful, Entry, EndsUpTo, NodesOf;
    var st := act[i].(data := act[i].data - 1);
    NodeAt(act, i, p);
    NodesSingle(st, p + 1);
    assert AsNode(st, p + 1) == AsNode(act[i], p);
    ProperAppend(env, area, later, [st], p + 1);
    if Exact(env, o, starts, start, t, p, i, act, later) {
      SkipWaiting(env, t.seen, p, i, act, later);
      Split(act, i, p);
      EndsWait(env, o, start, t.seen, p, NodesOf(act[..i], p), AsNode(act[i], p), t.ends);
      CarefulSkip(env, starts, t.seen, p, NodesOf(act[..i], p), t.from, t.low, AsNode(act[i], p));
    }
  }

  lemma EndsWait(env: Env, o: Options, start: nat, seen: set<Node>, p: nat, done: set<Node>, n: Node, ends: seq<nat>)
    requires EndsUpTo(env, o, start, seen, p, done, ends) && n.pos > p
    ensures EndsUpTo(env, o, start, seen, p, done + {n}, ends)
  {
  }

  lemma StepWake(env: Env, area: Area, o: Options, starts: seq<Node>, start: nat, t: Trace, p: nat, i: nat,
                 act: seq<State>, later: seq<State>, st: State)
    requires Sound(env, area, p, act, later) && i < |act| && act[i].offset < 0 && act[i].data == 0
    requires st == State(-act[i].offset, act[i].count, act[i].data)
    ensures Sound(env, area, p, act[i := st], later)
    ensures Exact(env, o, starts, start, t, p, i, act, later) ==> Exact(env, o, starts, start, t, p, i, act[i := st], later)
  {
    hide Act, Fresh, Scanning, Reached, Careful;
    SameNodes(act, act[i := st], p);
    assert act[i := st][..i] == act[..i];
    if Exact(env, o, starts, start, t, p, i, act, later) {
      Wake(env, t.seen, p, i, act, later, st);
    }
  }

  lemma StepDuplicate(env: Env, o: Options, starts: seq<Node>, start: nat, t: Trace, p: nat, i: nat,
                      act: seq<State>, later: seq<State>, j: nat)
    requires Sane(act) && j < i < |act| && act[i].offset >= 0
    requires act[j].offset == act[i].offset && act[j].count == act[i].count
    ensures Exact(env, o, starts, start, t, p, i, act, later) ==> Exact(env, o, starts, start, t, p, i + 1, act, later)
  {
    hide Act, Fresh, Scanning, Reached, Careful;
    if Exact(env, o, starts, start, t, p, i, act, later) {
      Duplicate(env, t.seen, p, i, act, later, j);
      Split(act, i, p);
      NodeAt(act[..i], j, p);
      assert act[..i][j] == act[j];
      assert NodesOf(act[..i + 1], p) == NodesOf(act[..i], p);
    }
  }

  /** States already dealt with do not wait for this very position. */
  ghost predicate Dealt(done: seq<State>) {
    forall k | 0 <= k < |done| :: done[k].offset < 0 ==> done[k].data > 0
  }

  /** Meeting the end of the pattern for the first time at this position: the position is recorded. */
  lemma StepEnd(env: Env, o: Options, starts: seq<Node>, start: nat, t: Trace, p: nat, i: nat,
                act: seq<State>, later: seq<State>, ends: seq<nat>)
    requires Decode(env.code, env.end).IKet? && i < |act| && Dealt(act[..i])
    requires act[i].offset == env.end && act[i].count == 0 && !AtEnd(act[..i], env.end)
    requires ends == if Recordable(env.ctx, start, p) then t.ends + [p] else t.ends
    requires Exact(env, o, starts, start, t, p, i, act, later)
    ensures if o.shortest && ends != [] then Told(env, o, starts, start, t.(ends := ends))
            else Exact(env, o, starts, start, t.(ends := ends), p, i + 1, act, later)
  {
    hide Act, Fresh, Scanning, Reached, Recorded, Careful, Inspected, EndsUpTo, NodesOf, Looks, Entry;
    var n := AsNode(act[i], p);
    SeenAt(env, t.seen, p, i, act, later);
    NodeAt(act, i, p);
    assert n == Node(p, env.end, 0);
    EndStops(env, n);
    Expand(env, t.seen, p, i, act, later, n, t.seen);
    assert act + ToStates([]) == act && later + ToStates([]) == later;
    Split(act, i, p);
    EndUnseen(act[..i], env.end, p);
    EndsMore(env, o, start, t.seen, p, NodesOf(act[..i], p), t.ends, ends);
    if o.shortest && ends != [] {
      ShortestFound(env, o, starts, start, t, p, i, act, later);
      assert ends == [p];
      CarefulStop(env, starts, t.seen, p, NodesOf(act[..i], p), t.from, t.low, start);
    } else {
      PosFrom(env, starts, t.seen, p, NodesOf(act[..i], p), t.from, t.low, n);
      EndLooks(env, n, t.low);
      CarefulStep(env, starts, t.seen, p, NodesOf(act[..i], p), t.from, t.low, n, t.low, t.seen);
    }
  }

  lemma EndLooks(env: Env, n: Node, u: nat)
    requires Decode(env.code, env.end).IKet? && n.off == env.end && u <= n.pos
    ensures Looks(env, n, u, u)
  {
    hide Decode;
  }

  lemma SeenAt(env: Env, seen: set<Node>, p: nat, i: nat, act: seq<State>, later: seq<State>)
    requires Scanning(env, seen, p, i, act, later)
    ensures Sane(act) && Sane(later) && NodesOf(act, p) <= seen
  {
  }

  lemma EndStops(env: Env, n: Node)
    requires Decode(env.code, env.end).IKet? && n.off == env.end
    ensures Act(env, n) == [] && Fresh(env.code, env.ctx, n) == []
  {
    hide Decode;
  }

  lemma EndUnseen(done: seq<State>, end: nat, p: nat)
    requires Sane(done) && Dealt(done) && !AtEnd(done, end)
    ensures Node(p, end, 0) !in NodesOf(done, p)
  {
  }

  lemma EndsMore(env: Env, o: Options, start: nat, seen: set<Node>, p: nat, done: set<Node>, ends: seq<nat>, more: seq<nat>)
    requires EndsUpTo(env, o, start, seen, p, done, ends) && Node(p, env.end, 0) in seen
    requires more == if Recordable(env.ctx, start, p) then ends + [p] else ends
    ensures EndsUpTo(env, o, start, seen, p, done + {Node(p, env.end, 0)}, more)
  {
  }

  lemma ShortestFound(env: Env, o: Options, starts: seq<Node>, start: nat, t: Trace, p: nat, i: nat,
                      act: seq<State>, later: seq<State>)
    requires Exact(env, o, starts, start, t, p, i, act, later) && o.shortest
    requires Node(p, env.end, 0) in t.seen && Recordable(env.ctx, start, p)
    ensures Recorded(env, starts, o, start, [p])
  {
    hide Act, Fresh, Reached, Finishes;
    var n := Node(p, env.end, 0);
    ReachedFinishes(env, starts, p, n);
    forall j: nat | j < p && Finishes(env, starts, j)
      ensures !Recordable(env.ctx, start, j)
    {
      FinishesBelow(env, starts, t.seen, p, j);
      assert j !in t.ends;
    }
  }

  lemma ReachedFinishes(env: Env, starts: seq<Node>, j: nat, n: Node)
    requires n == Node(j, env.end, 0) && Reached(env, starts, n)
    ensures Finishes(env, starts, j)
  {
  }

  /** Any other state is expanded. */
  lemma StepOn(env: Env, area: Area, o: Options, starts: seq<Node>, start: nat, t: Trace, p: nat, i: nat,
               act: seq<State>, later: seq<State>, n: Node, more: set<Node>, v: nat)
    requires Looks(env, n, t.low, v)
    requires i < |act| && act[i].offset >= 0 && n == AsNode(act[i], p) && n.off != env.end
    requires Appended(env, area, n, Act(env, n), Fresh(env.code, env.ctx, n), true)
    requires Exact(env, o, starts, start, t, p, i, act, later)
    requires more == t.seen + (set z | z in Act(env, n)) + (set z | z in Fresh(env.code, env.ctx, n))
    ensures Exact(env, o, starts, start, t.(seen := more, low := v), p, i + 1,
                  act + ToStates(Act(env, n)), later + ToStates(Fresh(env.code, env.ctx, n)))
  {
    hide Act, Fresh, Scanning, Reached, Proper, ToStates, Entered, Entry, Careful, Looks;
    var b := act + ToStates(Act(env, n));
    SeenAt(env, t.seen, p, i, act, later);
    NodeAt(act, i, p);
    EnteredMore(env, area, starts, t.seen, p, i, n, more);
    Expand(env, t.seen, p, i, act, later, n, more);
    Split(act, i, p);
    assert b[..i + 1] == act[..i + 1];
    forall z | z in more
      ensures Reached(env, starts, z)
    {
      if z !in t.seen {
        ReachedStep(env, starts, n, z);
      }
    }
    EndsSame(env, o, start, t.seen, more, p, NodesOf(act[..i], p), n, t.ends);
    CarefulStep(env, starts, t.seen, p, NodesOf(act[..i], p), t.from, t.low, n, v, more);
  }

  lemma EnteredMore(env: Env, area: Area, starts: seq<Node>, seen: set<Node>, p: nat, i: nat, n: Node, more: set<Node>)
    requires Entered(env, starts, seen, p, i) && Reached(env, starts, n) && n.pos == p
    requires Appended(env, area, n, Act(env, n), Fresh(env.code, env.ctx, n), true)
    requires more == seen + (set z | z in Act(env, n)) + (set z | z in Fresh(env.code, env.ctx, n))
    ensures Entered(env, starts, more, p, i + 1)
  {
    hide Act, Fresh, Reached;
    forall z | z in more && z.pos > p
      ensures Entry(env, starts, z)
    {
    }
  }

  lemma EndsSame(env: Env, o: Options, start: nat, seen: set<Node>, more: set<Node>, p: nat, done: set<Node>, n: Node, ends: seq<nat>)
    requires EndsUpTo(env, o, start, seen, p, done, ends) && n.off != env.end
    requires seen <= more && (forall z | z in more && z !in seen :: z.pos >= p) && done <= seen
    ensures EndsUpTo(env, o, start, more, p, done + {n}, ends)
  {
  }

  // ----- the loop over the active states -----

  /** All that holds when the first `i` states have been dealt with; the states with which the
      position was begun stay in front and stand for the same nodes. */
  ghost predicate Going(env: Env, area: Area, o: Options, starts: seq<Node>, start: nat, t: Trace, p: nat, i: nat,
                        act: seq<State>, later: seq<State>, offsets: seq<int>, mc: int, n0: nat, nodes0: set<Node>) {
    && i <= |act| && n0 <= |act|
    && Sound(env, area, p, act, later)
    && Stored(env, start, p, act[..i], t.ends, offsets, mc)
    && Dealt(act[..i])
    && (t.clean ==> Exact(env, o, starts, start, t, p, i, act, later))
    && NodesOf(act[..n0], p) == nodes0 && t.low <= p
  }

  lemma PrefixGrows(env: Env, start: nat, p: nat, act: seq<State>, i: nat, ends: seq<nat>, offsets: seq<int>, mc: int)
    requires i < |act| && Stored(env, start, p, act[..i], ends, offsets, mc) && Dealt(act[..i])
    requires act[i].offset < 0 ==> act[i].data > 0
    ensures Stored(env, start, p, act[..i + 1], ends, offsets, mc) && Dealt(act[..i + 1])
  {
    var d := act[..i + 1];
    forall k | 0 <= k < |d|
      ensures d[k].offset < 0 ==> d[k].data > 0
    {
      assert d[k] == if k < i then act[..i][k] else act[i];
    }
    if AtEnd(act[..i], env.end) {
      var k :| 0 <= k < i && act[..i][k].offset == env.end;
      assert d[k].offset == env.end;
    }
  }

  lemma GoSkip(env: Env, area: Area, o: Options, starts: seq<Node>, start: nat, t: Trace, p: nat, i: nat,
               act: seq<State>, later: seq<State>, offsets: seq<int>, mc: int, n0: nat, nodes0: set<Node>)
    requires Going(env, area, o, starts, start, t, p, i, act, later, offsets, mc, n0, nodes0)
    requires i < |act| && act[i].offset < 0 && act[i].data > 0
    ensures Going(env, area, o, starts, start, t, p, i + 1, act, later + [act[i].(data := act[i].data - 1)], offsets, mc, n0, nodes0)
  {
    hide Exact, Stored, Dealt, NodesOf, Proper;
    StepSkip(env, area, o, starts, start, t, p, i, act, later);
    PrefixGrows(env, start, p, act, i, t.ends, offsets, mc);
  }

  lemma GoWake(env: Env, area: Area, o: Options, starts: seq<Node>, start: nat, t: Trace, p: nat, i: nat,
               act: seq<State>, later: seq<State>, offsets: seq<int>, mc: int, n0: nat, nodes0: set<Node>, st: State)
    requires Going(env, area, o, starts, start, t, p, i, act, later, offsets, mc, n0, nodes0)
    requires i < |act| && act[i].offset < 0 && act[i].data == 0 && st == State(-act[i].offset, act[i].count, act[i].data)
    ensures Going(env, area, o, starts, start, t, p, i, act[i := st], later, offsets, mc, n0, nodes0)
  {
    hide Exact, Stored, Dealt, Proper;
    var b := act[i := st];
    StepWake(env, area, o, starts, start, t, p, i, act, later, st);
    assert b[..i] == act[..i];
    assert Sane(act[..n0]) && Sane(b[..n0]);
    SameNodes(act[..n0], b[..n0], p);
  }

  lemma GoDuplicate(env: Env, area: Area, o: Options, starts: seq<Node>, start: nat, t: Trace, p: nat, i: nat,
                    act: seq<State>, later: seq<State>, offsets: seq<int>, mc: int, n0: nat, nodes0: set<Node>, j: nat)
    requires Going(env, area, o, starts, start, t, p, i, act, later, offsets, mc, n0, nodes0)
    requires j < i < |act| && act[i].offset >= 0 && act[j].offset == act[i].offset && act[j].count == act[i].count
    ensures Going(env, area, o, starts, start, t, p, i + 1, act, later, offsets, mc, n0, nodes0)
  {
    hide Exact, Stored, Dealt, NodesOf, Proper;
    StepDuplicate(env, o, starts, start, t, p, i, act, later, j);
    PrefixGrows(env, start, p, act, i, t.ends, offsets, mc);
  }

  /** The end of the pattern, met for the first time here. */
  lemma GoEnd(env: Env, area: Area, o: Options, starts: seq<Node>, start: nat, t: Trace, p: nat, i: nat,
              act: seq<State>, later: seq<State>, offsets: seq<int>, mc: int, n0: nat, nodes0: set<Node>,
              ends: seq<nat>, after: seq<int>, mc': int)
    requires Going(env, area, o, starts, start, t, p, i, act, later, offsets, mc, n0, nodes0)
    requires Decode(env.code, env.end).IKet? && i < |act| && act[i].offset == env.end
    requires forall k | 0 <= k < i :: act[k].offset != act[i].offset || act[k].count != act[i].count
    requires ends == if Recordable(env.ctx, start, p) then t.ends + [p] else t.ends
    requires OffsetsHold(after, start, ends) && mc' == MatchCount(ends, |after| / 2)
    ensures Increasing(ends)
    ensures o.shortest && ends != [] ==> t.clean ==> Told(env, o, starts, start, t.(ends := ends))
    ensures !(o.shortest && ends != []) ==>
              Going(env, area, o, starts, start, t.(ends := ends), p, i + 1, act, later, after, mc', n0, nodes0)
  {
    hide Exact, NodesOf, OffsetsHold, Told;
    EndsPlain(env, area, act, i, p);
    assert Stored(env, start, p, act[..i + 1], ends, after, mc') && Dealt(act[..i + 1]) by {
      assert act[..i + 1] == act[..i] + [act[i]];
      assert act[..i + 1][i].offset == env.end;
    }
    if t.clean {
      StepEnd(env, o, starts, start, t, p, i, act, later, ends);
    }
  }

  /** States at the end of the pattern carry no count, so there is at most one per position. */
  lemma EndsPlain(env: Env, area: Area, act: seq<State>, i: nat, p: nat)
    requires Sane(act) && Proper(env, area, NodesOf(act, p)) && i < |act| && act[i].offset == env.end
    requires forall k | 0 <= k < i :: act[k].offset != act[i].offset || act[k].count != act[i].count
    ensures act[i].count == 0 && !AtEnd(act[..i], env.end)
  {
    NodeAt(act, i, p);
    forall k | 0 <= k < i
      ensures act[..i][k].offset != env.end
    {
      NodeAt(act, k, p);
    }
  }

  /** Any other state, expanded into `a` at this position and `f` at the next. */
  lemma GoOn(env: Env, area: Area, o: Options, starts: seq<Node>, start: nat, t: Trace, p: nat, i: nat,
             act: seq<State>, later: seq<State>, offsets: seq<int>, mc: int, n0: nat, nodes0: set<Node>,
             a: seq<Node>, f: seq<Node>, clean: bool, u: Trace)
    requires Going(env, area, o, starts, start, t, p, i, act, later, offsets, mc, n0, nodes0)
    requires i < |act| && act[i].offset >= 0 && act[i].offset != env.end
    requires Appended(env, area, AsNode(act[i], p), a, f, clean)
    requires u == Trace(t.seen + (set z | z in a) + (set z | z in f), t.ends, t.clean && clean, t.from, u.low) && u.low <= t.low
    requires clean ==> Looks(env, AsNode(act[i], p), t.low, u.low)
    ensures Going(env, area, o, starts, start, u, p, i + 1, act + ToStates(a), later + ToStates(f), offsets, mc, n0, nodes0)
  {
    hide Exact, Stored, Dealt, NodesOf, Proper, ToStates, Act, Fresh, Looks;
    var b := act + ToStates(a);
    NodesOfStates(a, p);
    NodesOfStates(f, p + 1);
    ProperAppend(env, area, act, ToStates(a), p);
    ProperAppend(env, area, later, ToStates(f), p + 1);
    PrefixGrows(env, start, p, act, i, t.ends, offsets, mc);
    assert b[..i + 1] == act[..i + 1] && b[..n0] == act[..n0];
    if u.clean {
      StepOn(env, area, o, starts, start, t, p, i, act, later, AsNode(act[i], p), u.seen, u.low);
      assert t.(seen := u.seen, low := u.low) == u;
    }
  }

  /** The place of a state that is to be expanded. */
  lemma PlaceOf(env: Env, area: Area, act: seq<State>, i: nat, p: nat)
    requires Sane(act) && Proper(env, area, NodesOf(act, p)) && i < |act| && act[i].offset >= 0
    requires act[i].offset != env.end
    ensures Place(act[i].offset, env.depth, env.end) in area.places
    ensures act[i].count < Counts(env.code, act[i].offset, area.base + p)
  {
    NodeAt(act, i, p);
  }

  /** The end of the pattern is recorded unless an empty match is not wanted. */
  method MeetEnd(x: Ctx, o: Options, start: nat, p: nat, offsets: array<int>, mc0: int,
                 ghost env: Env, ghost area: Area, ghost starts: seq<Node>, ghost i: nat, ghost act: seq<State>, ghost later: seq<State>,
                 ghost n0: nat, ghost nodes0: set<Node>, ghost t0: Trace)
    returns (mc: int, stop: bool, ghost t: Trace)
    requires Going(env, area, o, starts, start, t0, p, i, act, later, offsets[..], mc0, n0, nodes0)
    requires env.ctx == x && Decode(env.code, env.end).IKet? && i < |act| && act[i].offset == env.end
    requires forall k | 0 <= k < i :: act[k].offset != act[i].offset || act[k].count != act[i].count
    requires o.shortest ==> t0.ends == []
    modifies offsets
    ensures t.clean == t0.clean && t.from == t0.from && t.low == t0.low
    ensures !stop ==> Going(env, area, o, starts, start, t, p, i + 1, act, later, offsets[..], mc, n0, nodes0)
    ensures !stop && o.shortest ==> t.ends == []
    ensures stop ==>
      && o.shortest && t.ends != [] && Increasing(t.ends)
      && OffsetsHold(offsets[..], start, t.ends) && mc == MatchCount(t.ends, offsets.Length / 2)
      && (t.clean ==> Told(env, o, starts, start, t))
  {
    hide Going, Exact, Stored, Decode, NodesOf, Told, OffsetsHold, Increasing;
    GoingParts(env, area, o, starts, start, t0, p, i, act, later, offsets[..], mc0, n0, nodes0);
    ghost var ends := if Recordable(x, start, p) then t0.ends + [p] else t0.ends;
    ghost var before := offsets[..];
    mc := mc0;
    if Recordable(x, start, p) {
      mc := Record(offsets, mc, start, p, t0.ends);
    }
    GoEnd(env, area, o, starts, start, t0, p, i, act, later, before, mc0, n0, nodes0, ends, offsets[..], mc);
    t := t0.(ends := ends);
    stop := Recordable(x, start, p) && o.shortest;
  }

  /** At the end of the subject the state looks for one more character. */
  ghost predicate Wants(env: Env, n: Node) {
    var ins := Decode(env.code, n.off);
    n.pos == |env.ctx.subject| && (Inspects(ins) || (ins.ITest? && Awaits(env.ctx, ins.op, n.pos)))
  }

  ghost predicate AnyWants(env: Env, done: seq<State>, p: nat) {
    exists k :: 0 <= k < |done| && done[k].offset >= 0 && Wants(env, AsNode(done[k], p))
  }

  /** Some path leads to the end of the subject and could use more of it. */
  ghost predicate Wanting(env: Env, starts: seq<Node>) {
    exists n :: Reached(env, starts, n) && Wants(env, n)
  }

  /** A run that records `ends` is to report a partial match instead. */
  ghost predicate Suspends(env: Env, starts: seq<Node>, o: Options, ends: seq<nat>) {
    (env.ctx.partialHard || (o.partialSoft && ends == [])) && Wanting(env, starts)
  }

  lemma WantsStep(env: Env, v: seq<State>, i: nat, p: nat)
    requires i < |v|
    ensures AnyWants(env, v[..i + 1], p) <==> AnyWants(env, v[..i], p) || (v[i].offset >= 0 && Wants(env, AsNode(v[i], p)))
  {
    hide Wants;
    if AnyWants(env, v[..i], p) {
      var k :| 0 <= k < i && v[..i][k].offset >= 0 && Wants(env, AsNode(v[..i][k], p));
      assert v[..i + 1][k] == v[k];
    }
    if v[i].offset >= 0 && Wants(env, AsNode(v[i], p)) { assert v[..i + 1][i] == v[i]; }
    if AnyWants(env, v[..i + 1], p) {
      var k :| 0 <= k < i + 1 && v[..i + 1][k].offset >= 0 && Wants(env, AsNode(v[..i + 1][k], p));
      if k < i { assert v[..i][k] == v[k]; }
    }
  }

  lemma WantsSame(env: Env, v: seq<State>, i: nat, j: nat, p: nat)
    requires j < i < |v| && v[i].offset == v[j].offset >= 0 && v[i].count == v[j].count
    ensures AnyWants(env, v[..i + 1], p) <==> AnyWants(env, v[..i], p)
  {
    hide Wants;
    WantsStep(env, v, i, p);
    assert v[..i][j] == v[j] && AsNode(v[j], p) == AsNode(v[i], p);
  }

  lemma NoWants(env: Env, v: seq<State>, p: nat)
    requires p < |env.ctx.subject| || v == []
    ensures !AnyWants(env, v, p)
  {
  }

  /** Expand the active state `st`, the one at `i`. */
  method GoStep(md: MatchBlock, code: seq<Byte>, x: Ctx, o: Options, p: nat, st: State, act: StateVector, later: StateVector, level: nat,
                ghost env: Env, ghost area: Area, ghost plain: bool, ghost starts: seq<Node>, ghost start: nat, ghost i: nat,
                ghost offsets: seq<int>, ghost mc: int, ghost n0: nat, ghost nodes0: set<Node>, ghost t0: Trace, ghost d0: nat)
    returns (ok: bool, cont: bool, ghost t: Trace)
    requires act.Valid() && later.Valid() && act != later && act.items != later.items
    requires env.code == code && env.ctx == x && Sealed(code, area.places, plain) && Decode(code, env.end).IKet?
    requires level >= 1 && t0.low == md.startUsed
    requires Going(env, area, o, starts, start, t0, p, i, act.View(), later.View(), offsets, mc, n0, nodes0)
    requires i < act.count && act.View()[i] == st && st.offset >= 0 && st.offset != env.end
    requires Tallied(env, act.View(), later.View(), i, n0, d0) && act.items.Length == later.items.Length
    requires forall k | 0 <= k < i :: act.View()[k].offset != st.offset || act.View()[k].count != st.count
    modifies md, act`count, act.items, later`count, later.items
    ensures act.Valid() && later.Valid()
    ensures ok ==> Going(env, area, o, starts, start, t, p, i + 1, act.View(), later.View(), offsets, mc, n0, nodes0)
    ensures ok ==> i < act.count
    ensures t.ends == t0.ends && (t.clean ==> t0.clean) && (Quiet(env, area) && t0.clean ==> t.clean)
    ensures !ok ==> act.Full() || later.Full()
    ensures t.from == t0.from && t.low == md.startUsed <= t0.low
    ensures ok ==> act.View()[..i + 1] == old(act.View())[..i + 1]
    ensures cont <==> Decode(code, st.offset).ITest? && Awaits(x, Decode(code, st.offset).op, p)
    ensures ok ==> Tallied(env, act.View(), later.View(), i + 1, n0, d0)
    ensures !ok ==> !Roomed(env, area, n0, d0, act.items.Length)
    decreases env.depth, 2
  {
    hide Going, Exact, Stored, Decode, NodesOf, Sealed, Appended, Tallied, RunRoom, RunSlots, Looks;
    ghost var v, w := act.View(), later.View();
    GoingParts(env, area, o, starts, start, t0, p, i, v, w, offsets, mc, n0, nodes0);
    PlaceOf(env, area, v, i, p);
    ghost var clean, a, f;
    if n0 <= d0 + |RunSlots(env, area)| { RoomHere(env, area, v, w, i, p, n0, d0); }
    ok, cont, clean, a, f := StepState(md, code, x, o, p, st.offset, st.count, act, later, level, env, area, plain);
    t := Trace(t0.seen + (set z | z in a) + (set z | z in f), t0.ends, t0.clean && clean, t0.from, md.startUsed);
    if ok {
      GoOn(env, area, o, starts, start, t0, p, i, v, w, offsets, mc, n0, nodes0, a, f, clean, t);
      TallyOn(env, v, w, i, n0, d0, a, f);
    }
  }

  /** Meet the active state `st`, the one at `i`, for the first time. */
  method MeetState(md: MatchBlock, code: seq<Byte>, x: Ctx, o: Options, start: nat, p: nat, end: nat, offsets: array<int>,
                   st: State, act: StateVector, later: StateVector, level: nat, mc0: int, could0: bool,
                   ghost env: Env, ghost area: Area, ghost plain: bool, ghost starts: seq<Node>, ghost i: nat,
                   ghost n0: nat, ghost nodes0: set<Node>, ghost t0: Trace, ghost d0: nat)
    returns (status: Status, mc: int, could: bool, ghost t: Trace)
    requires act.Valid() && later.Valid() && act != later && act.items != later.items
    requires env == Env(code, x, end, env.depth) && Sealed(code, area.places, plain) && Decode(code, end).IKet?
    requires level >= 1 && t0.low == md.startUsed
    requires Going(env, area, o, starts, start, t0, p, i, act.View(), later.View(), offsets[..], mc0, n0, nodes0)
    requires i < act.count && act.View()[i] == st && st.offset >= 0
    requires forall k | 0 <= k < i :: act.View()[k].offset != st.offset || act.View()[k].count != st.count
    requires o.shortest ==> t0.ends == []
    requires Tallied(env, act.View(), later.View(), i, n0, d0) && act.items.Length == later.items.Length
    modifies md, offsets, act`count, act.items, later`count, later.items
    ensures act.Valid() && later.Valid() && t.from == t0.from && t.low == md.startUsed <= t0.low
    ensures status == Scanned ==>
      && i < act.count && act.View()[..i + 1] == old(act.View())[..i + 1]
      && Going(env, area, o, starts, start, t, p, i + 1, act.View(), later.View(), offsets[..], mc, n0, nodes0)
      && (o.shortest ==> t.ends == []) && (could <==> could0 || Wants(env, AsNode(st, p)))
    ensures (t.clean ==> t0.clean) && (Quiet(env, area) && t0.clean ==> t.clean)
    ensures status == Stopped ==>
      && o.shortest && t.ends != [] && Increasing(t.ends)
      && OffsetsHold(offsets[..], start, t.ends) && mc == MatchCount(t.ends, offsets.Length / 2)
      && (t.clean ==> Told(env, o, starts, start, t))
    ensures status == NoRoom ==> act.Full() || later.Full()
    ensures status == Scanned ==> Tallied(env, act.View(), later.View(), i + 1, n0, d0)
    ensures status == NoRoom ==> !Roomed(env, area, n0, d0, act.items.Length)
    decreases env.depth, 3
  {
    hide Going, Exact, Stored, Decode, ToKet, NodesOf, Sealed, Told, OffsetsHold, Appended, Increasing, MatchCount, Tallied, RunRoom, RunSlots, Roomed;
    ghost var v, w := act.View(), later.View();
    status, mc, could, t := Scanned, mc0, could0, t0;
    if p == |x.subject| && Inspects(Decode(code, st.offset)) {
      could := true;
    }
    if st.offset == end {
      var stop;
      mc, stop, t := MeetEnd(x, o, start, p, offsets, mc, env, area, starts, i, v, w, n0, nodes0, t);
      TallyAtEnd(env, v, w, i, n0, d0);
      if stop { status := Stopped; }
    } else {
      var ok, cont;
      ok, cont, t := GoStep(md, code, x, o, p, st, act, later, level, env, area, plain, starts, start, i, offsets[..], mc, n0, nodes0, t, d0);
      if cont { could := true; }
      if !ok { status := NoRoom; }
    }
  }

  /** Deal with the active state `st`, the one at `i`: skip it if it was met before, or else meet it. */
  method VisitState(md: MatchBlock, code: seq<Byte>, x: Ctx, o: Options, start: nat, p: nat, end: nat, offsets: array<int>,
                    i: nat, st: State, act: StateVector, later: StateVector, level: nat, mc0: int, could0: bool,
                    ghost env: Env, ghost area: Area, ghost plain: bool, ghost starts: seq<Node>,
                    ghost n0: nat, ghost nodes0: set<Node>, ghost t0: Trace, ghost d0: nat, ghost carried: bool)
    returns (status: Status, mc: int, could: bool, ghost t: Trace)
    requires act.Valid() && later.Valid() && act != later && act.items != later.items
    requires env == Env(code, x, end, env.depth) && Sealed(code, area.places, plain) && Decode(code, end).IKet?
    requires level >= 1 && t0.low == md.startUsed
    requires Going(env, area, o, starts, start, t0, p, i, act.View(), later.View(), offsets[..], mc0, n0, nodes0)
    requires i < act.count && act.View()[i] == st && st.offset >= 0
    requires o.shortest ==> t0.ends == []
    requires could0 <==> carried || AnyWants(env, act.View()[..i], p)
    requires Tallied(env, act.View(), later.View(), i, n0, d0) && act.items.Length == later.items.Length
    modifies md, offsets, act`count, act.items, later`count, later.items
    ensures act.Valid() && later.Valid() && t.from == t0.from && t.low == md.startUsed <= t0.low
    ensures status == Scanned ==>
      && i < act.count
      && Going(env, area, o, starts, start, t, p, i + 1, act.View(), later.View(), offsets[..], mc, n0, nodes0)
      && (o.shortest ==> t.ends == []) && (could0 ==> could) && (could <==> carried || AnyWants(env, act.View()[..i + 1], p))
    ensures (t.clean ==> t0.clean) && (Quiet(env, area) && t0.clean ==> t.clean)
    ensures status == Stopped ==>
      && o.shortest && t.ends != [] && Increasing(t.ends)
      && OffsetsHold(offsets[..], start, t.ends) && mc == MatchCount(t.ends, offsets.Length / 2)
      && (t.clean ==> Told(env, o, starts, start, t))
    ensures status == NoRoom ==> act.Full() || later.Full()
    ensures status == Scanned ==> Tallied(env, act.View(), later.View(), i + 1, n0, d0)
    ensures status == NoRoom ==> !Roomed(env, area, n0, d0, act.items.Length)
    decreases env.depth, 4
  {
    hide Going, Exact, Stored, Decode, ToKet, NodesOf, Sealed, Told, OffsetsHold, Increasing, MatchCount, Tallied, RunRoom, RunSlots, Roomed, AnyWants, Wants;
    ghost var v, w := act.View(), later.View();
    var dup, j := FindDuplicate(act, i);
    if dup {
      GoDuplicate(env, area, o, starts, start, t0, p, i, v, w, offsets[..], mc0, n0, nodes0, j);
      WantsSame(env, v, i, j, p);
      TallyDuplicate(env, v, w, i, n0, d0, j);
      return Scanned, mc0, could0, t0;
    }
    WantsStep(env, v, i, p);
    assert act.View() == v && v[i] == st;
    assert forall k | 0 <= k < i :: v[k].offset != st.offset || v[k].count != st.count;
    status, mc, could, t := MeetState(md, code, x, o, start, p, end, offsets, st, act, later, level, mc0, could0,
                                      env, area, plain, starts, i, n0, nodes0, t0, d0);
  }

  /** Scan the active states at position `p`: skip those that wait, drop duplicates, record the
      end of the pattern, and expand the rest. */
  method ScanStates(md: MatchBlock, code: seq<Byte>, x: Ctx, o: Options, start: nat, p: nat, end: nat,
                    offsets: array<int>, act: StateVector, later: StateVector, level: nat, mc0: int, could0: bool,
                    ghost env: Env, ghost starts: seq<Node>, ghost area: Area, ghost plain: bool, ghost t0: Trace, ghost d0: nat)
    returns (status: Status, mc: int, could: bool, reset: bool, ghost t: Trace)
    requires act.Valid() && later.Valid() && act != later && act.items != later.items && later.View() == []
    requires env == Env(code, x, end, env.depth) && Sealed(code, area.places, plain) && Decode(code, end).IKet?
    requires level >= 1 && t0.low == md.startUsed
    requires Sane(act.View())
    requires Going(env, area, o, starts, start, t0, p, 0, act.View(), [], offsets[..], mc0, act.count, NodesOf(act.View(), p))
    requires o.shortest ==> t0.ends == []
    requires Waiting(act.View()) <= d0 && act.items.Length == later.items.Length
    modifies md, offsets, act`count, act.items, later`count, later.items
    ensures act.Valid() && later.Valid()
    ensures status == Scanned ==>
      && Sane(old(act.View()))
      && Going(env, area, o, starts, start, t, p, act.count, act.View(), later.View(), offsets[..], mc, old(act.count), NodesOf(old(act.View()), p))
      && (o.shortest ==> t.ends == []) && (t.clean ==> t0.clean)
    ensures Quiet(env, area) && t0.clean ==> t.clean
    ensures status == Stopped ==>
      && o.shortest && t.ends != [] && Increasing(t.ends)
      && OffsetsHold(offsets[..], start, t.ends) && mc == MatchCount(t.ends, offsets.Length / 2)
      && (t.clean ==> Told(env, o, starts, start, t))
    ensures status == NoRoom ==> act.Full() || later.Full()
    ensures status == Scanned ==> (could <==> could0 || AnyWants(env, act.View(), p)) && (reset ==> could)
    ensures status == Scanned && old(act.count) == 0 ==> act.count == 0
    ensures t.from == t0.from && t.low == md.startUsed <= t0.low
    ensures status == Scanned ==> Tallied(env, act.View(), later.View(), act.count, old(act.count), d0)
    ensures status == Scanned ==> Waiting(later.View()) <= d0 && later.count <= d0 + |RunSlots(env, area)|
    ensures status == NoRoom ==> !Roomed(env, area, old(act.count), d0, act.items.Length)
    decreases env.depth, 5
  {
    hide Going, Exact, Stored, Decode, ToKet, NodesOf, Sealed, Told, OffsetsHold, Appended, Increasing, MatchCount, AnyWants, Tallied, Waiting, SlotsOf, RunRoom, RunSlots;
    mc, could, reset, t := mc0, could0, false, t0;
    status := Scanned;
    var i := 0;
    ghost var n0 := act.count;
    ghost var nodes0 := NodesOf(act.View(), p);
    GoingParts(env, area, o, starts, start, t, p, 0, act.View(), [], offsets[..], mc, n0, nodes0);
    NoWants(env, act.View()[..i], p);
    TallyStart(env, act.View(), d0);
    while i < act.count
      invariant act.Valid() && later.Valid() && i <= act.count
      invariant Going(env, area, o, starts, start, t, p, i, act.View(), later.View(), offsets[..], mc, n0, nodes0)
      invariant (o.shortest ==> t.ends == []) && (t.clean ==> t0.clean) && (Quiet(env, area) && t0.clean ==> t.clean)
      invariant (could <==> could0 || AnyWants(env, act.View()[..i], p)) && (reset ==> could) && (n0 == 0 ==> act.count == 0)
      invariant t.from == t0.from && t.low == md.startUsed <= t0.low && status == Scanned
      invariant Tallied(env, act.View(), later.View(), i, n0, d0)
      decreases act.items.Length - i
    {
      ghost var v, w := act.View(), later.View();
      GoingParts(env, area, o, starts, start, t, p, i, v, w, offsets[..], mc, n0, nodes0);
      var st := act.items[i];
      assert st == v[i];
      if st.offset < 0 && st.data > 0 {
        GoSkip(env, area, o, starts, start, t, p, i, v, w, offsets[..], mc, n0, nodes0);
        RoomToWait(env, area, v, w, i, p, n0, d0);
        TallySkip(env, v, w, i, n0, d0, st.(data := st.data - 1));
        var ok := later.Add(st.(data := st.data - 1));
        if !ok { return NoRoom, mc, could, reset, t; }
        if could { reset := true; }
        WantsStep(env, v, i, p);
        i := i + 1;
        continue;
      }
      if st.offset < 0 {
        st := State(-st.offset, st.count, st.data);
        GoWake(env, area, o, starts, start, t, p, i, v, w, offsets[..], mc, n0, nodes0, st);
        TallyWake(env, v, w, i, n0, d0, st);
        act.Replace(i, st);
        v := act.View();
        GoingParts(env, area, o, starts, start, t, p, i, v, w, offsets[..], mc, n0, nodes0);
      }
      status, mc, could, t := VisitState(md, code, x, o, start, p, end, offsets, i, st, act, later, level, mc, could,
                                         env, area, plain, starts, n0, nodes0, t, d0, could0);
      if status != Scanned { return; }
      i := i + 1;
    }
    assert act.View()[..i] == act.View();
    GoingParts(env, area, o, starts, start, t, p, i, act.View(), later.View(), offsets[..], mc, n0, nodes0);
    TallyEnd(env, area, act.View(), later.View(), p, n0, d0);
  }

  /** The end of the run is a slot that adds nothing. */
  lemma TallyAtEnd(env: Env, act: seq<State>, later: seq<State>, i: nat, n0: nat, d0: nat)
    requires Tallied(env, act, later, i, n0, d0) && i < |act| && act[i].offset == env.end
    requires forall k | 0 <= k < i :: act[k].offset != act[i].offset || act[k].count != act[i].count
    ensures Tallied(env, act, later, i + 1, n0, d0)
  {
    hide Tallied;
    TallyOn(env, act, later, i, n0, d0, [], []);
    assert act + ToStates([]) == act && later + ToStates([]) == later;
  }

  lemma GoingParts(env: Env, area: Area, o: Options, starts: seq<Node>, start: nat, t: Trace, p: nat, i: nat,
                   act: seq<State>, later: seq<State>, offsets: seq<int>, mc: int, n0: nat, nodes0: set<Node>)
    requires Going(env, area, o, starts, start, t, p, i, act, later, offsets, mc, n0, nodes0)
    ensures Sane(act) && Sane(later) && p <= |env.ctx.subject| && Proper(env, area, NodesOf(act, p))
    ensures n0 <= |act| && NodesOf(act[..n0], p) == nodes0
    ensures mc == MatchCount(t.ends, |offsets| / 2) && OffsetsHold(offsets, start, t.ends) && Increasing(t.ends) && t.low <= p
  {
  }

  // ----- the run -----

  function NodeSeq(v: seq<State>, p: nat): seq<Node>
    requires Sane(v)
  {
    seq(|v|, k requires 0 <= k < |v| => AsNode(v[k], p))
  }

  lemma NodeSeqSet(v: seq<State>, p: nat)
    requires Sane(v)
    ensures NodesOf(v, p) == set n | n in NodeSeq(v, p)
  {
    forall n | n in NodesOf(v, p)
      ensures n in NodeSeq(v, p)
    {
      var k :| 0 <= k < |v| && n == AsNode(v[k], p);
      assert NodeSeq(v, p)[k] == n;
    }
  }

  lemma HeadNodes(code: seq<Byte>, o: nat, p: nat)
    requires At(code, o + HeaderLen(At(code, o))) != OP_REVERSE
    ensures NodesOf(ToStates(Heads(p, Entries(code, o))), p) == set n | n in Starts(code, o, p)
  {
    NodesOfStates(Heads(p, Entries(code, o)), p);
  }

  /** What a later call needs in order to go on: at the end of the subject, the saved states are
      where every continuation of the match must pass. */
  ghost predicate Resumable(env: Env, starts: seq<Node>, saved: seq<State>) {
    var p := |env.ctx.subject|;
    && Sane(saved)
    && (forall n | n in NodesOf(saved, p) :: n.pos == p && Entry(env, starts, n))
    && (forall n | n in starts && n.pos == p :: n in NodesOf(saved, p))
    && (forall n, z | Reached(env, starts, n) && n.pos < p && z in Fresh(env.code, env.ctx, n) && z.pos == p :: z in NodesOf(saved, p))
  }

  /** When the last position is begun, the states of the active list are such. */
  lemma Resume(env: Env, area: Area, o: Options, starts: seq<Node>, start: nat, t: Trace, act: seq<State>)
    requires Exact(env, o, starts, start, t, |env.ctx.subject|, 0, act, [])
    requires Sane(act) && Proper(env, area, NodesOf(act, |env.ctx.subject|))
    ensures Resumable(env, starts, act)
  {
    hide Act, Fresh, EndsUpTo, Careful;
    var p := |env.ctx.subject|;
    forall k | 0 <= k < |act|
      ensures AsNode(act[k], p).pos == p
    {
      NodeAt(act, k, p);
    }
    forall n, z | Reached(env, starts, n) && n.pos < p && z in Fresh(env.code, env.ctx, n) && z.pos == p
      ensures z in NodesOf(act, p)
    {
      var m: nat, s :| s in starts && R(env, m, s, n);
      ReachBelow(env, t.seen, p, m, s, n);
      assert Expanded(env, t.seen, n);
    }
  }

  /** A resumable list stays so when its states are woken. */
  lemma ResumeSame(env: Env, starts: seq<Node>, v: seq<State>, w: seq<State>)
    requires Resumable(env, starts, v) && Sane(w) && NodesOf(v, |env.ctx.subject|) == NodesOf(w, |env.ctx.subject|)
    ensures Resumable(env, starts, w)
  {
    hide Reached, Fresh;
  }

  lemma Begin(env: Env, area: Area, o: Options, starts: seq<Node>, start: nat, p: nat, act: seq<State>, offsets: seq<int>, u: nat)
    requires u <= p && Sane(act) && NodesOf(act, p) == (set n | n in starts) && p <= |env.ctx.subject|
    requires Proper(env, area, set n | n in starts)
    ensures var t := Trace(set n | n in starts, [], true, u, u);
            Going(env, area, o, starts, start, t, p, 0, act, [], offsets, NOMATCH, |act|, NodesOf(act, p))
  {
    hide Act, Fresh, Careful, Reached, Expanded, Proper;
    assert act[..0] == [] && act[0..] == act && act[..|act|] == act;
    forall n | n in starts
      ensures Reached(env, starts, n)
    {
      ReachedStart(env, starts, n);
    }
    assert OffsetsHold(offsets, start, []);
    NoNodes(p);
    NoNodes(p + 1);
    NodesFrom(act, p);
    ProperEmpty(env, area);
    CarefulStart(env, starts, (set n | n in starts), p, u);
  }

  lemma NodesFrom(v: seq<State>, p: nat)
    requires Sane(v)
    ensures forall n | n in NodesOf(v, p) :: p <= n.pos
  {
  }

  lemma Advance(env: Env, area: Area, o: Options, starts: seq<Node>, start: nat, t: Trace, p: nat,
                act: seq<State>, later: seq<State>, offsets: seq<int>, mc: int, n0: nat, nodes0: set<Node>)
    requires Going(env, area, o, starts, start, t, p, |act|, act, later, offsets, mc, n0, nodes0) && later != []
    ensures p < |env.ctx.subject|
    ensures Sane(later) && Going(env, area, o, starts, start, t, p + 1, 0, later, [], offsets, mc, |later|, NodesOf(later, p + 1))
  {
    hide Act, Fresh, Scanning, Reached, Proper, NodesOf, OffsetsHold, Careful;
    MoreToCome(env, area, o, starts, start, t, p, act, later, offsets, mc, n0, nodes0);
    assert act[..|act|] == act && later[..0] == [] && later[..|later|] == later;
    assert NodesOf([], p + 2) == {} && NodesOf([], p + 1) == {} by { NoNodes(p + 2); NoNodes(p + 1); }
    if t.clean {
      NextPosition(env, t.seen, p, act, later);
      SeenPlace(env, t.seen, p, act, later);
      CarefulNext(env, starts, t.seen, p, NodesOf(act, p), t.from, t.low);
    }
    assert Proper(env, area, {}) by { ProperEmpty(env, area); }
  }

  lemma ProperEmpty(env: Env, area: Area)
    ensures Proper(env, area, {})
  {
  }

  lemma SeenPlace(env: Env, seen: set<Node>, p: nat, act: seq<State>, later: seq<State>)
    requires Scanning(env, seen, p, |act|, act, later)
    ensures forall n | n in seen && n.pos == p :: n in NodesOf(act, p)
  {
  }

  /** Everything that can be reached was seen: the ends recorded are all there are. */
  lemma Complete(env: Env, area: Area, o: Options, starts: seq<Node>, start: nat, t: Trace, p: nat,
                 act: seq<State>, offsets: seq<int>, mc: int, n0: nat, nodes0: set<Node>)
    requires Going(env, area, o, starts, start, t, p, |act|, act, [], offsets, mc, n0, nodes0) && t.clean
    requires o.shortest ==> t.ends == []
    ensures Told(env, o, starts, start, t)
  {
    hide Act, Fresh, Reached, Finishes, Stored, Proper, Careful, Inspected;
    assert act[..|act|] == act && act[|act|..] == [];
    NoNodes(p);
    NoNodes(p + 1);
    AllTold(env, area, o, starts, start, t, p, act);
    forall j: nat
      ensures j in t.ends <==> Finishes(env, starts, j) && Recordable(env.ctx, start, j)
    {
      Finish(env, starts, t.seen, p, act, j);
    }
  }

  lemma AllTold(env: Env, area: Area, o: Options, starts: seq<Node>, start: nat, t: Trace, p: nat, act: seq<State>)
    requires p <= |env.ctx.subject| && Exact(env, o, starts, start, t, p, |act|, act, [])
    ensures Inspected(env, starts, start, false, t.from, t.low)
  {
    hide Scanning, Reached, Careful, Inspected, Entered, EndsUpTo;
    assert act[..|act|] == act;
    forall n | Reached(env, starts, n)
      ensures n in t.seen
    {
      AllSeen(env, t.seen, p, act, starts, n);
    }
    NoneLater(env, t.seen, p, act);
    CarefulEnd(env, starts, t.seen, p, NodesOf(act, p), t.from, t.low, start);
  }

  lemma NoneLater(env: Env, seen: set<Node>, p: nat, act: seq<State>)
    requires Scanning(env, seen, p, |act|, act, [])
    ensures Sane(act) && forall n | n in seen :: n.pos < p || (n.pos == p && n in NodesOf(act, p))
  {
    hide Expanded;
    assert act[|act|..] == [];
    NoNodes(p);
    NoNodes(p + 1);
  }

  lemma StaysResumable(env: Env, area: Area, o: Options, starts: seq<Node>, start: nat, t: Trace,
                       v: seq<State>, act: seq<State>)
    requires Sane(v) && Sane(act) && |v| <= |act| && NodesOf(act[..|v|], |env.ctx.subject|) == NodesOf(v, |env.ctx.subject|)
    requires Proper(env, area, NodesOf(v, |env.ctx.subject|)) && Exact(env, o, starts, start, t, |env.ctx.subject|, 0, v, [])
    ensures Resumable(env, starts, act[..|v|])
  {
    hide Exact, NodesOf, Proper, Resumable;
    Resume(env, area, o, starts, start, t, v);
    ResumeSame(env, starts, v, act[..|v|]);
  }

  lemma StaysExact(env: Env, area: Area, o: Options, starts: seq<Node>, start: nat, t: Trace, p: nat,
                   v: seq<State>, offsets: seq<int>, mc: int)
    requires Sane(v) && Going(env, area, o, starts, start, t, p, 0, v, [], offsets, mc, |v|, NodesOf(v, p))
    ensures Proper(env, area, NodesOf(v, p)) && (t.clean ==> Exact(env, o, starts, start, t, p, 0, v, []))
  {
  }

  /** States for the next character exist only before the end of the subject. */
  lemma MoreToCome(env: Env, area: Area, o: Options, starts: seq<Node>, start: nat, t: Trace, p: nat,
                   act: seq<State>, later: seq<State>, offsets: seq<int>, mc: int, n0: nat, nodes0: set<Node>)
    requires Going(env, area, o, starts, start, t, p, |act|, act, later, offsets, mc, n0, nodes0) && later != []
    ensures p < |env.ctx.subject|
  {
    NodeAt(later, 0, p + 1);
  }

  /** The first list of states: the branches of the bracket, or the states saved by an earlier call. */
  method SetUp(md: MatchBlock, code: seq<Byte>, o: nat, p: nat, ws: Workspace, restart: bool)
    returns (ok: bool, start: nat, ghost starts: seq<Node>)
    requires ws.Valid() && (restart ==> ws.Holding() && Sane(ws.Saved()))
    modifies md, ws`which, ws.first`count, ws.second`count, ws.second.items
    ensures ws.Valid() && ws.which == 0 && start <= p
    ensures ok ==> Sane(ws.second.View()) && NodesOf(ws.second.View(), start) == set n | n in starts
    ensures var back := At(code, o + HeaderLen(At(code, o))) == OP_REVERSE;
            && start == RunFrom(code, o, p)
            && (back || !restart ==> starts == Starts(code, o, p))
            && (!back && restart ==> (set n | n in starts) == NodesOf(old(ws.Saved()), p))
    ensures !ok ==> ws.second.Full()
    ensures md.startUsed == Begun(code, o, p, old(md.startUsed)) && (old(md.startUsed) <= p ==> md.startUsed <= start)
    ensures var back := At(code, o + HeaderLen(At(code, o))) == OP_REVERSE;
            ok <==> (!back && restart) || |Starts(code, o, p)| <= ws.first.items.Length
    ensures var back := At(code, o + HeaderLen(At(code, o))) == OP_REVERSE;
            ok ==> |ws.second.View()| == (if !back && restart then old(ws.saved) else |Starts(code, o, p)|)
  {
    hide Starts, NodesOf, ToStates, HeaderLen;
    ok, start, starts := true, p, Starts(code, o, p);
    if At(code, o + HeaderLen(At(code, o))) == OP_REVERSE {
      assert starts == BackStarts(code, o, p) by { StartsAre(code, o, p); }
      var back := MaxBack(code, o, p);
      start := if back <= p then p - back else 0;
      if start < md.startUsed {
        md.startUsed := start;
      }
      ws.second.Clear();
      ok := AddBackStarts(code, o, p, start, ws.second);
    } else if restart {
      if ws.which == 0 {
        ws.second.CopyFrom(ws.first, ws.saved);
      } else {
        ws.second.Truncate(ws.saved);
      }
      starts := NodeSeq(ws.second.View(), p);
      NodeSeqSet(ws.second.View(), p);
    } else {
      ws.second.Clear();
      ok := AddBranches(code, o, ws.second, p);
      HeadNodes(code, o, p);
      StartsSize(code, o, p);
      if ok {
        assert ws.second.View() == ToStates(Heads(p, Entries(code, o)));
      }
    }
    ws.which := 0;
  }

  lemma StartsSize(code: seq<Byte>, o: nat, p: nat)
    requires At(code, o + HeaderLen(At(code, o))) != OP_REVERSE
    ensures |Starts(code, o, p)| == |Entries(code, o)|
  {
  }

  lemma StartsAre(code: seq<Byte>, o: nat, p: nat)
    requires At(code, o + HeaderLen(At(code, o))) == OP_REVERSE
    ensures Starts(code, o, p) == BackStarts(code, o, p)
  {
  }

  /** With no states for the next character the run is over, and what it recorded is exact. */
  lemma RunOver(env: Env, area: Area, o: Options, starts: seq<Node>, start: nat, t0: Trace, t: Trace, q: nat,
                v: seq<State>, act: seq<State>, before: seq<int>, offsets: seq<int>, mc0: int, mc: int)
    requires Sane(v) && Going(env, area, o, starts, start, t0, q, 0, v, [], before, mc0, |v|, NodesOf(v, q))
    requires Going(env, area, o, starts, start, t, q, |act|, act, [], offsets, mc, |v|, NodesOf(v, q))
    requires (t.clean ==> t0.clean) && (o.shortest ==> t.ends == [])
    ensures |v| <= |act| && Sane(act[..|v|])
    ensures t.clean ==> Told(env, o, starts, start, t)
    ensures t.clean && q == |env.ctx.subject| ==> Resumable(env, starts, act[..|v|])
  {
    hide Going, NodesOf, Told, Exact, Proper, Resumable;
    GoingParts(env, area, o, starts, start, t, q, |act|, act, [], offsets, mc, |v|, NodesOf(v, q));
    if t.clean {
      Complete(env, area, o, starts, start, t, q, act, offsets, mc, |v|, NodesOf(v, q));
      StaysExact(env, area, o, starts, start, t0, q, v, before, mc0);
      SavedStates(env, area, o, starts, start, t0, q, v, act);
    }
  }

  /** What a run that found no further states returns: the number of matches or, when more
      subject could have led on, that the match is partial. */
  method Outcome(md: MatchBlock, x: Ctx, o: Options, offsets: array<int>, level: nat, could: bool, saved: nat, mc: int, q: nat)
    returns (rc: int)
    requires q <= |x.subject| && mc != PARTIAL
    modifies offsets
    ensures if rc == PARTIAL then offsets.Length >= 2 ==> offsets[0] == md.startUsed && offsets[1] == |x.subject|
            else rc == mc && offsets[..] == old(offsets[..])
    ensures rc == PARTIAL <==>
      && level == 1 && could && saved != 0 && (x.partialHard || (o.partialSoft && mc < 0))
      && q == |x.subject| && q > md.startUsed
  {
    rc := mc;
    if level == 1 && could && saved != 0 && (x.partialHard || (o.partialSoft && mc < 0))
       && q >= |x.subject| && q > md.startUsed {
      if offsets.Length >= 2 {
        offsets[0] := md.startUsed;
        offsets[1] := |x.subject|;
      }
      rc := PARTIAL;
    }
  }

  /** When nothing is left for a later position, a path could use more subject exactly if some
      active state does. */
  lemma WantsExactly(env: Env, area: Area, o: Options, starts: seq<Node>, start: nat, t: Trace, q: nat,
                     act: seq<State>, offsets: seq<int>, mc: int, n0: nat, nodes0: set<Node>)
    requires Going(env, area, o, starts, start, t, q, |act|, act, [], offsets, mc, n0, nodes0) && t.clean
    ensures Wanting(env, starts) <==> AnyWants(env, act, q)
  {
    hide Going, Scanning, Wants, Reached;
    CleanParts(env, area, o, starts, start, t, q, act, offsets, mc, n0, nodes0);
    if AnyWants(env, act, q) {
      var k :| 0 <= k < |act| && act[k].offset >= 0 && Wants(env, AsNode(act[k], q));
      NodeAt(act, k, q);
      assert AsNode(act[k], q) in t.seen;
    }
    if Wanting(env, starts) {
      var n :| Reached(env, starts, n) && Wants(env, n);
      AllSeen(env, t.seen, q, act, starts, n);
      WantsPos(env, n);
      SeenHere(env, t.seen, q, act, n);
      var k :| 0 <= k < |act| && AsNode(act[k], q) == n;
      assert act[k].offset >= 0;
    }
  }

  lemma CleanParts(env: Env, area: Area, o: Options, starts: seq<Node>, start: nat, t: Trace, q: nat,
                   act: seq<State>, offsets: seq<int>, mc: int, n0: nat, nodes0: set<Node>)
    requires Going(env, area, o, starts, start, t, q, |act|, act, [], offsets, mc, n0, nodes0) && t.clean
    ensures q <= |env.ctx.subject| && Sane(act) && Dealt(act) && Scanning(env, t.seen, q, |act|, act, [])
    ensures NodesOf(act, q) <= t.seen
    ensures (forall s | s in starts :: s in t.seen) && forall n | n in t.seen :: Reached(env, starts, n)
  {
    hide Act, Fresh, Expanded, Stored, Proper, EndsUpTo, Entered, Reached;
    assert act[..|act|] == act;
  }

  /** At the end of the subject, what has been seen is among the active states. */
  lemma SeenHere(env: Env, seen: set<Node>, q: nat, act: seq<State>, n: Node)
    requires Scanning(env, seen, q, |act|, act, []) && n in seen && q <= |env.ctx.subject| == n.pos
    ensures n.pos == q && n in NodesOf(act, q)
  {
    hide Expanded;
    assert act[|act|..] == [];
    NoNodes(q);
    NoNodes(q + 1);
  }

  lemma WantsPos(env: Env, n: Node)
    requires Wants(env, n)
    ensures n.pos == |env.ctx.subject|
  {
  }

  /** Everything that can be reached has been seen. */
  lemma AllSeen(env: Env, seen: set<Node>, q: nat, act: seq<State>, starts: seq<Node>, y: Node)
    requires Scanning(env, seen, q, |act|, act, []) && Reached(env, starts, y)
    requires forall s | s in starts :: s in seen
    ensures y in seen
  {
    hide Act, Fresh;
    NextPosition(env, seen, q, act, []);
    var m: nat, s :| s in starts && R(env, m, s, y);
    forall n, z | n in seen && z in Succs(env, n)
      ensures z in seen
    {
      assert Expanded(env, seen, n);
    }
    ClosedReach(env, seen, m, s, y);
  }

  /** The end of a run, after the scan at position `q` that left nothing for the next one. */
  method Conclude(md: MatchBlock, x: Ctx, o: Options, offsets: array<int>, level: nat, could: bool, saved: nat, mc0: int, q: nat,
                  ghost env: Env, ghost area: Area, ghost starts: seq<Node>, ghost s: nat, ghost t0: Trace, ghost t: Trace,
                  ghost v: seq<State>, ghost act: seq<State>, ghost before: seq<int>, ghost mcb: int)
    returns (mc: int)
    requires env.ctx == x && Sane(v) && Going(env, area, o, starts, s, t0, q, 0, v, [], before, mcb, |v|, NodesOf(v, q))
    requires Going(env, area, o, starts, s, t, q, |act|, act, [], offsets[..], mc0, |v|, NodesOf(v, q))
    requires (t.clean ==> t0.clean) && saved == |v| && (|v| == 0 ==> act == []) && (o.shortest ==> t.ends == [])
    requires could <==> AnyWants(env, act, q)
    modifies offsets
    ensures |v| <= |act| && Sane(act[..|v|]) && Increasing(t.ends)
    ensures t.clean ==> Told(env, o, starts, s, t)
    ensures mc != PARTIAL ==> mc == MatchCount(t.ends, offsets.Length / 2) && OffsetsHold(offsets[..], s, t.ends)
    ensures mc == PARTIAL ==> level == 1 && saved != 0 && q == |x.subject| && (x.partialHard || o.partialSoft)
    ensures mc == PARTIAL && t.clean ==> Resumable(env, starts, act[..|v|])
    ensures mc == PARTIAL && offsets.Length >= 2 ==> offsets[0] == md.startUsed && offsets[1] == |x.subject|
    ensures t.clean ==> (mc == PARTIAL <==> level == 1 && Suspends(env, starts, o, t.ends) && md.startUsed < |x.subject|)
  {
    hide Going, NodesOf, Told, OffsetsHold, Increasing, Resumable, Wants, Reached, Exact;
    GoingParts(env, area, o, starts, s, t, q, |act|, act, [], offsets[..], mc0, |v|, NodesOf(v, q));
    RunOver(env, area, o, starts, s, t0, t, q, v, act, before, offsets[..], mcb, mc0);
    if q < |x.subject| || act == [] { NoWants(env, act, q); }
    if t.clean { WantsExactly(env, area, o, starts, s, t, q, act, offsets[..], mc0, |v|, NodesOf(v, q)); }
    mc := Outcome(md, x, o, offsets, level, could, saved, mc0, q);
  }

  lemma SavedStates(env: Env, area: Area, o: Options, starts: seq<Node>, start: nat, t: Trace, q: nat,
                    v: seq<State>, act: seq<State>)
    requires Sane(v) && Sane(act) && |v| <= |act| && NodesOf(act[..|v|], q) == NodesOf(v, q)
    requires Proper(env, area, NodesOf(v, q)) && (t.clean ==> Exact(env, o, starts, start, t, q, 0, v, []))
    ensures t.clean && q == |env.ctx.subject| ==> Resumable(env, starts, act[..|v|])
  {
    hide Exact, NodesOf, Proper, Resumable;
    if t.clean && q == |env.ctx.subject| {
      StaysResumable(env, area, o, starts, start, t, v, act);
    }
  }

  /** The states for the next character become the active ones and are scanned. `carry` and `reset` are
      the source's reset_could_continue from one position to the next. Only a waiting state met at the
      subject's end would set it, when newlines have one character, and the scan stops there: so it is
      never set when a position is begun. */
  method OnePosition(md: MatchBlock, code: seq<Byte>, x: Ctx, opts: Options, s: nat, q: nat, end: nat,
                     offsets: array<int>, ws: Workspace, level: nat, mc0: int, carry: bool,
                     ghost env: Env, ghost starts: seq<Node>, ghost area: Area, ghost plain: bool, ghost t0: Trace, ghost d0: nat)
    returns (over: bool, mc: int, reset: bool, ghost t: Trace)
    requires ws.Valid() && q <= |x.subject| && !carry
    requires env == Env(code, x, end, env.depth) && Sealed(code, area.places, plain) && Decode(code, end).IKet?
    requires level >= 1 && t0.low == md.startUsed
    requires Ready(env, area, opts, starts, s, t0, q, ws.Next().View(), offsets[..], mc0)
    requires Waiting(ws.Next().View()) <= d0
    modifies md, offsets, ws`which, ws`saved, ws.first`count, ws.first.items, ws.second`count, ws.second.items
    ensures ws.Valid() && t.from == t0.from && t.low == md.startUsed <= t0.low
    ensures !over ==> q < |x.subject| && Ready(env, area, opts, starts, s, t, q + 1, ws.Next().View(), offsets[..], mc) && !reset
    ensures over ==> Final(md, env, starts, opts, s, offsets[..], ws, level, mc, t.ends, t.clean, t.from)
    ensures Quiet(env, area) && t0.clean ==> t.clean
    ensures !over ==> Waiting(ws.Next().View()) <= d0 && |ws.Next().View()| <= d0 + |RunSlots(env, area)|
    ensures over && mc == WSSIZE ==> !Roomed(env, area, old(|ws.Next().View()|), d0, ws.first.items.Length)
    decreases env.depth, 6
  {
    hide Going, Decode, Sealed, NodesOf, Told, OffsetsHold, Increasing, Resumable, Exact, Stored, Proper, AnyWants, MatchCount, Waiting, RunRoom, RunSlots, Roomed, Tallied, Final, Suspends, Ready, Quiet, Sane;
    ReadyParts(env, area, opts, starts, s, t0, q, ws.Next().View(), offsets[..], mc0);
    ws.Turn();
    var act, later := ws.Other(), ws.Next();
    ghost var v, before := act.View(), offsets[..];
    var status, could;
    status, mc, could, reset, t := ScanStates(md, code, x, opts, s, q, end, offsets, act, later, level, mc0, carry,
                                              env, starts, area, plain, t0, d0);
    if status != Scanned {
      mc := if status == NoRoom then WSSIZE else mc;
      EarlyFinal(md, env, starts, opts, s, offsets[..], ws, level, mc, t, status);
      return true, mc, reset, t;
    }
    over := later.count == 0;
    if over {
      assert later.View() == [];
      mc := EndRun(md, x, opts, offsets, ws, level, could, mc, q, env, area, starts, s, t0, t, v, before, mc0);
    } else {
      ReadyNext(env, area, opts, starts, s, t, q, act.View(), later.View(), offsets[..], mc, |v|, NodesOf(v, q));
      NoWants(env, act.View(), q);
    }
  }

  lemma CountRange(ends: seq<nat>, cap: nat)
    ensures MatchCount(ends, cap) >= -1 && (MatchCount(ends, cap) < 0 <==> ends == [])
  {
  }

  /** What a finished run returns, in `mc` and `offsets` and in the workspace: that it had no room; that
      more subject could lead on; or how many ends it found. */
  ghost predicate Final(md: MatchBlock, env: Env, starts: seq<Node>, o: Options, s: nat, offsets: seq<int>, ws: Workspace,
                        level: nat, mc: int, ends: seq<nat>, clean: bool, from: nat)
    requires ws.Valid()
    reads md, ws, ws.first, ws.second, ws.first.items, ws.second.items
  {
    && (mc == WSSIZE ==> ws.Full())
    && (mc != WSSIZE ==> Increasing(ends))
    && (mc != WSSIZE && clean ==>
          Recorded(env, starts, o, s, ends) && Inspected(env, starts, s, o.shortest && ends != [], from, md.startUsed))
    && (mc != WSSIZE && mc != PARTIAL ==> mc == MatchCount(ends, |offsets| / 2) && OffsetsHold(offsets, s, ends))
    && (mc != WSSIZE && clean && !(o.shortest && ends != []) ==>
          (mc == PARTIAL <==> level == 1 && Suspends(env, starts, o, ends) && md.startUsed < |env.ctx.subject|))
    && (mc == PARTIAL ==>
          && level == 1 && (env.ctx.partialHard || o.partialSoft) && ws.Holding() && ws.Restartable() && Sane(ws.Saved())
          && (clean ==> Resumable(env, starts, ws.Saved())) && !(o.shortest && ends != [])
          && (|offsets| >= 2 ==> offsets[0] == md.startUsed && offsets[1] == |env.ctx.subject|))
  }

  lemma EarlyFinal(md: MatchBlock, env: Env, starts: seq<Node>, o: Options, s: nat, offsets: seq<int>, ws: Workspace,
                   level: nat, mc: int, t: Trace, status: Status)
    requires ws.Valid() && md.startUsed == t.low && status != Scanned
    requires status == NoRoom ==> mc == WSSIZE && ws.Full()
    requires status == Stopped ==>
      && o.shortest && t.ends != [] && Increasing(t.ends) && OffsetsHold(offsets, s, t.ends)
      && mc == MatchCount(t.ends, |offsets| / 2) && (t.clean ==> Told(env, o, starts, s, t))
    ensures Final(md, env, starts, o, s, offsets, ws, level, mc, t.ends, t.clean, t.from) && (mc == WSSIZE <==> status == NoRoom)
  {
    hide Recorded, OffsetsHold, Increasing, MatchCount, Inspected;
    CountRange(t.ends, |offsets| / 2);
  }

  lemma DoneFinal(md: MatchBlock, env: Env, starts: seq<Node>, o: Options, s: nat, offsets: seq<int>, ws: Workspace,
                  level: nat, mc: int, t: Trace, act: seq<State>, n: nat)
    requires ws.Holding() && n == ws.saved <= |act| && ws.Other().View() == act && (ws.which == 0 || ws.which == 1)
    requires Sane(act[..n]) && Increasing(t.ends) && (t.clean ==> Told(env, o, starts, s, t)) && md.startUsed == t.low && (o.shortest ==> t.ends == [])
    requires mc != PARTIAL ==> mc == MatchCount(t.ends, |offsets| / 2) && OffsetsHold(offsets, s, t.ends)
    requires mc == PARTIAL ==> level == 1 && n != 0 && (env.ctx.partialHard || o.partialSoft)
    requires mc == PARTIAL && t.clean ==> Resumable(env, starts, act[..n])
    requires mc == PARTIAL && |offsets| >= 2 ==> offsets[0] == md.startUsed && offsets[1] == |env.ctx.subject|
    requires t.clean ==> (mc == PARTIAL <==> level == 1 && Suspends(env, starts, o, t.ends) && md.startUsed < |env.ctx.subject|)
    ensures Final(md, env, starts, o, s, offsets, ws, level, mc, t.ends, t.clean, t.from) && mc != WSSIZE
  {
    hide Recorded, OffsetsHold, Increasing, MatchCount, Resumable, Suspends, Inspected;
    CountRange(t.ends, |offsets| / 2);
  }

  /** The list `v` holds all the states for position `q`. */
  ghost predicate Ready(env: Env, area: Area, o: Options, starts: seq<Node>, s: nat, t: Trace, q: nat,
                        v: seq<State>, offsets: seq<int>, mc: int) {
    && Sane(v) && (o.shortest ==> t.ends == [])
    && Going(env, area, o, starts, s, t, q, 0, v, [], offsets, mc, |v|, NodesOf(v, q))
  }

  lemma ReadyParts(env: Env, area: Area, o: Options, starts: seq<Node>, s: nat, t: Trace, q: nat,
                   v: seq<State>, offsets: seq<int>, mc: int)
    requires Ready(env, area, o, starts, s, t, q, v, offsets, mc)
    ensures Sane(v) && (o.shortest ==> t.ends == [])
    ensures Going(env, area, o, starts, s, t, q, 0, v, [], offsets, mc, |v|, NodesOf(v, q))
  {
    hide Going, Sane, NodesOf;
  }

  lemma ReadyNext(env: Env, area: Area, o: Options, starts: seq<Node>, s: nat, t: Trace, q: nat,
                  act: seq<State>, later: seq<State>, offsets: seq<int>, mc: int, n0: nat, nodes0: set<Node>)
    requires Going(env, area, o, starts, s, t, q, |act|, act, later, offsets, mc, n0, nodes0) && later != []
    requires o.shortest ==> t.ends == []
    ensures q < |env.ctx.subject| && Ready(env, area, o, starts, s, t, q + 1, later, offsets, mc)
  {
    hide Going, Sane, NodesOf;
    Advance(env, area, o, starts, s, t, q, act, later, offsets, mc, n0, nodes0);
  }

  /** The run is over: its result is settled and left in the workspace. */
  method EndRun(md: MatchBlock, x: Ctx, o: Options, offsets: array<int>, ws: Workspace, level: nat, could: bool, mc0: int, q: nat,
                ghost env: Env, ghost area: Area, ghost starts: seq<Node>, ghost s: nat, ghost t0: Trace, ghost t: Trace,
                ghost v: seq<State>, ghost before: seq<int>, ghost mcb: int)
    returns (mc: int)
    requires ws.Valid() && (ws.which == 0 || ws.which == 1) && ws.saved == |v|
    requires env.ctx == x && Sane(v) && Going(env, area, o, starts, s, t0, q, 0, v, [], before, mcb, |v|, NodesOf(v, q))
    requires var act := ws.Other().View();
             Going(env, area, o, starts, s, t, q, |act|, act, [], offsets[..], mc0, |v|, NodesOf(v, q))
             && (could <==> AnyWants(env, act, q)) && (|v| == 0 ==> act == [])
    requires (t.clean ==> t0.clean) && (o.shortest ==> t.ends == []) && md.startUsed == t.low
    modifies offsets
    ensures ws.Valid() && mc != WSSIZE && Final(md, env, starts, o, s, offsets[..], ws, level, mc, t.ends, t.clean, t.from)
  {
    hide Going, NodesOf, Told, OffsetsHold, Increasing, Resumable, AnyWants, Suspends, MatchCount, Final;
    ghost var act := ws.Other().View();
    mc := Conclude(md, x, o, offsets, level, could, ws.saved, mc0, q, env, area, starts, s, t0, t, v, act, before, mcb);
    DoneFinal(md, env, starts, o, s, offsets[..], ws, level, mc, t, act, |v|);
  }

  /** One position after another, from the first list of states. */
  method Run(md: MatchBlock, code: seq<Byte>, x: Ctx, opts: Options, s: nat, end: nat,
             offsets: array<int>, ws: Workspace, level: nat,
             ghost env: Env, ghost starts: seq<Node>, ghost area: Area, ghost plain: bool)
    returns (rc: int, ghost ends: seq<nat>, ghost clean: bool)
    requires ws.Valid() && ws.which == 0 && s <= |x.subject|
    requires env == Env(code, x, end, env.depth) && Sealed(code, area.places, plain) && Decode(code, end).IKet?
    requires level >= 1
    requires Sane(ws.second.View()) && NodesOf(ws.second.View(), s) == (set n | n in starts)
    requires Proper(env, area, set n | n in starts) && md.startUsed <= s
    modifies md, offsets, ws`which, ws`saved, ws.first`count, ws.first.items, ws.second`count, ws.second.items
    ensures ws.Valid() && md.startUsed <= old(md.startUsed)
    ensures Final(md, env, starts, opts, s, offsets[..], ws, level, rc, ends, clean, old(md.startUsed))
    ensures Quiet(env, area) ==> clean
    ensures rc == WSSIZE ==> old(|ws.second.View()|) + RunRoom(env, area) > ws.first.items.Length
    decreases env.depth, 7
  {
    hide Going, Decode, Sealed, NodesOf, Recorded, OffsetsHold, Increasing, Resumable, Exact, Stored, Proper, Waiting, RunRoom, RunSlots;
    rc := NOMATCH;
    var over, carry, q := false, false, s;
    ghost var u := md.startUsed;
    ghost var t := Trace(set n | n in starts, [], true, u, u);
    Begin(env, area, opts, starts, s, q, ws.second.View(), offsets[..], u);
    ghost var d0 := |ws.second.View()|;
    WaitingFew(ws.second.View());
    while !over
      invariant ws.Valid() && q <= |x.subject| && t.from == u && t.low == md.startUsed <= u
      invariant !over ==> Ready(env, area, opts, starts, s, t, q, ws.Next().View(), offsets[..], rc) && !carry
      invariant over ==> Final(md, env, starts, opts, s, offsets[..], ws, level, rc, t.ends, t.clean, u)
      invariant !over ==> Waiting(ws.Next().View()) <= d0 && |ws.Next().View()| <= d0 + |RunSlots(env, area)|
      invariant over && rc == WSSIZE ==> d0 + RunRoom(env, area) > ws.first.items.Length
      invariant Quiet(env, area) ==> t.clean
      decreases if over then 0 else 1 + |x.subject| - q
    {
      over, rc, carry, t := OnePosition(md, code, x, opts, s, q, end, offsets, ws, level, rc, carry,
                                        env, starts, area, plain, t, d0);
      if !over {
        q := q + 1;
      }
    }
    ends, clean := t.ends, t.clean;
  }

  /** Run the matcher on the bracket at `o` from position `p` (or, in a restart, from the saved
      states): record every end, longest first, or report that the workspace is too small. */
  method InternalDfaExec(md: MatchBlock, code: seq<Byte>, o: nat, p: nat, x: Ctx, opts: Options,
                         offsets: array<int>, ws: Workspace, level: nat,
                         ghost depth: nat, ghost area: Area, ghost plain: bool)
    returns (rc: int, ghost ends: seq<nat>, ghost starts: seq<Node>, ghost start: nat, ghost clean: bool)
    requires ws.Valid() && Sealed(code, area.places, plain) && p <= |x.subject|
    requires Decode(code, ToKet(code, o)).IKet?
    requires Startable(Env(code, x, ToKet(code, o), depth), area, o, p)
    requires level >= 1 && md.startUsed <= p
    requires level == 1 && opts.restart ==>
      && ws.Holding() && Sane(ws.Saved())
      && Proper(Env(code, x, ToKet(code, o), depth), area, NodesOf(ws.Saved(), p))
    modifies md, offsets, ws`which, ws`saved, ws.first`count, ws.first.items, ws.second`count, ws.second.items
    ensures ws.Valid()
    ensures if level == 1 && opts.restart && At(code, o + HeaderLen(At(code, o))) != OP_REVERSE
            then (set n | n in starts) == NodesOf(old(ws.Saved()), p) else starts == Starts(code, o, p)
    ensures start == RunFrom(code, o, p)
    ensures Final(md, Env(code, x, ToKet(code, o), depth), starts, opts, start, offsets[..], ws, level, rc, ends, clean,
                  Begun(code, o, p, old(md.startUsed)))
    ensures md.startUsed <= old(md.startUsed) && (Quiet(Env(code, x, ToKet(code, o), depth), area) ==> clean)
    ensures rc == WSSIZE ==>
      (if level == 1 && opts.restart && At(code, o + HeaderLen(At(code, o))) != OP_REVERSE then old(ws.saved) else |Starts(code, o, p)|)
        + RunRoom(Env(code, x, ToKet(code, o), depth), area) > ws.first.items.Length
    ensures !(level == 1 && opts.restart) && |Starts(code, o, p)| > ws.first.items.Length ==> rc == WSSIZE
    decreases depth, 8
  {
    hide Starts, Decode, Sealed, ToKet, NodesOf, Recorded, OffsetsHold, Increasing, Resumable;
    var end := FindKet(code, o);
    ghost var env := Env(code, x, end, depth);
    ends, clean := [], true;
    var ok, s;
    ok, s, starts := SetUp(md, code, o, p, ws, level == 1 && opts.restart);
    start := s;
    if !ok { return WSSIZE, ends, starts, start, clean; }
    rc, ends, clean := Run(md, code, x, opts, s, end, offsets, ws, level, env, starts, area, plain);
  }
}
