/** The graph of encoded code realises the meaning of the tree: leaving an item's bytes at
    position j, having entered them at position i, is possible exactly when the item matches
    the span (i, j). */
module Correctness {
  import opened Bytecode
  import opened Tree
  import opened Subject
  import opened Semantics
  import opened Graph
  import opened Layout

  /** `s` lies at `a`, and the pattern does not end inside it. */
  ghost predicate Within(env: Env, a: nat, s: seq<Byte>) {
    Placed(env.code, a, s) && !(a <= env.end < a + |s|)
  }

  predicate Outside(o: nat, a: nat, b: nat) { o < a || b <= o }

  // ----- repeated atoms -----

  lemma {:induction false} SoundRep(env: Env, a: Atom, form: nat, n: nat, m: nat, off: nat, next: nat,
                                    c: nat, i: nat, steps: nat, y: Node) returns (left: nat, k: nat)
    requires ValidRep(a, form, n, m) && Decode(env.code, off) == IRep(a, form, n, m, next)
    requires y.off != off && i <= |env.ctx.subject| && R(env, steps, Node(i, off, c), y)
    requires var b := RepBounds(a, form, n, m); b.hi >= 0 ==> c < b.hi
    ensures left < steps && k <= |env.ctx.subject|
    ensures RepSpan(env.ctx, a, RepBounds(a, form, n, m), c, i, k) && R(env, left, Node(k, next, 0), y)
    decreases steps
  {
    hide Decode, ToKet, Entries, At, Get;
    var b := RepBounds(a, form, n, m);
    var x := Node(i, off, c);
    var z := Step(env, steps, x, y);
    if z == Node(i, next, 0) && z in Act(env, x) {
      return steps - 1, i;
    }
    assert MatchesHere(env.ctx, a, i) && z == RepNext(b, x, next);
    if b.hi >= 0 && c + 1 >= b.hi {
      return steps - 1, i + 1;
    }
    left, k := SoundRep(env, a, form, n, m, off, next, z.cnt, i + 1, steps - 1, y);
  }

  lemma {:induction false} CompleteRep(env: Env, a: Atom, form: nat, n: nat, m: nat, off: nat, next: nat,
                                       c: nat, i: nat, j: nat) returns (steps: nat)
    requires ValidRep(a, form, n, m) && Decode(env.code, off) == IRep(a, form, n, m, next)
    requires var b := RepBounds(a, form, n, m); b.hi >= 0 ==> c < b.hi
    requires RepSpan(env.ctx, a, RepBounds(a, form, n, m), c, i, j)
    ensures R(env, steps, Node(i, off, c), Node(j, next, 0))
    decreases j - i
  {
    var b := RepBounds(a, form, n, m);
    var x := Node(i, off, c);
    if i == j {
      OneStep(env, x, Node(j, next, 0));
      return 1;
    }
    assert MatchesHere(env.ctx, a, i);
    var z := RepNext(b, x, next);
    assert z in Fresh(env.code, env.ctx, x);
    if b.hi >= 0 && c + 1 >= b.hi {
      steps := 0;
    } else {
      steps := CompleteRep(env, a, form, n, m, off, next, z.cnt, i + 1, j);
    }
    RCons(env, steps, x, z, Node(j, next, 0));
    steps := steps + 1;
  }

  // ----- soundness: every way out of an item's bytes is a match of the item -----

  lemma {:induction false} SoundOps(env: Env, ops: Ops, a: nat, i: nat, n: nat, y: Node) returns (m: nat, k: nat)
    requires ValidOps(ops) && OpsDepth(ops) <= env.depth && i <= |env.ctx.subject|
    requires Within(env, a, EncOps(ops)) && Outside(y.off, a, a + |EncOps(ops)|)
    requires R(env, n, Node(i, a, 0), y)
    ensures m <= n && k <= |env.ctx.subject|
    ensures MOps(env.ctx, ops, i, k) && R(env, m, Node(k, a + |EncOps(ops)|, 0), y)
    decreases ops, 0, n
  {
    hide Decode, ToKet, Entries, At, Get, EncOp, EncAlts, EncBranch, Act, Fresh;
    match ops
    case Nil => m, k := n, i;
    case Cons(op, rest) =>
      PlacedOps(env.code, a, op, rest);
      var l, w := SoundOp(env, op, a, i, n, y);
      m, k := SoundOps(env, rest, a + |EncOp(op)|, w, l, y);
      MOpsCons(env.ctx, op, rest, i, w, k);
  }

  lemma {:induction false} SoundOp(env: Env, op: Op, a: nat, i: nat, n: nat, y: Node) returns (m: nat, k: nat)
    requires ValidOp(op) && OpDepth(op) <= env.depth && i <= |env.ctx.subject|
    requires Within(env, a, EncOp(op)) && Outside(y.off, a, a + |EncOp(op)|)
    requires R(env, n, Node(i, a, 0), y)
    ensures m < n && k <= |env.ctx.subject|
    ensures MOp(env.ctx, op, i, k) && R(env, m, Node(k, a + |EncOp(op)|, 0), y)
    decreases op, 2, n
  {
    hide Decode, Entries, ToKet, At, Get, EncAtom, EncRep, EncAlts, EncBranch, EncOpen, EncBracket, Offsets, HeaderLen, R, RepSpan;
    hide MOps, MAlts, Iter, MLook, EncOps, OpsDepth, AltsDepth, ValidOps, ValidAlts, FixedAlts;
    var x := Node(i, a, 0);
    var z := Step(env, n, x, y);
    match op
    case Test(o) =>
      DecodeTest(env.code, a, o);
      m, k := n - 1, i;
    case One(atom) =>
      DecodeOne(env.code, a, atom);
      m, k := n - 1, i + 1;
    case Rep(atom, form, c, d) =>
      DecodeRepeat(env.code, a, atom, form, c, d);
      m, k := SoundRep(env, atom, form, c, d, a, a + |EncOp(op)|, 0, i, n, y);
    case Bra(_, _, _, _) =>
      m, k := SoundBra(env, op, a, i, n, y);
    case Zero(_, g) =>
      var h, e := ZeroPlaced(env.code, a, op, g);
      if z == Node(i, a + 1, 0) {
        m, k := SoundOp(env, g, a + 1, i, n - 1, y);
      } else {
        m, k := n - 1, i;
      }
    case Skip(g) =>
      var h, e := ZeroPlaced(env.code, a, op, g);
      m, k := n - 1, i;
    case Look(o, body) =>
      var h, e := Bracket(env.code, a, o, 0, body, OP_KET, IsBack(o));
      LookCorrect(env, o, body, a, h, e, i);
      m, k := n - 1, i;
  }

  /** BRAZERO and SKIPZERO stand before a bracket. */
  lemma ZeroPlaced(code: seq<Byte>, a: nat, op: Op, g: Op) returns (h: nat, k: nat)
    requires ValidOp(op) && ((op.Zero? && g == op.group) || (op.Skip? && g == op.group))
    requires Placed(code, a, EncOp(op))
    ensures Placed(code, a + 1, EncOp(g)) && |EncOp(op)| == 1 + |EncOp(g)|
    ensures Bracketed(code, a + 1, g.body, g.ket, false, h, k) && k + 1 + LINK_SIZE == a + |EncOp(op)|
    ensures Decode(code, a) == if op.Zero? then IZero(a + 1, a + |EncOp(op)|) else ISkip(a + |EncOp(op)|)
  {
    hide Entries, Get, EncAlts, EncOpen, EncOps, EncHeader, EncAtom, EncRep;
    HoldsSplit(code, a, [Lead(op)], EncOp(g));
    HoldsAt(code, a, [Lead(op)], 0);
    h, k := Bracket(code, a + 1, g.op, g.cap, g.body, g.ket, false);
  }

  /** A bracket's first step leads to one of its branches. */
  lemma EnterBra(env: Env, a: nat, body: Alts, ket: Byte, h: nat, e: nat, i: nat, n: nat, y: Node) returns (z: Node)
    requires ValidAlts(body) && Bracketed(env.code, a, body, ket, false, h, e) && IsGroup(At(env.code, a))
    requires n > 0 && R(env, n, Node(i, a, 0), y)
    ensures z.pos == i && z.off in Offsets(body, false, h) && z.cnt == 0 && R(env, n - 1, z, y)
  {
    hide Decode, ToKet, Entries, Offsets;
    z := Step(env, n, Node(i, a, 0), y);
    assert Act(env, Node(i, a, 0)) == Heads(i, Entries(env.code, a));
  }

  /** A ket that does not end the pattern leads past the bracket or, in a loop, back to it. */
  lemma LeaveKet(env: Env, a: nat, body: Alts, ket: Byte, h: nat, e: nat, j: nat, n: nat, y: Node) returns (z: Node)
    requires ValidAlts(body) && Bracketed(env.code, a, body, ket, false, h, e) && e != env.end
    requires y.off != e && R(env, n, Node(j, e, 0), y)
    ensures z == Node(j, e + 1 + LINK_SIZE, 0) || (ket != OP_KET && z == Node(j, a, 0))
    ensures n > 0 && R(env, n - 1, z, y)
  {
    hide Decode, ToKet, Entries, Offsets;
    z := Step(env, n, Node(j, e, 0), y);
  }

  /** One pass through a group, up to and including its ket. */
  lemma {:induction false} PassBra(env: Env, op: Op, a: nat, i: nat, n: nat, y: Node) returns (j: nat, l: nat, w: Node)
    requires ValidOp(op) && op.Bra? && OpDepth(op) <= env.depth && i <= |env.ctx.subject|
    requires Within(env, a, EncOp(op)) && Outside(y.off, a, a + |EncOp(op)|)
    requires n > 0 && R(env, n, Node(i, a, 0), y)
    ensures MAlts(env.ctx, op.body, i, j) && j <= |env.ctx.subject| && l < n && R(env, l, w, y)
    ensures w == Node(j, a + |EncOp(op)|, 0) || (op.ket != OP_KET && l > 0 && w == Node(j, a, 0))
    decreases op, 0, n
  {
    hide Decode, ToKet, Entries, At, Get, EncAlts, EncBranch, EncOpen, Offsets, Act, Fresh;
    var h, e := Bracket(env.code, a, op.op, op.cap, op.body, op.ket, false);
    var z := EnterBra(env, a, op.body, op.ket, h, e, i, n, y);
    l, j := SoundAlts(env, a, op.body, h, z.off, i, n - 1, y);
    w := LeaveKet(env, a, op.body, op.ket, h, e, j, l, y);
    l := l - 1;
  }

  lemma {:induction false} SoundBra(env: Env, op: Op, a: nat, i: nat, n: nat, y: Node) returns (m: nat, k: nat)
    requires ValidOp(op) && op.Bra? && OpDepth(op) <= env.depth && i <= |env.ctx.subject|
    requires Within(env, a, EncOp(op)) && Outside(y.off, a, a + |EncOp(op)|)
    requires n > 0 && R(env, n, Node(i, a, 0), y)
    ensures m < n && k <= |env.ctx.subject|
    ensures MOp(env.ctx, op, i, k) && R(env, m, Node(k, a + |EncOp(op)|, 0), y)
    decreases op, 1, n
  {
    hide EncOp, EncOps, EncAlts, Placed, R;
    var j, l, w := PassBra(env, op, a, i, n, y);
    assert Iter(env.ctx, op.body, 0, j, j);
    IterCons(env.ctx, op.body, 0, i, j, j);
    if w.off == a + |EncOp(op)| {
      m, k := l, j;
    } else {
      m, k := SoundBra(env, op, a, j, l, y);
      var t: nat :| t > 0 && Iter(env.ctx, op.body, t, j, k);
      IterCons(env.ctx, op.body, t, i, j, k);
    }
  }

  lemma OffsetsCases(al: Alts, back: bool, h: nat)
    requires ValidAlts(al) && (back ==> FixedAlts(al))
    ensures al.More? ==> ValidAlts(al.rest) && (back ==> FixedAlts(al.rest))
    ensures Offsets(al, back, h)
         == [h] + if al.More? then Offsets(al.rest, back, h + |EncBranch(al.branch, back)| + 1 + LINK_SIZE) else []
  {
    hide EncBranch;
    if al.Last? {
      assert [h] + [] == [h];
    } else {
      OffsetsStep(al, back, h, h + |EncBranch(al.branch, back)|);
    }
  }

  /** From the branch at `e` of the alternatives at `h`, the ket is reached having matched one. */
  lemma {:induction false} SoundAlts(env: Env, o: nat, al: Alts, h: nat, e: nat, i: nat, n: nat, y: Node) returns (m: nat, k: nat)
    requires ValidAlts(al) && AltsDepth(al) <= env.depth && i <= |env.ctx.subject|
    requires Heading(env.code, o, al, false, h) && e in Offsets(al, false, h)
    requires Outside(y.off, h, h + |EncAlts(al, false)|) && Outside(env.end, h, h + |EncAlts(al, false)|)
    requires R(env, n, Node(i, e, 0), y)
    ensures m <= n && k <= |env.ctx.subject|
    ensures MAlts(env.ctx, al, i, k) && R(env, m, Node(k, h + |EncAlts(al, false)|, 0), y)
    decreases al, 1, n
  {
    hide Decode, ToKet, Entries, At, Get, EncOp, EncOps, EncBranch, EncAlts, Heading, Offsets, Fresh, Act, R;
    hide MOps, MOp, Iter, MLook, OpsDepth, ValidOps, FixedAlts;
    OffsetsCases(al, false, h);
    if e == h {
      m, k := SoundBranch(env, o, al, false, h, i, n, y);
    } else {
      NextHeading(env.code, o, al, false, h);
      var f := h + |EncBranch(al.branch, false)|;
      m, k := SoundAlts(env, f, al.rest, f + 1 + LINK_SIZE, e, i, n, y);
    }
  }

  lemma {:induction false} SoundBranch(env: Env, o: nat, al: Alts, back: bool, h: nat, i: nat, n: nat, y: Node) returns (m: nat, k: nat)
    requires ValidAlts(al) && (back ==> FixedAlts(al)) && AltsDepth(al) <= env.depth && i <= |env.ctx.subject|
    requires Heading(env.code, o, al, back, h)
    requires Outside(y.off, h, h + |EncAlts(al, back)|) && Outside(env.end, h, h + |EncAlts(al, back)|)
    requires R(env, n, Node(i, if back then h + 1 + LINK_SIZE else h, 0), y)
    ensures m <= n && k <= |env.ctx.subject|
    ensures MOps(env.ctx, al.branch, i, k) && R(env, m, Node(k, h + |EncAlts(al, back)|, 0), y)
    decreases al, 0, n
  {
    hide Decode, ToKet, Entries, At, Get, EncOp, EncOps, EncBranch, EncAlts, Offsets;
    BranchPlaced(env.code, o, al, back, h);
    BranchInAlts(al, back);
    BranchStart(env.code, al, back, h);
    m, k := SoundOps(env, al.branch, if back then h + 1 + LINK_SIZE else h, i, n, y);
    if al.More? {
      var w := Step(env, m, Node(k, h + |EncBranch(al.branch, back)|, 0), y);
      m := m - 1;
    }
  }

  // ----- completeness: every match of an item is a way through its bytes -----

  lemma {:induction false} CompleteOps(env: Env, ops: Ops, a: nat, i: nat, j: nat) returns (n: nat)
    requires ValidOps(ops) && OpsDepth(ops) <= env.depth && i <= |env.ctx.subject|
    requires Within(env, a, EncOps(ops)) && MOps(env.ctx, ops, i, j)
    ensures R(env, n, Node(i, a, 0), Node(j, a + |EncOps(ops)|, 0))
    decreases ops, 2, 0
  {
    hide Decode, ToKet, Entries, At, Get, EncOp, EncAlts, EncBranch, Act, Fresh;
    match ops
    case Nil => n := 0;
    case Cons(op, rest) =>
      PlacedOps(env.code, a, op, rest);
      var k: nat :| MOp(env.ctx, op, i, k) && MOps(env.ctx, rest, k, j);
      SpanOp(env.ctx, op, i, k);
      var b := a + |EncOp(op)|;
      var l := CompleteOp(env, op, a, i, k);
      var m := CompleteOps(env, rest, b, k, j);
      RTrans(env, l, m, Node(i, a, 0), Node(k, b, 0), Node(j, a + |EncOps(ops)|, 0));
      n := l + m;
  }

  lemma {:induction false} CompleteOp(env: Env, op: Op, a: nat, i: nat, j: nat) returns (n: nat)
    requires ValidOp(op) && OpDepth(op) <= env.depth && i <= |env.ctx.subject|
    requires Within(env, a, EncOp(op)) && MOp(env.ctx, op, i, j)
    ensures R(env, n, Node(i, a, 0), Node(j, a + |EncOp(op)|, 0))
    decreases op, 2, 0
  {
    hide Decode, Entries, ToKet, At, Get, EncAtom, EncRep, EncAlts, EncBranch, EncOpen, EncBracket, Offsets, HeaderLen, R, RepSpan;
    hide MOps, MAlts, Iter, MLook, EncOps, OpsDepth, AltsDepth, ValidOps, ValidAlts, FixedAlts;
    var x, y := Node(i, a, 0), Node(j, a + |EncOp(op)|, 0);
    n := 1;
    match op
    case Test(o) =>
      DecodeTest(env.code, a, o);
      OneStep(env, x, y);
    case One(atom) =>
      DecodeOne(env.code, a, atom);
      OneStep(env, x, y);
    case Rep(atom, form, c, d) =>
      DecodeRepeat(env.code, a, atom, form, c, d);
      n := CompleteRep(env, atom, form, c, d, a, y.off, 0, i, j);
    case Bra(_, _, body, ket) =>
      if ket == OP_KET {
        n := CompleteBra(env, op, a, i, j, j, 0, 0);
      } else {
        var t: nat :| t > 0 && Iter(env.ctx, body, t, i, j);
        n := CompleteLoop(env, op, a, i, j, t);
      }
    case Zero(_, g) =>
      var h, e := ZeroPlaced(env.code, a, op, g);
      if i == j {
        OneStep(env, x, y);
      } else {
        var l := CompleteOp(env, g, a + 1, i, j);
        RCons(env, l, x, Node(i, a + 1, 0), y);
        n := 1 + l;
      }
    case Skip(g) =>
      var h, e := ZeroPlaced(env.code, a, op, g);
      OneStep(env, x, y);
    case Look(o, body) =>
      var h, e := Bracket(env.code, a, o, 0, body, OP_KET, IsBack(o));
      LookCorrect(env, o, body, a, h, e, i);
      OneStep(env, x, y);
  }

  /** One pass through a group, then on to the item after it or, in a loop, to the group again. */
  lemma {:induction false} CompleteBra(env: Env, op: Op, a: nat, i: nat, k: nat, j: nat, t: nat, l: nat) returns (n: nat)
    requires ValidOp(op) && op.Bra? && OpDepth(op) <= env.depth && i <= |env.ctx.subject|
    requires Within(env, a, EncOp(op)) && MAlts(env.ctx, op.body, i, k)
    requires var b := a + |EncOp(op)|;
             if t == 0 then k == j else op.ket != OP_KET && R(env, l, Node(k, a, 0), Node(j, b, 0))
    ensures R(env, n, Node(i, a, 0), Node(j, a + |EncOp(op)|, 0))
    decreases op, 0, 0
  {
    hide Decode, ToKet, At, Get, EncAlts, EncBranch, EncOpen, Offsets, HeaderLen;
    hide R, MOps, MOp, MAlts, Iter, OpsDepth, ValidOps, FixedAlts, EncOps;
    var b := a + |EncOp(op)|;
    var h, e := Bracket(env.code, a, op.op, op.cap, op.body, op.ket, false);
    var s, m := CompleteAlts(env, a, op.body, h, i, k);
    OneStep(env, Node(i, a, 0), Node(i, s, 0));
    RTrans(env, 1, m, Node(i, a, 0), Node(i, s, 0), Node(k, e, 0));
    if t == 0 {
      OneStep(env, Node(k, e, 0), Node(j, b, 0));
      RTrans(env, 1 + m, 1, Node(i, a, 0), Node(k, e, 0), Node(j, b, 0));
      n := m + 2;
    } else {
      RCons(env, l, Node(k, e, 0), Node(k, a, 0), Node(j, b, 0));
      RTrans(env, 1 + m, l + 1, Node(i, a, 0), Node(k, e, 0), Node(j, b, 0));
      n := m + l + 2;
    }
  }

  lemma {:induction false} CompleteLoop(env: Env, op: Op, a: nat, i: nat, j: nat, t: nat) returns (n: nat)
    requires ValidOp(op) && op.Bra? && op.ket != OP_KET && OpDepth(op) <= env.depth && i <= |env.ctx.subject|
    requires Within(env, a, EncOp(op)) && t > 0 && Iter(env.ctx, op.body, t, i, j)
    ensures R(env, n, Node(i, a, 0), Node(j, a + |EncOp(op)|, 0))
    decreases op, 1, t
  {
    var k: nat :| MAlts(env.ctx, op.body, i, k) && Iter(env.ctx, op.body, t - 1, k, j);
    if t == 1 {
      n := CompleteBra(env, op, a, i, k, j, 0, 0);
    } else {
      SpanAlts(env.ctx, op.body, i, k);
      var l := CompleteLoop(env, op, a, k, j, t - 1);
      n := CompleteBra(env, op, a, i, k, j, t - 1, l);
    }
  }

  /** A match of one of the alternatives is a way from that branch to the ket. */
  lemma {:induction false} CompleteAlts(env: Env, o: nat, al: Alts, h: nat, i: nat, j: nat) returns (e: nat, n: nat)
    requires ValidAlts(al) && AltsDepth(al) <= env.depth && i <= |env.ctx.subject|
    requires Heading(env.code, o, al, false, h) && Outside(env.end, h, h + |EncAlts(al, false)|)
    requires MAlts(env.ctx, al, i, j)
    ensures e in Offsets(al, false, h) && R(env, n, Node(i, e, 0), Node(j, h + |EncAlts(al, false)|, 0))
    decreases al, 1, 0
  {
    hide Decode, ToKet, Entries, At, Get, EncOp, EncOps, EncBranch, EncAlts, Heading, Offsets, Fresh, Act, R;
    hide MOps, MOp, Iter, MLook, OpsDepth, ValidOps, FixedAlts;
    OffsetsCases(al, false, h);
    if MOps(env.ctx, al.branch, i, j) {
      e := h;
      n := CompleteBranch(env, o, al, false, h, i, j);
    } else {
      NextHeading(env.code, o, al, false, h);
      var f := h + |EncBranch(al.branch, false)|;
      e, n := CompleteAlts(env, f, al.rest, f + 1 + LINK_SIZE, i, j);
    }
  }

  lemma {:induction false} CompleteBranch(env: Env, o: nat, al: Alts, back: bool, h: nat, i: nat, j: nat) returns (n: nat)
    requires ValidAlts(al) && (back ==> FixedAlts(al)) && AltsDepth(al) <= env.depth && i <= |env.ctx.subject|
    requires Heading(env.code, o, al, back, h) && Outside(env.end, h, h + |EncAlts(al, back)|)
    requires MOps(env.ctx, al.branch, i, j)
    ensures R(env, n, Node(i, if back then h + 1 + LINK_SIZE else h, 0), Node(j, h + |EncAlts(al, back)|, 0))
    decreases al, 0, 0
  {
    hide Decode, ToKet, Entries, At, Get, EncOp, EncOps, EncBranch, EncAlts, Offsets, Fresh;
    BranchPlaced(env.code, o, al, back, h);
    BranchInAlts(al, back);
    BranchStart(env.code, al, back, h);
    var a := if back then h + 1 + LINK_SIZE else h;
    var f := h + |EncBranch(al.branch, back)|;
    n := CompleteOps(env, al.branch, a, i, j);
    if al.More? {
      var y := Node(j, h + |EncAlts(al, back)|, 0);
      OneStep(env, Node(j, f, 0), y);
      RTrans(env, n, 1, Node(i, a, 0), Node(j, f, 0), y);
      n := n + 1;
    }
  }

  // ----- assertions -----

  lemma NotReverse(code: seq<Byte>, o: nat, al: Alts, h: nat)
    requires ValidAlts(al) && Heading(code, o, al, false, h)
    ensures At(code, h) != OP_REVERSE
  {
    BranchPlaced(code, o, al, false, h);
    if al.branch.Cons? {
      FirstUnit(al.branch.head);
      HoldsAt(code, h, EncOps(al.branch), 0);
    } else if al.More? {
      NextHeading(code, o, al, false, h);
    }
  }

  /** A bracket that does not start with OP_REVERSE is entered at each of its branches. */
  lemma ForwardStarts(code: seq<Byte>, a: nat, body: Alts, ket: Byte, h: nat, k: nat, p: nat)
    requires ValidAlts(body) && Bracketed(code, a, body, ket, false, h, k)
    ensures Starts(code, a, p) == Heads(p, Offsets(body, false, h))
  {
    hide Decode, ToKet, Entries, EncAlts, EncBranch, Offsets, AltEntries, BackStarts;
    NotReverse(code, a, body, h);
  }

  /** The assertion at `a`, tried at `p`, holds in the graph exactly when it holds by its meaning. */
  lemma {:induction false} LookCorrect(env: Env, op: Byte, body: Alts, a: nat, h: nat, k: nat, p: nat)
    requires IsLook(op) && ValidAlts(body) && (IsBack(op) ==> FixedAlts(body)) && p <= |env.ctx.subject|
    requires AltsDepth(body) < env.depth && At(env.code, a) == op
    requires Bracketed(env.code, a, body, OP_KET, IsBack(op), h, k)
    ensures LookHolds(env.code, env.ctx, env.depth, a, p) <==> MLook(env.ctx, op, body, p)
    decreases body, 3, 0
  {
    hide Decode, Entries, EncAlts, EncBranch, Offsets, BackStarts, RunFrom, LookFrom;
    var inner := Nested(env.code, env.ctx, env.depth, a, p);
    var starts := Starts(env.code, a, p);
    SameRun(env.code, op, a, body, h, k, p);
    if LookHolds(env.code, env.ctx, env.depth, a, p) {
      var j := LookHoldsElim(env.code, env.ctx, env.depth, a, p);
      if IsBack(op) {
        SoundBehind(inner, a, body, h, p, j);
        MLookIntro(env.ctx, op, body, p, j);
      } else {
        SoundAhead(inner, a, body, h, p, j);
        MLookIntro(env.ctx, op, body, p, j);
      }
    }
    if MLook(env.ctx, op, body, p) {
      var q := MLookElim(env.ctx, op, body, p);
      if IsBack(op) {
        CompleteBehind(inner, a, body, h, p, q);
        LookHoldsIntro(env.code, env.ctx, env.depth, a, p, q);
      } else {
        CompleteAhead(inner, a, body, h, p, q);
        LookHoldsIntro(env.code, env.ctx, env.depth, a, p, q);
      }
    }
  }

  /** The run of an assertion begins where its meaning says. */
  lemma SameRun(code: seq<Byte>, op: Byte, a: nat, body: Alts, h: nat, k: nat, p: nat)
    requires IsLook(op) && ValidAlts(body) && (IsBack(op) ==> FixedAlts(body)) && At(code, a) == op
    requires Bracketed(code, a, body, OP_KET, IsBack(op), h, k) && h == a + HeaderLen(op)
    ensures RunFrom(code, a, p) == LookFrom(op, body, p)
  {
    hide Decode, Entries, EncAlts, EncBranch, Offsets, Furthest;
    if IsBack(op) {
      BranchPlaced(code, a, body, true, h);
      ReversePlaced(code, h, body.branch);
      FurthestIs(code, a, body, h);
    } else {
      NotReverse(code, a, body, h);
    }
  }

  lemma {:induction false} FurthestIs(code: seq<Byte>, o: nat, al: Alts, h: nat)
    requires ValidAlts(al) && FixedAlts(al) && h == o + 1 + LINK_SIZE && Heading(code, o, al, true, h)
    ensures Furthest(code, o) == Reach(al)
    decreases al
  {
    hide Decode, Entries, Offsets, ToKet, EncAlts, EncBranch, EncOps, Holds, At, Get;
    HeadLink(code, o, al, true, h);
    FurthestUnfold(code, o);
    BranchPlaced(code, o, al, true, h);
    ReversePlaced(code, h, al.branch);
    if al.More? {
      NextHeading(code, o, al, true, h);
      var f := h + |EncBranch(al.branch, true)|;
      FurthestIs(code, f, al.rest, f + 1 + LINK_SIZE);
    }
  }

  lemma FurthestUnfold(code: seq<Byte>, h: nat)
    ensures Furthest(code, h)
         == var back := Get(code, h + 2 + LINK_SIZE); var n := h + Get(code, h + 1);
            if Get(code, h + 1) > 0 && At(code, n) == OP_ALT then Max(back, Furthest(code, n)) else back
  {
    hide Get;
  }

  /** A bracket without OP_REVERSE is left at `j` only if one of its branches matches up to `j`. */
  lemma {:induction false} SoundAhead(env: Env, a: nat, body: Alts, h: nat, p: nat, j: nat)
    requires ValidAlts(body) && p <= |env.ctx.subject| && AltsDepth(body) <= env.depth
    requires Bracketed(env.code, a, body, OP_KET, false, h, env.end)
    requires Finishes(env, Starts(env.code, a, p), j)
    ensures MAlts(env.ctx, body, p, j)
    decreases body, 2, 0
  {
    hide Entries, EncAlts, EncBranch, Offsets, BackStarts, ToKet;
    ForwardStarts(env.code, a, body, OP_KET, h, env.end, p);
    var n, s := FinishesElim(env, Starts(env.code, a, p), j);
    var m, w := SoundAlts(env, a, body, h, s.off, p, n, Node(j, env.end, 0));
    EndIsLast(env, w, m, j);
  }

  /** Nothing follows the end of the pattern. */
  lemma EndIsLast(env: Env, w: nat, m: nat, j: nat)
    requires Decode(env.code, env.end).IKet? && R(env, m, Node(w, env.end, 0), Node(j, env.end, 0))
    ensures m == 0 && w == j
  {
    if m > 0 {
      hide R;
      var x, y := Node(w, env.end, 0), Node(j, env.end, 0);
      var z := Step(env, m, x, y);
      assert false;
    }
  }

  lemma {:induction false} CompleteAhead(env: Env, a: nat, body: Alts, h: nat, p: nat, j: nat)
    requires ValidAlts(body) && p <= |env.ctx.subject| && AltsDepth(body) <= env.depth
    requires Bracketed(env.code, a, body, OP_KET, false, h, env.end)
    requires MAlts(env.ctx, body, p, j)
    ensures Finishes(env, Starts(env.code, a, p), j)
    decreases body, 2, 0
  {
    hide Decode, Entries, EncAlts, EncBranch, Offsets, BackStarts, ToKet;
    ForwardStarts(env.code, a, body, OP_KET, h, env.end, p);
    var e, n := CompleteAlts(env, a, body, h, p, j);
    assert Node(p, e, 0) in Starts(env.code, a, p);
  }

  /** A lookbehind bracket starts with OP_REVERSE, so it is entered back from `p`. */
  lemma BackwardStarts(code: seq<Byte>, a: nat, body: Alts, h: nat, k: nat, p: nat)
    requires ValidAlts(body) && FixedAlts(body) && Bracketed(code, a, body, OP_KET, true, h, k)
    ensures Starts(code, a, p) == BackStarts(code, a, p)
  {
    hide Decode, Entries, Offsets, BackStarts, ToKet;
    BranchPlaced(code, a, body, true, h);
    ReversePlaced(code, h, body.branch);
  }

  lemma BackUnfold(code: seq<Byte>, h: nat, p: nat)
    ensures BackStarts(code, h, p)
         == (if Get(code, h + 2 + LINK_SIZE) <= p then [Node(p - Get(code, h + 2 + LINK_SIZE), h + 2 + 2 * LINK_SIZE, 0)] else [])
            + if Get(code, h + 1) > 0 && At(code, h + Get(code, h + 1)) == OP_ALT then BackStarts(code, h + Get(code, h + 1), p) else []
  {
    hide Get;
  }

  /** What the start states of a lookbehind are, branch by branch. */
  lemma BackStartsCase(code: seq<Byte>, o: nat, al: Alts, h: nat, p: nat) returns (rest: seq<Node>)
    requires ValidAlts(al) && FixedAlts(al) && h == o + 1 + LINK_SIZE && Heading(code, o, al, true, h)
    ensures BackStarts(code, o, p)
         == (var back := OpsLength(al.branch) % 0x10000; if back <= p then [Node(p - back, h + 1 + LINK_SIZE, 0)] else []) + rest
    ensures if al.Last? then rest == [] else rest == BackStarts(code, h + |EncBranch(al.branch, true)|, p)
  {
    hide Decode, Entries, Offsets, ToKet, EncAlts, EncBranch, EncOps, Holds, At, Get, BackStarts;
    HeadLink(code, o, al, true, h);
    BackUnfold(code, o, p);
    BranchPlaced(code, o, al, true, h);
    ReversePlaced(code, h, al.branch);
    var f := o + Get(code, o + 1);
    if al.More? {
      NextHeading(code, o, al, true, h);
      rest := BackStarts(code, f, p);
    } else {
      rest := [];
    }
  }

  /** A lookbehind at `p` is left at `j` only if one of its branches, tried from where it starts,
      matches up to `j`. */
  lemma {:induction false} SoundBehind(env: Env, a: nat, body: Alts, h: nat, p: nat, j: nat)
    requires ValidAlts(body) && FixedAlts(body) && p <= |env.ctx.subject| && AltsDepth(body) <= env.depth
    requires Bracketed(env.code, a, body, OP_KET, true, h, env.end) && h == a + 1 + LINK_SIZE
    requires Finishes(env, Starts(env.code, a, p), j)
    ensures MBehind(env.ctx, body, p, j)
    decreases body, 2, 0
  {
    hide Decode, Entries, Offsets, ToKet, EncAlts, EncBranch, BackStarts;
    BackwardStarts(env.code, a, body, h, env.end, p);
    var n, s := FinishesElim(env, Starts(env.code, a, p), j);
    SoundBack(env, a, body, h, p, s, n, j);
  }

  lemma {:induction false} CompleteBehind(env: Env, a: nat, body: Alts, h: nat, p: nat, j: nat)
    requires ValidAlts(body) && FixedAlts(body) && p <= |env.ctx.subject| && AltsDepth(body) <= env.depth
    requires Bracketed(env.code, a, body, OP_KET, true, h, env.end) && h == a + 1 + LINK_SIZE
    requires MBehind(env.ctx, body, p, j)
    ensures Finishes(env, Starts(env.code, a, p), j)
    decreases body, 2, 0
  {
    hide Decode, Entries, Offsets, ToKet, EncAlts, EncBranch, BackStarts;
    BackwardStarts(env.code, a, body, h, env.end, p);
    var s, n := CompleteBack(env, a, body, h, p, j);
    assert s in Starts(env.code, a, p);
  }

  lemma {:induction false} SoundBack(env: Env, o: nat, al: Alts, h: nat, p: nat, s: Node, n: nat, j: nat)
    requires ValidAlts(al) && FixedAlts(al) && p <= |env.ctx.subject| && AltsDepth(al) <= env.depth
    requires h == o + 1 + LINK_SIZE && Heading(env.code, o, al, true, h)
    requires env.end == h + |EncAlts(al, true)| && Decode(env.code, env.end).IKet?
    requires s in BackStarts(env.code, o, p) && R(env, n, s, Node(j, env.end, 0))
    ensures MBehind(env.ctx, al, p, j)
    decreases al, 1, 0
  {
    hide Decode, Entries, Offsets, ToKet, EncAlts, EncBranch, BackStarts, OpsLength;
    var rest := BackStartsCase(env.code, o, al, h, p);
    var back := OpsLength(al.branch) % 0x10000;
    if back <= p && s == Node(p - back, h + 1 + LINK_SIZE, 0) {
      var m, k := SoundBranch(env, o, al, true, h, s.pos, n, Node(j, env.end, 0));
      EndIsLast(env, k, m, j);
    } else {
      NextHeading(env.code, o, al, true, h);
      var f := h + |EncBranch(al.branch, true)|;
      SoundBack(env, f, al.rest, f + 1 + LINK_SIZE, p, s, n, j);
    }
  }

  lemma {:induction false} CompleteBack(env: Env, o: nat, al: Alts, h: nat, p: nat, j: nat) returns (s: Node, n: nat)
    requires ValidAlts(al) && FixedAlts(al) && p <= |env.ctx.subject| && AltsDepth(al) <= env.depth
    requires h == o + 1 + LINK_SIZE && Heading(env.code, o, al, true, h)
    requires env.end == h + |EncAlts(al, true)| && MBehind(env.ctx, al, p, j)
    ensures s in BackStarts(env.code, o, p) && R(env, n, s, Node(j, env.end, 0))
    decreases al, 1, 0
  {
    hide Decode, Entries, Offsets, ToKet, EncAlts, EncBranch, BackStarts, OpsLength;
    var rest := BackStartsCase(env.code, o, al, h, p);
    var back := OpsLength(al.branch) % 0x10000;
    if back <= p && MOps(env.ctx, al.branch, p - back, j) {
      s := Node(p - back, h + 1 + LINK_SIZE, 0);
      n := CompleteBranch(env, o, al, true, h, p - back, j);
    } else {
      NextHeading(env.code, o, al, true, h);
      var f := h + |EncBranch(al.branch, true)|;
      s, n := CompleteBack(env, f, al.rest, f + 1 + LINK_SIZE, p, j);
    }
  }
}
