/** From any place in the code of characters, repeats and groups some continuation leads to the end. */
module Continue {
  import opened Bytecode
  import opened Tree
  import opened Subject
  import opened Semantics
  import opened Graph
  import opened Layout
  import opened Correctness
  import opened Closure
  import opened Room
  import opened Lookahead
  import opened Words
  import opened Matcher

  // ----- trees that can always be continued -----

  /** An item that must match, and matches no character that `a` does. */
  ghost predicate Barring(t: CharTables, a: Atom, next: Op)
    requires ValidAtom(a) && ValidOp(next)
  {
    && (next.One? || (next.Rep? && RepBounds(next.atom, next.form, next.n, next.m).lo > 0))
    && forall c: Byte | AtomAt(t, next.atom, c) :: !AtomAt(t, a, c)
  }

  /** Characters, repeats and groups, each with a character to match; a possessive repeat stands before an item
      that stops it. */
  ghost predicate OpenOp(t: CharTables, op: Op)
    requires ValidOp(op)
    decreases op, 0
  {
    match op
    case One(a) => Some(t, a)
    case Rep(a, _, _, _) => Some(t, a)
    case Bra(_, _, body, _) => OpenAlts(t, body)
    case Zero(_, g) => OpenOp(t, g)
    case Skip(g) => OpenOp(t, g)
    case _ => false
  }

  predicate Unyielding(op: Op) { op.Rep? && RepBounds(op.atom, op.form, op.n, op.m).poss }

  ghost predicate OpenOps(t: CharTables, ops: Ops)
    requires ValidOps(ops)
    decreases ops, 0
  {
    ops.Cons? ==>
      && OpenOp(t, ops.head) && OpenOps(t, ops.tail)
      && (Unyielding(ops.head) ==> ops.tail.Cons? && Barring(t, ops.head.atom, ops.tail.head))
  }

  ghost predicate OpenAlts(t: CharTables, al: Alts)
    requires ValidAlts(al)
    decreases al, 1
  {
    OpenOps(t, al.branch) && (al.More? ==> OpenAlts(t, al.rest))
  }

  // ----- a word for each of them -----

  /** The sequence begins with an item that must match a character. */
  predicate Firmly(ops: Ops) {
    ops.Cons? && (ops.head.One? || (ops.head.Rep? && RepBounds(ops.head.atom, ops.head.form, ops.head.n, ops.head.m).lo > 0))
  }

  /** The repeat matches its least number of characters when what follows stops it. */
  lemma RunSpell(t: CharTables, op: Op, rest: Ops, u: seq<Byte>, v: seq<Byte>)
    requires ValidOp(op) && op.Rep? && ValidOps(rest) && OpsSpell(t, rest, v)
    requires |u| == RepBounds(op.atom, op.form, op.n, op.m).lo && forall k | 0 <= k < |u| :: AtomAt(t, op.atom, u[k])
    requires Unyielding(op) ==> |v| > 0 && !AtomAt(t, op.atom, v[0])
    ensures OpsSpell(t, Cons(op, rest), u + v)
  {
    hide AtomAt, OpsSpell;
    forall x: Ctx, i: nat | x.tables == t && Reads(x, i, u + v)
      ensures MOps(x, Cons(op, rest), i, i + |u + v|)
    {
      ReadsParts(x, i, u, v);
      RunHere(x, op, i, u, v);
      SpelledHere(x, rest, i + |u|, v);
      MOpsCons(x, op, rest, i, i + |u|, i + |u| + |v|);
    }
    SpellIntro(t, Cons(op, rest), u + v);
  }

  lemma SpelledHere(x: Ctx, ops: Ops, i: nat, w: seq<Byte>)
    requires ValidOps(ops) && OpsSpell(x.tables, ops, w) && Reads(x, i, w)
    ensures MOps(x, ops, i, i + |w|)
  {
  }

  lemma SpellIntro(t: CharTables, ops: Ops, w: seq<Byte>)
    requires ValidOps(ops) && forall x: Ctx, i: nat | x.tables == t && Reads(x, i, w) :: MOps(x, ops, i, i + |w|)
    ensures OpsSpell(t, ops, w)
  {
    hide MOps;
  }

  lemma RunHere(x: Ctx, op: Op, i: nat, u: seq<Byte>, v: seq<Byte>)
    requires ValidOp(op) && op.Rep? && Reads(x, i, u) && Reads(x, i + |u|, v)
    requires |u| == RepBounds(op.atom, op.form, op.n, op.m).lo && forall k | 0 <= k < |u| :: AtomAt(x.tables, op.atom, u[k])
    requires Unyielding(op) ==> |v| > 0 && !AtomAt(x.tables, op.atom, v[0])
    ensures MOp(x, op, i, i + |u|)
  {
    hide AtomAt;
    RunReads(x, op.atom, i, u);
    if |v| > 0 {
      assert x.subject[i + |u|] == x.subject[i + |u|..i + |u| + |v|][0];
    }
  }

  lemma RunReads(x: Ctx, a: Atom, i: nat, u: seq<Byte>)
    requires ValidAtom(a) && Reads(x, i, u) && forall k | 0 <= k < |u| :: AtomAt(x.tables, a, u[k])
    ensures RunOf(x, a, i, i + |u|)
  {
    forall k | i <= k < i + |u|
      ensures AtomAt(x.tables, a, x.subject[k])
    {
      assert x.subject[k] == x.subject[i..i + |u|][k - i] == u[k - i];
    }
  }

  lemma {:induction false} OpenOpWord(t: CharTables, op: Op) returns (w: seq<Byte>)
    requires ValidOp(op) && OpenOp(t, op) && !op.Rep?
    ensures OpSpell(t, op, w) && (op.One? ==> |w| > 0 && AtomAt(t, op.atom, w[0]))
    decreases op, 0
  {
    match op
    case One(a) => w := OneCharacter(t, op);
    case Bra(_, _, body, _) =>
      w := OpenOpsWord(t, body.branch);
      SpellGroup(t, op, w);
    case _ => w := [];
  }

  lemma OneCharacter(t: CharTables, op: Op) returns (w: seq<Byte>)
    requires ValidOp(op) && op.One? && Some(t, op.atom)
    ensures OpSpell(t, op, w) && |w| > 0 && AtomAt(t, op.atom, w[0])
  {
    var c: Byte :| AtomAt(t, op.atom, c);
    w := [c];
    forall x: Ctx, i: nat | x.tables == t && Reads(x, i, w)
      ensures MOp(x, op, i, i + |w|)
    {
      assert x.subject[i] == x.subject[i..i + |w|][0];
    }
  }

  lemma {:induction false} OpenOpsWord(t: CharTables, ops: Ops) returns (w: seq<Byte>)
    requires ValidOps(ops) && OpenOps(t, ops)
    ensures OpsSpell(t, ops, w) && (Firmly(ops) ==> |w| > 0 && AtomAt(t, ops.head.atom, w[0]))
    decreases ops, 0
  {
    if ops.Nil? {
      w := [];
    } else {
      hide OpSpell, OpsSpell, OpenOp, AtomAt, OpenOps;
      OpenParts(t, ops);
      var op := ops.head;
      var v := OpenOpsWord(t, ops.tail);
      if op.Rep? {
        var u := LeastRun(t, op);
        RunSpell(t, op, ops.tail, u, v);
        w := u + v;
      } else {
        var u := OpenOpWord(t, op);
        SpellCons(t, op, ops.tail, u, v);
        w := u + v;
      }
    }
  }

  lemma OpenParts(t: CharTables, ops: Ops)
    requires ValidOps(ops) && OpenOps(t, ops) && ops.Cons?
    ensures OpenOp(t, ops.head) && OpenOps(t, ops.tail)
    ensures Unyielding(ops.head) ==> Firmly(ops.tail) && Barring(t, ops.head.atom, ops.tail.head)
  {
  }

  lemma LeastRun(t: CharTables, op: Op) returns (u: seq<Byte>)
    requires ValidOp(op) && op.Rep? && OpenOp(t, op)
    ensures |u| == RepBounds(op.atom, op.form, op.n, op.m).lo && forall k | 0 <= k < |u| :: AtomAt(t, op.atom, u[k])
  {
    var c: Byte :| AtomAt(t, op.atom, c);
    u := seq(RepBounds(op.atom, op.form, op.n, op.m).lo, _ => c);
  }

  // ----- ways to the end of an item -----

  ghost predicate Goes(env: Env, x: Node, y: Node) { exists m: nat :: R(env, m, x, y) }

  lemma GoesOn(env: Env, x: Node, y: Node, z: Node)
    requires Goes(env, x, y) && Goes(env, y, z)
    ensures Goes(env, x, z)
  {
    hide R;
    var m: nat :| R(env, m, x, y);
    var n: nat :| R(env, n, y, z);
    RTrans(env, m, n, x, y, z);
  }

  lemma GoesBy(env: Env, m: nat, x: Node, y: Node)
    requires R(env, m, x, y)
    ensures Goes(env, x, y)
  {
  }

  /** Wherever the word stands, the state leads over it to the offset `to`. */
  ghost predicate LeadsTo(env: Env, off: nat, cnt: nat, w: seq<Byte>, to: nat) {
    forall x: Ctx, i: nat | x.tables == env.ctx.tables && Reads(x, i, w) ::
      Goes(env.(ctx := x), Node(i, off, cnt), Node(i + |w|, to, 0))
  }

  lemma LeadsOn(env: Env, off: nat, cnt: nat, u: seq<Byte>, via: nat, v: seq<Byte>, to: nat)
    requires LeadsTo(env, off, cnt, u, via) && LeadsTo(env, via, 0, v, to)
    ensures LeadsTo(env, off, cnt, u + v, to)
  {
    hide Goes, Reads;
    forall x: Ctx, i: nat | x.tables == env.ctx.tables && Reads(x, i, u + v)
      ensures Goes(env.(ctx := x), Node(i, off, cnt), Node(i + |u + v|, to, 0))
    {
      ReadsParts(x, i, u, v);
      GoesOn(env.(ctx := x), Node(i, off, cnt), Node(i + |u|, via, 0), Node(i + |u| + |v|, to, 0));
    }
  }

  /** A step that every context allows. */
  lemma LeadsAct(env: Env, off: nat, cnt: nat, to: nat)
    requires forall x: Ctx, i: nat | x.tables == env.ctx.tables :: Node(i, to, 0) in Act(env.(ctx := x), Node(i, off, cnt))
    ensures LeadsTo(env, off, cnt, [], to)
  {
    hide Act;
    forall x: Ctx, i: nat | x.tables == env.ctx.tables && Reads(x, i, [])
      ensures Goes(env.(ctx := x), Node(i, off, cnt), Node(i + 0, to, 0))
    {
      OneStep(env.(ctx := x), Node(i, off, cnt), Node(i, to, 0));
      GoesBy(env.(ctx := x), 1, Node(i, off, cnt), Node(i, to, 0));
    }
  }

  lemma OpsLead(env: Env, ops: Ops, a: nat, w: seq<Byte>)
    requires ValidOps(ops) && OpsDepth(ops) <= env.depth && Within(env, a, EncOps(ops)) && OpsSpell(env.ctx.tables, ops, w)
    ensures LeadsTo(env, a, 0, w, a + |EncOps(ops)|)
  {
    hide MOps, EncOps, R;
    forall x: Ctx, i: nat | x.tables == env.ctx.tables && Reads(x, i, w)
      ensures Goes(env.(ctx := x), Node(i, a, 0), Node(i + |w|, a + |EncOps(ops)|, 0))
    {
      var m := CompleteOps(env.(ctx := x), ops, a, i, i + |w|);
      GoesBy(env.(ctx := x), m, Node(i, a, 0), Node(i + |w|, a + |EncOps(ops)|, 0));
    }
  }

  lemma OpLead(env: Env, op: Op, a: nat, w: seq<Byte>)
    requires ValidOp(op) && OpDepth(op) <= env.depth && Within(env, a, EncOp(op)) && OpSpell(env.ctx.tables, op, w)
    ensures LeadsTo(env, a, 0, w, a + |EncOp(op)|)
  {
    hide MOp, EncOp, R;
    forall x: Ctx, i: nat | x.tables == env.ctx.tables && Reads(x, i, w)
      ensures Goes(env.(ctx := x), Node(i, a, 0), Node(i + |w|, a + |EncOp(op)|, 0))
    {
      var m := CompleteOp(env.(ctx := x), op, a, i, i + |w|);
      GoesBy(env.(ctx := x), m, Node(i, a, 0), Node(i + |w|, a + |EncOp(op)|, 0));
    }
  }

  /** A repeat that has matched `cnt` characters goes on to its least number, by one character at least, and
      is stopped by what follows. */
  lemma RepLead(env: Env, op: Op, rest: Ops, a: nat, cnt: nat, b: nat, v: seq<Byte>) returns (w: seq<Byte>)
    requires ValidOp(op) && op.Rep? && OpenOp(env.ctx.tables, op) && ValidOps(rest) && OpsDepth(rest) <= env.depth
    requires Placed(env.code, a, EncOp(op)) && Within(env, a + |EncOp(op)|, EncOps(rest)) && cnt < Counts(env.code, a, b)
    requires OpsSpell(env.ctx.tables, rest, v) && (Unyielding(op) ==> |v| > 0 && !AtomAt(env.ctx.tables, op.atom, v[0]))
    ensures |w| > 0 && LeadsTo(env, a, cnt, w, a + |EncOp(op)| + |EncOps(rest)|)
  {
    hide EncOps, EncOp, Decode, R, AtomAt, OpsSpell, Within, Placed, RepCounts, Reads, Goes;
    var t, c := env.ctx.tables, RepBounds(op.atom, op.form, op.n, op.m);
    var d: Byte :| AtomAt(t, op.atom, d);
    var u := seq(if cnt < c.lo then c.lo - cnt else 1, _ => d);
    var next := a + |EncOp(op)|;
    w := u + v;
    OpsLead(env, rest, next, v);
    forall x: Ctx, i: nat | x.tables == t && Reads(x, i, w)
      ensures Goes(env.(ctx := x), Node(i, a, cnt), Node(i + |w|, next + |EncOps(rest)|, 0))
    {
      ReadsParts(x, i, u, v);
      RepGoes(env.(ctx := x), op, a, cnt, b, i, u, v);
      GoesOn(env.(ctx := x), Node(i, a, cnt), Node(i + |u|, next, 0), Node(i + |u| + |v|, next + |EncOps(rest)|, 0));
    }
  }

  lemma RepGoes(env: Env, op: Op, a: nat, cnt: nat, b: nat, i: nat, u: seq<Byte>, v: seq<Byte>)
    requires ValidOp(op) && op.Rep? && Placed(env.code, a, EncOp(op)) && cnt < Counts(env.code, a, b)
    requires Reads(env.ctx, i, u) && Reads(env.ctx, i + |u|, v) && forall k | 0 <= k < |u| :: AtomAt(env.ctx.tables, op.atom, u[k])
    requires |u| == var c := RepBounds(op.atom, op.form, op.n, op.m); if cnt < c.lo then c.lo - cnt else 1
    requires Unyielding(op) ==> |v| > 0 && !AtomAt(env.ctx.tables, op.atom, v[0])
    ensures Goes(env, Node(i, a, cnt), Node(i + |u|, a + |EncOp(op)|, 0))
  {
    hide EncRep, EncAtom, Decode, R, AtomAt, Reads, RepSpan;
    DecodeRepeat(env.code, a, op.atom, op.form, op.n, op.m);
    RestHere(env.ctx, op, i, cnt, u, v);
    var m := CompleteRep(env, op.atom, op.form, op.n, op.m, a, a + |EncOp(op)|, cnt, i, i + |u|);
    GoesBy(env, m, Node(i, a, cnt), Node(i + |u|, a + |EncOp(op)|, 0));
  }

  lemma RestHere(x: Ctx, op: Op, i: nat, cnt: nat, u: seq<Byte>, v: seq<Byte>)
    requires ValidOp(op) && op.Rep? && Reads(x, i, u) && Reads(x, i + |u|, v) && forall k | 0 <= k < |u| :: AtomAt(x.tables, op.atom, u[k])
    requires var c := RepBounds(op.atom, op.form, op.n, op.m);
             |u| == (if cnt < c.lo then c.lo - cnt else 1) && (c.hi >= 0 ==> cnt < c.hi)
    requires Unyielding(op) ==> |v| > 0 && !AtomAt(x.tables, op.atom, v[0])
    ensures RepSpan(x, op.atom, RepBounds(op.atom, op.form, op.n, op.m), cnt, i, i + |u|)
  {
    hide AtomAt;
    RunReads(x, op.atom, i, u);
    if |v| > 0 {
      assert x.subject[i + |u|] == x.subject[i + |u|..i + |u| + |v|][0];
    }
  }

  // ----- from any place inside -----

  /** The state is one of the run: its place is among these, and its count one that can have been reached. */
  ghost predicate In(env: Env, places: set<Place>, off: nat, cnt: nat, b: nat) {
    Place(off, env.depth, env.end) in places && cnt < Counts(env.code, off, b)
  }

  lemma {:induction false} FinishOps(env: Env, ops: Ops, a: nat, off: nat, cnt: nat, b: nat) returns (w: seq<Byte>)
    requires ValidOps(ops) && OpenOps(env.ctx.tables, ops) && OpsDepth(ops) <= env.depth && Within(env, a, EncOps(ops))
    requires In(env, OpsSet(ops, a, env.depth, env.end), off, cnt, b)
    ensures LeadsTo(env, off, cnt, w, a + |EncOps(ops)|) && (Inspects(Decode(env.code, off)) ==> |w| > 0)
    decreases ops, 2
  {
    hide EncOp, OpSet, OpenOp, OpenOps, OpDepth, Counts, OpsSpell, LeadsTo, Barring;
    var op, rest, next := ops.head, ops.tail, a + |EncOp(ops.head)|;
    PlacedOps(env.code, a, op, rest);
    OpenParts(env.ctx.tables, ops);
    if In(env, OpSet(op, a, env.depth, env.end), off, cnt, b) {
      var v := OpenOpsWord(env.ctx.tables, rest);
      if op.Rep? {
        RepPlace(op, a, env.depth, env.end, off);
        if Unyielding(op) { Stopped(env.ctx.tables, op.atom, rest.head, v); }
        w := RepLead(env, op, rest, a, cnt, b, v);
      } else {
        var u := FinishOp(env, op, a, off, cnt, b);
        OpsLead(env, rest, next, v);
        LeadsOn(env, off, cnt, u, next, v, next + |EncOps(rest)|);
        w := u + v;
      }
    } else {
      w := FinishOps(env, rest, next, off, cnt, b);
    }
  }

  lemma Stopped(t: CharTables, a: Atom, next: Op, v: seq<Byte>)
    requires ValidAtom(a) && ValidOp(next) && Barring(t, a, next) && |v| > 0 && AtomAt(t, next.atom, v[0])
    ensures !AtomAt(t, a, v[0])
  {
  }

  lemma RepPlace(op: Op, a: nat, d: nat, e: nat, off: nat)
    requires ValidOp(op) && op.Rep? && Place(off, d, e) in OpSet(op, a, d, e)
    ensures off == a
  {
  }

  lemma {:induction false} FinishOp(env: Env, op: Op, a: nat, off: nat, cnt: nat, b: nat) returns (w: seq<Byte>)
    requires ValidOp(op) && OpenOp(env.ctx.tables, op) && OpDepth(op) <= env.depth && Within(env, a, EncOp(op)) && !op.Rep?
    requires In(env, OpSet(op, a, env.depth, env.end), off, cnt, b)
    ensures LeadsTo(env, off, cnt, w, a + |EncOp(op)|) && (Inspects(Decode(env.code, off)) ==> |w| > 0)
    decreases op, 2
  {
    hide Decode, EncOpen, EncAlts, EncBranch, AltsSet, OpenAlts, LeadsTo, OpSpell, Bracketed, ToKet, Entries;
    match op
    case One(atom) =>
      DecodeOne(env.code, a, atom);
      w := OpenOpWord(env.ctx.tables, op);
      OpLead(env, op, a, w);
    case Bra(_, _, _, _) => w := FinishBra(env, op, a, off, cnt, b);
    case Zero(_, g) =>
      var h, k := ZeroPlaced(env.code, a, op, g);
      if off == a {
        w := [];
        LeadsAct(env, a, cnt, a + |EncOp(op)|);
      } else {
        w := FinishOp(env, g, a + 1, off, cnt, b);
      }
    case Skip(g) =>
      var h, k := ZeroPlaced(env.code, a, op, g);
      w := [];
      LeadsAct(env, a, cnt, a + |EncOp(op)|);
  }

  lemma {:induction false} FinishBra(env: Env, op: Op, a: nat, off: nat, cnt: nat, b: nat) returns (w: seq<Byte>)
    requires ValidOp(op) && op.Bra? && OpenOp(env.ctx.tables, op) && OpDepth(op) <= env.depth && Within(env, a, EncOp(op))
    requires In(env, OpSet(op, a, env.depth, env.end), off, cnt, b)
    ensures LeadsTo(env, off, cnt, w, a + |EncOp(op)|) && (Inspects(Decode(env.code, off)) ==> |w| > 0)
    decreases op, 1
  {
    hide Decode, EncOpen, EncAlts, EncBranch, AltsSet, OpenAlts, LeadsTo, OpSpell, ToKet, Entries, Offsets, Heading;
    var h, k := Bracket(env.code, a, op.op, op.cap, op.body, op.ket, false);
    if off == a {
      BraCounts(env.code, a, b);
      w := OpenOpWord(env.ctx.tables, op);
      OpLead(env, op, a, w);
    } else {
      LeadsAct(env, k, 0, a + |EncOp(op)|);
      if off == k {
        KetCounts(env.code, k, b);
        w := [];
      } else {
        w := FinishAlts(env, a, op.body, h, off, cnt, b);
        LeadsOn(env, off, cnt, w, k, [], a + |EncOp(op)|);
        assert w + [] == w;
      }
    }
  }

  lemma BraCounts(code: seq<Byte>, a: nat, b: nat)
    requires Decode(code, a).IBra?
    ensures Counts(code, a, b) == 1
  {
    hide Decode;
  }

  lemma KetCounts(code: seq<Byte>, a: nat, b: nat)
    requires Decode(code, a).IKet? || Decode(code, a).IAlt?
    ensures Counts(code, a, b) == 1
  {
    hide Decode;
  }

  lemma {:induction false} FinishAlts(env: Env, o: nat, al: Alts, h: nat, off: nat, cnt: nat, b: nat) returns (w: seq<Byte>)
    requires ValidAlts(al) && OpenAlts(env.ctx.tables, al) && AltsDepth(al) <= env.depth
    requires Heading(env.code, o, al, false, h) && Outside(env.end, h, h + |EncAlts(al, false)|)
    requires In(env, AltsSet(al, false, h, env.depth, env.end), off, cnt, b)
    ensures LeadsTo(env, off, cnt, w, h + |EncAlts(al, false)|) && (Inspects(Decode(env.code, off)) ==> |w| > 0)
    decreases al, 1
  {
    hide Decode, EncAlts, EncBranch, EncOps, OpsSet, OpenOps, LeadsTo, ToKet, Entries, Heading, OpsDepth, Counts;
    var f, z := h + |EncBranch(al.branch, false)|, h + |EncAlts(al, false)|;
    BranchPlaced(env.code, o, al, false, h);
    BranchInAlts(al, false);
    BranchStart(env.code, al, false, h);
    if In(env, OpsSet(al.branch, h, env.depth, env.end), off, cnt, b) {
      w := FinishOps(env, al.branch, h, off, cnt, b);
      if al.More? {
        LeadsAct(env, f, 0, z);
        LeadsOn(env, off, cnt, w, f, [], z);
        assert w + [] == w;
      }
    } else if off == f {
      KetCounts(env.code, f, b);
      LeadsAct(env, f, 0, z);
      w := [];
    } else {
      NextHeading(env.code, o, al, false, h);
      AltsUnits(al, false);
      w := FinishAlts(env, f, al.rest, f + 1 + LINK_SIZE, off, cnt, b);
    }
  }

  // ----- what such a tree does not have -----

  lemma OpenMovableOp(t: CharTables, op: Op)
    requires ValidOp(op) && OpenOp(t, op)
    ensures MovableOp(op) && OpDepth(op) == 0
    decreases op, 0
  {
    match op
    case Bra(_, _, body, _) => OpenMovable(t, body);
    case Zero(_, g) => OpenMovableOp(t, g);
    case Skip(g) => OpenMovableOp(t, g);
    case _ =>
  }

  lemma OpenMovableOps(t: CharTables, ops: Ops)
    requires ValidOps(ops) && OpenOps(t, ops)
    ensures MovableOps(ops) && OpsDepth(ops) == 0
    decreases ops, 0
  {
    hide Barring;
    if ops.Cons? {
      OpenMovableOp(t, ops.head);
      OpenMovableOps(t, ops.tail);
    }
  }

  /** Tests and assertions. */
  lemma OpenMovable(t: CharTables, al: Alts)
    requires ValidAlts(al) && OpenAlts(t, al)
    ensures MovableAlts(al) && AltsDepth(al) == 0
    decreases al, 1
  {
    OpenMovableOps(t, al.branch);
    if al.More? {
      OpenMovable(t, al.rest);
    }
  }

  /** No state of such code is at a test: a test for the end cannot be passed everywhere. */
  lemma NotTest(env: Env, off: nat, cnt: nat, w: seq<Byte>, to: nat)
    requires LeadsTo(env, off, cnt, w, to) && Decode(env.code, to).IKet?
    ensures Decode(env.code, off).ITest? ==> !MovableTest(Decode(env.code, off).op)
  {
    hide Decode, R;
    var x := Ctx(env.ctx.tables, w + [0], false, false, false, false, 0, false, false, 0);
    assert x.subject[0..0 + |w|] == w;
    assert Reads(x, 0, w);
    if Decode(env.code, off).ITest? && MovableTest(Decode(env.code, off).op) {
      var e := env.(ctx := x);
      var m: nat :| R(e, m, Node(0, off, cnt), Node(0 + |w|, to, 0));
      Passed(e, m, Node(0, off, cnt), Node(0 + |w|, to, 0));
    }
  }

  lemma Passed(env: Env, m: nat, x: Node, y: Node)
    requires R(env, m, x, y) && x != y && Decode(env.code, x.off).ITest?
    ensures TestHolds(env.ctx, Decode(env.code, x.off).op, x.pos)
  {
    hide Decode;
    var z := Step(env, m, x, y);
  }
}
