/** What a run can reach beyond the place where it begins: where no match can begin nothing is reached,
    and what is reached from inside a line is also reached from its start. So the starts that the matcher
    skips do not lead to the end of the subject by ways of their own. */
module Beyond {
  import opened Bytecode
  import opened Tree
  import opened Subject
  import opened Semantics
  import opened Graph
  import opened Layout
  import opened Correctness
  import opened Scan
  import opened DfaRun
  import opened Pattern
  import opened Expansion
  import opened Preservation
  import opened Empty
  import opened Matcher
  import opened Refinement
  import opened EmptyScan
  import opened Lookahead
  import FirstReq
  import opened Anchoring
  import opened Asserted
  import opened Required

  /** At the place `s` nothing gets past the item. */
  ghost predicate BarOp(x: Ctx, op: Op, s: nat)
    requires ValidOp(op)
    decreases op, 0
  {
    match op
    case Test(o) => !TestHolds(x, o, s)
    case One(a) => !MatchesHere(x, a, s)
    case Rep(a, form, n, m) => RepBounds(a, form, n, m).lo > 0 && !MatchesHere(x, a, s)
    case Bra(_, _, body, _) => BarAlts(x, body, s)
    case Look(_, _) => !MOp(x, op, s, s)
    case _ => false
  }

  /** Nor past the beginning of the sequence. */
  ghost predicate BarOps(x: Ctx, ops: Ops, s: nat)
    requires ValidOps(ops)
    decreases ops, 0
  {
    ops.Cons? && (BarOp(x, ops.head, s) || ((ops.head.Test? || ops.head.Look?) && BarOps(x, ops.tail, s)))
  }

  ghost predicate BarAlts(x: Ctx, al: Alts, s: nat)
    requires ValidAlts(al)
    decreases al, 1
  {
    BarOps(x, al.branch, s) && (al.More? ==> BarAlts(x, al.rest, s))
  }

  /** Every path that begins there stays there. */
  lemma {:induction false} BarPath(env: Env, ops: Ops, a: nat, s: nat, m: nat, n: Node)
    requires ValidOps(ops) && OpsDepth(ops) <= env.depth && s <= |env.ctx.subject|
    requires Placed(env.code, a, EncOps(ops)) && BarOps(env.ctx, ops, s) && R(env, m, Node(s, a, 0), n)
    ensures n.pos == s
    decreases ops, 1
  {
    hide BarOp, R, EncOp, OpDepth, Placed;
    PlacedOps(env.code, a, ops.head, ops.tail);
    if m == 0 {
      RZero(env, Node(s, a, 0), n);
    } else if BarOp(env.ctx, ops.head, s) {
      BarItem(env, ops.head, a, s, m, n);
    } else {
      var z := Step(env, m, Node(s, a, 0), n);
      TestStep(env, ops.head, a, s, z);
      BarPath(env, ops.tail, a + |EncOp(ops.head)|, s, m - 1, n);
    }
  }

  /** A test or an assertion leads on without moving, if at all. */
  lemma TestStep(env: Env, op: Op, a: nat, s: nat, z: Node)
    requires ValidOp(op) && (op.Test? || op.Look?) && Placed(env.code, a, EncOp(op))
    requires z in Act(env, Node(s, a, 0)) || z in Fresh(env.code, env.ctx, Node(s, a, 0))
    ensures z == Node(s, a + |EncOp(op)|, 0)
  {
    hide Decode, Entries, ToKet, EncAlts, EncBranch, EncOpen, Offsets, LookHolds, Heading;
    match op
    case Test(o) => DecodeTest(env.code, a, o);
    case Look(o, body) => var h, e := Bracket(env.code, a, o, 0, body, OP_KET, IsBack(o));
  }

  lemma {:induction false} BarItem(env: Env, op: Op, a: nat, s: nat, m: nat, n: Node)
    requires ValidOp(op) && OpDepth(op) <= env.depth && s <= |env.ctx.subject|
    requires Placed(env.code, a, EncOp(op)) && BarOp(env.ctx, op, s) && R(env, m, Node(s, a, 0), n)
    ensures n.pos == s
    decreases op, 3
  {
    hide Decode, Entries, ToKet, At, Get, EncAtom, EncRep, EncAlts, EncBranch, EncOpen, EncBracket, Offsets, HeaderLen, R, MLook, BarAlts;
    if m > 0 {
      var z := Step(env, m, Node(s, a, 0), n);
      match op
      case Test(o) => DecodeTest(env.code, a, o);
      case One(atom) => DecodeOne(env.code, a, atom);
      case Rep(atom, form, c, d) => DecodeRepeat(env.code, a, atom, form, c, d);
      case Bra(o, cap, body, ket) =>
        var h, e := Bracket(env.code, a, o, cap, body, ket, false);
        var y := EnterBra(env, a, body, ket, h, e, s, m, n);
        BracketHead(env.code, a, body, ket, h, e);
        BarBranches(env, a, body, h, y.off, s, m - 1, n);
      case Look(o, body) =>
        var h, e := Bracket(env.code, a, o, 0, body, OP_KET, IsBack(o));
        LookCorrect(env, o, body, a, h, e, s);
    } else {
      RZero(env, Node(s, a, 0), n);
    }
  }

  lemma RZero(env: Env, x: Node, y: Node)
    requires R(env, 0, x, y)
    ensures x == y
  {
  }

  lemma BracketHead(code: seq<Byte>, a: nat, body: Alts, ket: Byte, h: nat, e: nat)
    requires ValidAlts(body) && Bracketed(code, a, body, ket, false, h, e)
    ensures Heading(code, a, body, false, h)
  {
    hide EncAlts, Entries, ToKet, Decode, Heading;
  }

  lemma {:induction false} BarBranches(env: Env, o: nat, al: Alts, h: nat, e: nat, s: nat, m: nat, n: Node)
    requires ValidAlts(al) && AltsDepth(al) <= env.depth && s <= |env.ctx.subject|
    requires Heading(env.code, o, al, false, h) && e in Offsets(al, false, h)
    requires BarAlts(env.ctx, al, s) && R(env, m, Node(s, e, 0), n)
    ensures n.pos == s
    decreases al, 2
  {
    hide Decode, ToKet, Entries, EncOp, EncOps, EncBranch, EncAlts, Heading, Offsets, R, BarOps, ValidOps, OpsDepth;
    OffsetsCases(al, false, h);
    if e == h {
      BranchPlaced(env.code, o, al, false, h);
      BranchStart(env.code, al, false, h);
      BarPath(env, al.branch, h, s, m, n);
    } else {
      NextHeading(env.code, o, al, false, h);
      var f := h + |EncBranch(al.branch, false)|;
      BarBranches(env, f, al.rest, f + 1 + LINK_SIZE, e, s, m, n);
    }
  }

  // ----- from an earlier place -----

  /** The place `l` from which an anchored branch, or for `line` one that starts lines, is tried as well. */
  ghost predicate Earlier(x: Ctx, s0: nat, l: nat, s: nat, line: bool) {
    && l < s <= |x.subject|
    && if line then s0 <= s && l == LineStart(x.subject, s0, s) else x.som == l
  }

  /** A repeat of any characters gets from one place to the other. */
  lemma {:induction false} StarPath(env: Env, op: Op, a: nat, l: nat, s: nat)
    requires ValidOp(op) && op.Rep? && Placed(env.code, a, EncOp(op)) && l <= s <= |env.ctx.subject|
    requires LeadingStar(op, OP_ALLANY) || (LeadingStar(op, OP_ANY) && forall k | l <= k < s :: env.ctx.subject[k] != NEWLINE)
    ensures R(env, s - l, Node(l, a, 0), Node(s, a, 0))
    decreases s - l
  {
    hide Decode, EncRep, EncAtom, R;
    if l == s {
      RHere(env, Node(l, a, 0));
    } else {
      DecodeRepeat(env.code, a, op.atom, op.form, op.n, op.m);
      var z := Node(l + 1, a, 0);
      assert z in Fresh(env.code, env.ctx, Node(l, a, 0));
      StarPath(env, op, a, l + 1, s);
      RCons(env, s - l - 1, Node(l, a, 0), z, Node(s, a, 0));
    }
  }

  lemma RHere(env: Env, x: Node)
    ensures R(env, 0, x, x)
  {
  }

  lemma {:induction false} LeadPath(env: Env, op: Op, a: nat, s0: nat, l: nat, s: nat, line: bool, m: nat, n: Node) returns (m2: nat)
    requires ValidOp(op) && OpDepth(op) <= env.depth && Placed(env.code, a, EncOp(op)) && Earlier(env.ctx, s0, l, s, line)
    requires Leads(op, line) && SteadyOp(env.ctx.tables, op, line) && R(env, m, Node(s, a, 0), n) && n.pos > s
    ensures R(env, m2, Node(l, a, 0), n)
    decreases op, 1
  {
    hide Decode, Entries, ToKet, At, Get, EncAtom, EncRep, EncAlts, EncBranch, EncOpen, EncBracket, Offsets, HeaderLen, R, MLook;
    if op.Rep? {
      StarPath(env, op, a, l, s);
      RTrans(env, s - l, m, Node(l, a, 0), Node(s, a, 0), n);
      m2 := s - l + m;
    } else {
      var z := Step(env, m, Node(s, a, 0), n);
      match op
      case Test(o) => DecodeTest(env.code, a, o);
      case Bra(o, cap, body, ket) =>
        var h, e := Bracket(env.code, a, o, cap, body, ket, false);
        var y := EnterBra(env, a, body, ket, h, e, s, m, n);
        BracketHead(env.code, a, body, ket, h, e);
        var k := LeadBranches(env, a, body, h, y.off, s0, l, s, line, m - 1, n);
        EnterAt(env, a, body, ket, h, e, l, y.off);
        RCons(env, k, Node(l, a, 0), Node(l, y.off, 0), n);
        m2 := k + 1;
      case Look(o, body) =>
        var h, e := Bracket(env.code, a, o, 0, body, OP_KET, IsBack(o));
        LookCorrect(env, o, body, a, h, e, s);
    }
  }

  lemma EnterAt(env: Env, a: nat, body: Alts, ket: Byte, h: nat, e: nat, l: nat, off: nat)
    requires ValidAlts(body) && Bracketed(env.code, a, body, ket, false, h, e) && IsGroup(At(env.code, a))
    requires off in Offsets(body, false, h)
    ensures Node(l, off, 0) in Act(env, Node(l, a, 0))
  {
    hide Decode, ToKet, Entries, Offsets, EncAlts, Heading;
    var offs := Offsets(body, false, h);
    var k :| 0 <= k < |offs| && offs[k] == off;
    assert Act(env, Node(l, a, 0)) == Heads(l, Entries(env.code, a));
    assert Heads(l, Entries(env.code, a))[k] == Node(l, off, 0);
  }

  lemma {:induction false} LeadBranches(env: Env, o: nat, al: Alts, h: nat, e: nat, s0: nat, l: nat, s: nat, line: bool, m: nat, n: Node)
    returns (m2: nat)
    requires ValidAlts(al) && AltsDepth(al) <= env.depth && Earlier(env.ctx, s0, l, s, line)
    requires Heading(env.code, o, al, false, h) && e in Offsets(al, false, h)
    requires LeadsAll(al, line) && Steady(env.ctx.tables, al, line) && R(env, m, Node(s, e, 0), n) && n.pos > s
    ensures R(env, m2, Node(l, e, 0), n)
    decreases al, 2
  {
    hide Decode, ToKet, Entries, EncOp, EncBranch, EncAlts, Heading, Offsets, R, Earlier, SteadyOp, AnchoredOp, StartlineOp;
    OffsetsCases(al, false, h);
    if e == h {
      BranchPlaced(env.code, o, al, false, h);
      BranchStart(env.code, al, false, h);
      PlacedOps(env.code, h, al.branch.head, al.branch.tail);
      m2 := LeadPath(env, al.branch.head, h, s0, l, s, line, m, n);
    } else {
      NextHeading(env.code, o, al, false, h);
      var f := h + |EncBranch(al.branch, false)|;
      m2 := LeadBranches(env, f, al.rest, f + 1 + LINK_SIZE, e, s0, l, s, line, m, n);
    }
  }

  // ----- a start without the first character -----

  lemma {:induction false} FirstStays(b: Branch, s: FirstReq.Start, vary: bool)
    requires !s.first.Unset?
    ensures FirstReq.BranchStart(b, s, vary).first == s.first
    decreases b
  {
    hide FirstReq.AltsStart, FirstReq.Varies;
    if b.BCons? {
      FirstStays(b.tail, FirstReq.ItemStart(b.head, s, vary), vary || FirstReq.Varies(b.head));
    }
  }

  lemma {:induction false} MoreFirst(al: PAlts, s: FirstReq.Start, vary: bool)
    requires FirstReq.MoreStart(al, s, vary).first.Char?
    ensures s.first == FirstReq.MoreStart(al, s, vary).first
         == FirstReq.BranchStart(al.branch, FirstReq.Start(Unset, Unset), vary).first
    decreases al
  {
    hide FirstReq.BranchStart, FirstReq.VariesBranch;
    if al.PMore? {
      var t := FirstReq.Merge(s, FirstReq.BranchStart(al.branch, FirstReq.Start(Unset, Unset), vary));
      MoreFirst(al.rest, t, vary || FirstReq.VariesBranch(al.branch));
    }
  }

  /** The character at `s` is not one that satisfies the requirement. */
  predicate Misses(x: Ctx, r: Req, s: nat) { r.Char? && !(s < |x.subject| && CharIs(x.tables, r, x.subject[s])) }

  lemma BarAppend(x: Ctx, a: Ops, b: Ops, s: nat)
    requires ValidOps(a) && ValidOps(Append(a, b)) && a.Cons? && BarOp(x, a.head, s)
    ensures BarOps(x, Append(a, b), s)
  {
  }

  lemma {:induction false} ItemBars(x: Ctx, item: Item, rest: Branch, st: FirstReq.Start, vary: bool, s: nat)
    requires ValidItem(item) && st.first.Unset? && ValidOps(ExpandItem(x.tables, item, rest))
    requires Misses(x, FirstReq.ItemStart(item, st, vary).first, s)
    ensures var ops := ExpandItem(x.tables, item, rest); ops.Cons? && ValidOp(ops.head) && BarOp(x, ops.head, s)
    decreases item, 0
  {
    hide FirstReq.AltsStart, TreeOf, BarAlts, CanBeEmptyAlts;
    match item
    case PAtom(a, _) =>
    case PRep(a, q) =>
    case PGroup(_, body) => FirstBars(x, body, vary, s);
    case PGroupRep(_, body, q) => FirstBars(x, body, vary, s);
    case _ =>
  }

  lemma {:induction false} BranchBars(x: Ctx, b: Branch, st: FirstReq.Start, vary: bool, s: nat)
    requires ValidBranch(b) && st.first.Unset? && ValidOps(ExpandBranch(x.tables, b))
    requires Misses(x, FirstReq.BranchStart(b, st, vary).first, s)
    ensures BarOps(x, ExpandBranch(x.tables, b), s)
    decreases b, 0
  {
    hide FirstReq.AltsStart, TreeOf, BarAlts, BarOp;
    var ops, st2 := ExpandItem(x.tables, b.head, b.tail), FirstReq.ItemStart(b.head, st, vary);
    AppendValid(ops, ExpandBranch(x.tables, b.tail));
    if st2.first.Unset? {
      assert ops.Cons? && (ops.head.Test? || ops.head.Look?) && ops.tail == Nil;
      BranchBars(x, b.tail, st2, vary || FirstReq.Varies(b.head), s);
      assert Append(ops, ExpandBranch(x.tables, b.tail)) == Cons(ops.head, ExpandBranch(x.tables, b.tail));
    } else {
      FirstStays(b.tail, st2, vary || FirstReq.Varies(b.head));
      ItemBars(x, b.head, b.tail, st, vary, s);
      BarAppend(x, ops, ExpandBranch(x.tables, b.tail), s);
    }
  }

  lemma AppendValid(a: Ops, b: Ops)
    requires ValidOps(Append(a, b))
    ensures ValidOps(a) && ValidOps(b)
    decreases a
  {
    if a.Cons? {
      assert Append(a, b) == Cons(a.head, Append(a.tail, b));
      AppendValid(a.tail, b);
    }
  }

  /** Where the first character of a pattern is missing, nothing gets past the start. */
  lemma {:induction false} FirstBars(x: Ctx, al: PAlts, vary: bool, s: nat)
    requires ValidPAlts(al) && ValidAlts(TreeOf(x.tables, al)) && Misses(x, FirstReq.AltsStart(al, vary).first, s)
    ensures BarAlts(x, TreeOf(x.tables, al), s)
    decreases al, 1
  {
    hide BarOps, ExpandBranch;
    var none := FirstReq.Start(Unset, Unset);
    if al.PMore? {
      MoreFirst(al.rest, FirstReq.BranchStart(al.branch, none, vary), vary || FirstReq.VariesBranch(al.branch));
      MoreBars(x, al.rest, FirstReq.BranchStart(al.branch, none, vary), vary || FirstReq.VariesBranch(al.branch), s);
    }
    BranchBars(x, al.branch, none, vary, s);
  }

  lemma {:induction false} MoreBars(x: Ctx, al: PAlts, st: FirstReq.Start, vary: bool, s: nat)
    requires ValidPAlts(al) && ValidAlts(TreeOf(x.tables, al)) && Misses(x, FirstReq.MoreStart(al, st, vary).first, s)
    ensures BarAlts(x, TreeOf(x.tables, al), s)
    decreases al, 1
  {
    hide BarOps, ExpandBranch;
    var none := FirstReq.Start(Unset, Unset);
    MoreFirst(al, st, vary);
    BranchBars(x, al.branch, none, vary, s);
    if al.PMore? {
      MoreBars(x, al.rest, FirstReq.Merge(st, FirstReq.BranchStart(al.branch, none, vary)), vary || FirstReq.VariesBranch(al.branch), s);
    }
  }

  // ----- a start without the asserted character -----

  lemma {:induction false} SignificantBars(x: Ctx, ops: Ops, s: nat)
    requires ValidOps(ops) && ValidOps(Significant(ops)) && BarOps(x, Significant(ops), s)
    ensures BarOps(x, ops, s)
    decreases ops
  {
    hide BarOp;
    if ops.Cons? && PassedOver(ops.head) {
      SignificantBars(x, ops.tail, s);
    }
  }

  lemma SignificantValid(ops: Ops)
    requires ValidOps(ops)
    ensures ValidOps(Significant(ops))
  {
  }

  lemma {:induction false} AgreedBars(x: Ctx, c: Req, op: Op, s: nat)
    requires ValidOp(op) && EvenStep(x.tables, c, op, false) && Misses(x, Agreed(c, op, false), s)
    ensures BarOp(x, op, s)
    decreases op, 0
  {
    hide AssertedMore, EvenMore, MLook, BarAlts;
    match op
    case Bra(_, _, body, _) => AssertedBars(x, body, Unset, s);
    case Look(o, body) =>
      if MLook(x, o, body, s) {
        var q := MLookElim(x, o, body, s);
        AssertedSound(x.(som := s), body, true, Unset, s, q);
      }
    case _ =>
  }

  /** Where the asserted character is missing, nothing gets past the start either. */
  lemma {:induction false} AssertedBars(x: Ctx, al: Alts, c: Req, s: nat)
    requires ValidAlts(al) && EvenMore(x.tables, al, false, c) && Misses(x, AssertedMore(al, false, c), s)
    ensures BarAlts(x, al, s)
    decreases al, 1
  {
    hide BarOp;
    var ops := Significant(al.branch);
    SignificantValid(al.branch);
    var d := Agreed(c, ops.head, false);
    if al.More? {
      Kept(al.rest, false, d);
      AssertedBars(x, al.rest, d, s);
    }
    AgreedBars(x, c, ops.head, s);
    SignificantBars(x, al.branch, s);
  }

  // ----- compiled patterns -----

  /** From a start without the program's first character, no path wants more of the subject. */
  lemma WantFirst(x: Ctx, p: PAlts, s: nat)
    requires InScope(x.tables, p) && ValidPAlts(p) && |CodeOf(x.tables, p)| <= MAX_PATTERN_SIZE
    requires Rightly(x.tables, p) && s < |x.subject| && Misses(x, FirstOf(x.tables, p), s)
    ensures !Wanting(EnvOf(x, p), Starts(CodeOf(x.tables, p), 0, s))
  {
    hide Starts, ToKet, Entries, Decode, Bracketed, Offsets, Heading, EncPattern, EncAlts, Reached, BarAlts, Misses, InScope, R, AssertedMore, EvenMore;
    var al, env := TreeOf(x.tables, p), EnvOf(x, p);
    TreeValid(x.tables, p);
    if FirstReq.AltsStart(p, false).first.Char? {
      FirstBars(x, p, false, s);
    } else {
      AssertedBars(x, al, Unset, s);
    }
    var k := CodeLaidOut(al);
    KetOf(env.code, al, k);
    BracketHeading(env.code, al, k);
    ForwardStarts(env.code, 0, al, OP_KET, 1 + LINK_SIZE, k, s);
    forall n | Reached(env, Starts(env.code, 0, s), n)
      ensures n.pos == s
    {
      var m, t := ReachedElim(env, Starts(env.code, 0, s), n);
      BarBranches(env, 0, al, 1 + LINK_SIZE, t.off, s, m, n);
    }
  }

  lemma TreeValid(t: CharTables, p: PAlts)
    requires InScope(t, p)
    ensures ValidPAlts(p) && ValidAlts(TreeOf(t, p))
  {
    ValidTree(t, p);
  }

  lemma ReachedElim(env: Env, starts: seq<Node>, n: Node) returns (m: nat, t: Node)
    requires Reached(env, starts, n)
    ensures t in starts && R(env, m, t, n)
  {
    m, t :| t in starts && R(env, m, t, n);
  }

  lemma ReachedIntro(env: Env, starts: seq<Node>, m: nat, t: Node, n: Node)
    requires t in starts && R(env, m, t, n)
    ensures Reached(env, starts, n)
  {
  }

  /** What an anchored or line-starting program wants from `s`, it also wants from the earlier start. */
  lemma WantEarlier(x: Ctx, p: PAlts, s0: nat, l: nat, s: nat, line: bool)
    requires InScope(x.tables, p) && ValidPAlts(p) && |CodeOf(x.tables, p)| <= MAX_PATTERN_SIZE
    requires Earlier(x, s0, l, s, line) && s < |x.subject| && ValidAlts(TreeOf(x.tables, p))
    requires LeadsAll(TreeOf(x.tables, p), line) && Steady(x.tables, TreeOf(x.tables, p), line)
    requires Wanting(EnvOf(x, p), Starts(CodeOf(x.tables, p), 0, s))
    ensures Wanting(EnvOf(x, p), Starts(CodeOf(x.tables, p), 0, l))
  {
    hide Starts, ToKet, Entries, Decode, Bracketed, Offsets, Heading, EncPattern, EncAlts, Reached, Earlier, Steady, LeadsAll, InScope, R, Inspects;
    var al, env := TreeOf(x.tables, p), EnvOf(x, p);
    var k := CodeLaidOut(al);
    KetOf(env.code, al, k);
    BracketHeading(env.code, al, k);
    ForwardStarts(env.code, 0, al, OP_KET, 1 + LINK_SIZE, k, s);
    ForwardStarts(env.code, 0, al, OP_KET, 1 + LINK_SIZE, k, l);
    var n :| Reached(env, Starts(env.code, 0, s), n) && Wants(env, n);
    var m, t := ReachedElim(env, Starts(env.code, 0, s), n);
    var m2 := LeadBranches(env, 0, al, 1 + LINK_SIZE, t.off, s0, l, s, line, m, n);
    HeadIn(l, Offsets(al, false, 1 + LINK_SIZE), s, t);
    ReachedIntro(env, Starts(env.code, 0, l), m2, Node(l, t.off, 0), n);
  }

  lemma HeadIn(l: nat, offs: seq<nat>, s: nat, t: Node)
    requires t in Heads(s, offs)
    ensures t == Node(s, t.off, 0) && t.off in offs && Node(l, t.off, 0) in Heads(l, offs)
  {
    var k :| 0 <= k < |offs| && Heads(s, offs)[k] == t;
    assert Heads(l, offs)[k] == Node(l, t.off, 0);
  }
}
