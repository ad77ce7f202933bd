/** The state graph that the matcher explores. A node is a subject position together with
    a state (offset of an opcode, repeat count); its edges are what the matcher does on
    meeting that state there. */
module Graph {
  import opened Bytecode
  import opened Tree
  import opened Subject

  /** One compiled item, read from its bytes. */
  datatype Instr =
    | Bad
    | ITest(op: Byte, next: nat)
    | IOne(atom: Atom, next: nat)
    | IRep(atom: Atom, form: nat, n: nat, m: nat, next: nat)
    | IAlt(ket: nat)
    | IKet(next: nat, loop: bool, back: nat)
    | IBra
    | IZero(entry: nat, next: nat)
    | ISkip(next: nat)
    | ILook(op: Byte, next: nat)

  function CharAtom(family: nat, d: Byte): Atom
    requires family < 4
  {
    if family < 2 then Lit(d, family == 1) else NotLit(d, family == 3)
  }

  function DecodeRep(code: seq<Byte>, o: nat): (r: Instr)
    requires OP_STAR <= At(code, o) < OP_CRSTAR
    ensures r.IRep? ==> ValidAtom(r.atom) && !r.atom.Class?
  {
    var form := (At(code, o) - OP_STAR) % 13;
    var family := (At(code, o) - OP_STAR) / 13;
    var skip := if Counted(form) then IMM2_SIZE else 0;
    var d := At(code, o + 1 + skip);
    var n := if Counted(form) then Get(code, o + 1) else 0;
    if family < 4 then IRep(CharAtom(family, d), form, n, 0, o + 2 + skip)
    else if OP_NOT_DIGIT <= d <= OP_ALLANY then IRep(Kind(d), form, n, 0, o + 2 + skip)
    else Bad
  }

  function DecodeClass(code: seq<Byte>, o: nat): (r: Instr)
    requires At(code, o) == OP_CLASS || At(code, o) == OP_NCLASS
    ensures r.IRep? || r.IOne? ==> ValidAtom(r.atom) && r.atom.Class?
  {
    if o + 33 > |code| then Bad
    else
      var a := Class(code[o + 1..o + 33], At(code, o) == OP_NCLASS);
      var e := o + 33;
      var q := At(code, e);
      if OP_CRSTAR <= q < OP_CRRANGE then IRep(a, q - OP_CRSTAR, 0, 0, e + 1)
      else if q == OP_CRRANGE || q == OP_CRMINRANGE then
        IRep(a, q - OP_CRSTAR, Get(code, e + 1), Get(code, e + 3), e + 1 + 2 * IMM2_SIZE)
      else IOne(a, e)
  }

  function Decode(code: seq<Byte>, o: nat): (r: Instr)
    ensures r.IRep? || r.IOne? ==> ValidAtom(r.atom)
  {
    var op := At(code, o);
    if IsTest(op) then ITest(op, o + 1)
    else if OP_NOT_DIGIT <= op <= OP_ALLANY then IOne(Kind(op), o + 1)
    else if OP_CHAR <= op <= OP_NOTI then IOne(CharAtom(op - OP_CHAR, At(code, o + 1)), o + 2)
    else if OP_STAR <= op < OP_CRSTAR then DecodeRep(code, o)
    else if op == OP_CLASS || op == OP_NCLASS then DecodeClass(code, o)
    else if op == OP_ALT then IAlt(ToKet(code, o))
    else if IsKet(op) then
      if o < Get(code, o + 1) then Bad else IKet(o + 1 + LINK_SIZE, op != OP_KET, o - Get(code, o + 1))
    else if IsGroup(op) then IBra
    else if op == OP_BRAZERO || op == OP_BRAMINZERO then IZero(o + 1, ToKet(code, o + 1) + 1 + LINK_SIZE)
    else if op == OP_SKIPZERO then ISkip(ToKet(code, o + 1) + 1 + LINK_SIZE)
    else if IsLook(op) then ILook(op, ToKet(code, o) + 1 + LINK_SIZE)
    else Bad
  }

  datatype Node = Node(pos: nat, off: nat, cnt: nat)

  /** The code, the context, the offset of the ket that ends this (sub)pattern, and how many
      levels of assertion may still be entered. */
  datatype Env = Env(code: seq<Byte>, ctx: Ctx, end: nat, depth: nat)

  function Heads(p: nat, offs: seq<nat>): (r: seq<Node>)
    ensures |r| == |offs| && forall k | 0 <= k < |r| :: r[k] == Node(p, offs[k], 0)
  {
    seq(|offs|, i requires 0 <= i < |offs| => Node(p, offs[i], 0))
  }

  /** Where the branches of a lookbehind start: those that fit between the subject's start and `p`. */
  function BackStarts(code: seq<Byte>, h: nat, p: nat): seq<Node>
    decreases if h < |code| then |code| - h else 0
  {
    var back := Get(code, h + 2 + LINK_SIZE);
    var n := h + Get(code, h + 1);
    (if back <= p then [Node(p - back, h + 2 + 2 * LINK_SIZE, 0)] else [])
    + if h < n < |code| && code[n] == OP_ALT then BackStarts(code, n, p) else []
  }

  /** The nodes at which matching the bracket at `o` from position `p` begins. */
  function Starts(code: seq<Byte>, o: nat, p: nat): seq<Node> {
    if At(code, o + HeaderLen(At(code, o))) == OP_REVERSE then BackStarts(code, o, p)
    else Heads(p, Entries(code, o))
  }

  /** May the repeat stop here, having matched `c` characters? */
  predicate CanExit(b: Bounds, c: nat) { !b.never && c >= b.lo }

  /** What is added to the current list of states. */
  ghost function Act(env: Env, x: Node): seq<Node>
    decreases env.depth, 1, 0
  {
    match Decode(env.code, x.off)
    case ITest(op, next) => if TestHolds(env.ctx, op, x.pos) then [Node(x.pos, next, 0)] else []
    case IRep(a, form, n, m, next) =>
      var b := RepBounds(a, form, n, m);
      if CanExit(b, x.cnt) && !(b.poss && MatchesHere(env.ctx, a, x.pos)) then [Node(x.pos, next, 0)] else []
    case IAlt(ket) => [Node(x.pos, ket, 0)]
    case IKet(next, loop, back) =>
      if x.off == env.end then []
      else [Node(x.pos, next, 0)] + if loop then [Node(x.pos, back, 0)] else []
    case IBra => Heads(x.pos, Entries(env.code, x.off))
    case IZero(entry, next) => [Node(x.pos, entry, 0), Node(x.pos, next, 0)]
    case ISkip(next) => [Node(x.pos, next, 0)]
    case ILook(op, next) =>
      if LookHolds(env.code, env.ctx, env.depth, x.off, x.pos) == (op == OP_ASSERT || op == OP_ASSERTBACK)
      then [Node(x.pos, next, 0)] else []
    case _ => []
  }

  /** The state of a repeat after one more character. */
  function RepNext(b: Bounds, x: Node, next: nat): Node {
    if b.hi >= 0 && x.cnt + 1 >= b.hi then Node(x.pos + 1, next, 0)
    else Node(x.pos + 1, x.off, if b.keep then x.cnt + 1 else 0)
  }

  /** What is added to the list for the next character. */
  function Fresh(code: seq<Byte>, ctx: Ctx, x: Node): seq<Node> {
    match Decode(code, x.off)
    case IOne(a, next) => if MatchesHere(ctx, a, x.pos) then [Node(x.pos + 1, next, 0)] else []
    case IRep(a, form, n, m, next) =>
      if MatchesHere(ctx, a, x.pos) then [RepNext(RepBounds(a, form, n, m), x, next)] else []
    case _ => []
  }

  ghost function Succs(env: Env, x: Node): seq<Node>
    decreases env.depth, 2, 0
  {
    Act(env, x) + Fresh(env.code, env.ctx, x)
  }

  /** `y` is reached from `x` in exactly `n` steps. */
  ghost predicate R(env: Env, n: nat, x: Node, y: Node)
    decreases env.depth, 3, n
  {
    if n == 0 then x == y else exists z :: z in Succs(env, x) && R(env, n - 1, z, y)
  }

  /** From one of `starts`, the end of the (sub)pattern is reached at position `j`. */
  ghost predicate Finishes(env: Env, starts: seq<Node>, j: nat)
    decreases env.depth, 4, 0
  {
    exists n: nat, s :: s in starts && R(env, n, s, Node(j, env.end, 0))
  }

  /** How the bracket at `o` is matched when an assertion enters it from `p`. */
  function Nested(code: seq<Byte>, ctx: Ctx, depth: nat, o: nat, p: nat): Env
    requires depth > 0
  {
    Env(code, ctx.(som := p), ToKet(code, o), depth - 1)
  }

  /** The greatest distance that a branch of a lookbehind goes back. */
  function Furthest(code: seq<Byte>, h: nat): nat
    decreases if h < |code| then |code| - h else 0
  {
    var back := Get(code, h + 2 + LINK_SIZE);
    var n := h + Get(code, h + 1);
    if h < n < |code| && code[n] == OP_ALT then Max(back, Furthest(code, n)) else back
  }

  /** Where the run of an assertion at `p` begins: a lookbehind goes back as far as any branch needs. */
  function RunFrom(code: seq<Byte>, o: nat, p: nat): (q: nat)
    ensures q <= p
  {
    if At(code, o + HeaderLen(At(code, o))) != OP_REVERSE then p
    else if Furthest(code, o) <= p then p - Furthest(code, o) else 0
  }

  /** The assertion at `o`, tried at `p` with `depth` levels left, finds a match of its body that the
      options do not refuse. */
  ghost predicate LookHolds(code: seq<Byte>, ctx: Ctx, depth: nat, o: nat, p: nat)
    decreases depth, 0, 0
  {
    depth > 0 && exists j: nat ::
      Finishes(Nested(code, ctx, depth, o, p), Starts(code, o, p), j) && Recordable(ctx, RunFrom(code, o, p), j)
  }

  /** The first of several steps. */
  lemma Step(env: Env, n: nat, x: Node, y: Node) returns (z: Node)
    requires (n > 0 || x != y) && R(env, n, x, y)
    ensures n > 0 && R(env, n - 1, z, y)
    ensures z in Act(env, x) || z in Fresh(env.code, env.ctx, x)
  {
    z :| z in Succs(env, x) && R(env, n - 1, z, y);
  }

  lemma OneStep(env: Env, x: Node, y: Node)
    requires y in Act(env, x) || y in Fresh(env.code, env.ctx, x)
    ensures R(env, 1, x, y)
  {
    assert R(env, 0, y, y);
    RCons(env, 0, x, y, y);
  }

  lemma LookHoldsElim(code: seq<Byte>, ctx: Ctx, depth: nat, o: nat, p: nat) returns (j: nat)
    requires depth > 0 && LookHolds(code, ctx, depth, o, p)
    ensures Finishes(Nested(code, ctx, depth, o, p), Starts(code, o, p), j) && Recordable(ctx, RunFrom(code, o, p), j)
  {
    j :| Finishes(Nested(code, ctx, depth, o, p), Starts(code, o, p), j) && Recordable(ctx, RunFrom(code, o, p), j);
  }

  lemma LookHoldsIntro(code: seq<Byte>, ctx: Ctx, depth: nat, o: nat, p: nat, j: nat)
    requires depth > 0 && Finishes(Nested(code, ctx, depth, o, p), Starts(code, o, p), j)
    requires Recordable(ctx, RunFrom(code, o, p), j)
    ensures LookHolds(code, ctx, depth, o, p)
  {
  }

  lemma FinishesElim(env: Env, starts: seq<Node>, j: nat) returns (n: nat, s: Node)
    requires Finishes(env, starts, j)
    ensures s in starts && R(env, n, s, Node(j, env.end, 0))
  {
    n, s :| s in starts && R(env, n, s, Node(j, env.end, 0));
  }

  lemma RCons(env: Env, n: nat, x: Node, z: Node, y: Node)
    requires z in Succs(env, x) && R(env, n, z, y)
    ensures R(env, n + 1, x, y)
  {
  }

  lemma {:induction false} RTrans(env: Env, n: nat, m: nat, x: Node, y: Node, z: Node)
    requires R(env, n, x, y) && R(env, m, y, z)
    ensures R(env, n + m, x, z)
    decreases n
  {
    if n > 0 {
      var w :| w in Succs(env, x) && R(env, n - 1, w, y);
      RTrans(env, n - 1, m, w, y, z);
      RCons(env, n - 1 + m, x, w, z);
    }
  }
}
