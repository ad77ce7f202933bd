/** Compile-then-match is correct: the state graph of the compiled code finishes exactly at
    the ends that the pattern's meaning allows. */
module Refinement {
  import opened Bytecode
  import opened Tree
  import opened Subject
  import opened Semantics
  import opened Graph
  import opened Layout
  import opened Correctness
  import opened Closure
  import opened Room
  import opened Scan
  import opened Matcher
  import opened DfaRun
  import opened Pattern
  import opened Possession
  import opened Expansion
  import opened Preservation
  import opened Load

  /** The patterns in scope: well-formed, no change of the caseless setting between a repeat and a literal right
      behind it, lookbehinds of fixed length below 65536, no item that needs an atomic group, and no
      repeat made possessive before an item that can be skipped. */
  ghost predicate InScope(t: CharTables, p: PAlts) {
    ValidPAlts(p) && Settled(p) && FixedBehind(t, p) && Unwrapped(t, p) && Certain(t, p) && Short(t, p)
  }

  /** The compiled code of a pattern. */
  ghost function CodeOf(t: CharTables, p: PAlts): seq<Byte>
    requires InScope(t, p)
  {
    ValidTree(t, p);
    EncPattern(TreeOf(t, p))
  }

  /** Levels of lookaround in the pattern. */
  ghost function DepthOf(t: CharTables, p: PAlts): nat
    requires ValidPAlts(p)
  {
    AltsDepth(TreeOf(t, p))
  }

  /** The matcher's environment for a whole compiled pattern. */
  ghost function EnvOf(x: Ctx, p: PAlts): Env
    requires InScope(x.tables, p)
  {
    var code := CodeOf(x.tables, p);
    Env(code, x, ToKet(code, 0), DepthOf(x.tables, p))
  }

  lemma CodeLaidOut(al: Alts) returns (k: nat)
    requires ValidAlts(al) && |EncPattern(al)| <= MAX_PATTERN_SIZE
    ensures At(EncPattern(al), 0) == OP_BRA && Bracketed(EncPattern(al), 0, al, OP_KET, false, 1 + LINK_SIZE, k)
    ensures k == |EncPattern(al)| - 4
  {
    hide EncBracket, EncAlts, Bracketed, Entries, ToKet, Decode;
    var code := EncPattern(al);
    var s := EncBracket(OP_BRA, 0, al, OP_KET, false);
    assert Holds(code, 0, s);
    var h;
    h, k := Bracket(code, 0, OP_BRA, 0, al, OP_KET, false);
    BracketStart(code, al, h, k);
  }

  lemma BracketStart(code: seq<Byte>, al: Alts, h: nat, k: nat)
    requires ValidAlts(al) && At(code, 0) == OP_BRA && Bracketed(code, 0, al, OP_KET, false, h, k)
    ensures h == 1 + LINK_SIZE
  {
    hide EncAlts, Entries, ToKet, Decode;
  }

  /** The code of a pattern, run from `s`, can finish at `j` exactly when the pattern matches
      from `s` to `j`. */
  lemma CompiledExactly(x: Ctx, p: PAlts, s: nat, j: nat)
    requires InScope(x.tables, p) && |CodeOf(x.tables, p)| <= MAX_PATTERN_SIZE && s <= |x.subject|
    requires Undisturbed(x, p)
    ensures Finishes(EnvOf(x, p), Starts(CodeOf(x.tables, p), 0, s), j) <==> MPAlts(x, p, s, j)
  {
    hide EncPattern, Finishes, Starts, ToKet, Entries, Decode, Bracketed, MAlts, MPAlts;
    var al := TreeOf(x.tables, p);
    ValidTree(x.tables, p);
    var k := CodeLaidOut(al);
    KetOf(EncPattern(al), al, k);
    Preserve(x, p, s, j);
    var env := EnvOf(x, p);
    if Finishes(env, Starts(env.code, 0, s), j) {
      SoundAhead(env, 0, al, 1 + LINK_SIZE, s, j);
    }
    if MAlts(x, al, s, j) {
      CompleteAhead(env, 0, al, 1 + LINK_SIZE, s, j);
    }
  }

  lemma KetOf(code: seq<Byte>, al: Alts, k: nat)
    requires ValidAlts(al) && Bracketed(code, 0, al, OP_KET, false, 1 + LINK_SIZE, k)
    ensures ToKet(code, 0) == k && Decode(code, k).IKet?
  {
    hide EncAlts, Entries, ToKet, Decode;
  }

  /** The places of the compiled pattern. */
  ghost function PlacesOf(t: CharTables, p: PAlts): set<Place>
    requires InScope(t, p)
  {
    ValidTree(t, p);
    var al := TreeOf(t, p);
    AltsSet(al, false, 1 + LINK_SIZE, AltsDepth(al), 1 + LINK_SIZE + |EncAlts(al, false)|)
  }

  /** A run on compiled code has the finite, closed set of states that the matcher asks for. */
  lemma CompiledSealed(x: Ctx, p: PAlts, plain: bool, base: nat)
    requires InScope(x.tables, p) && |CodeOf(x.tables, p)| <= MAX_PATTERN_SIZE
    requires plain ==> MovableAlts(TreeOf(x.tables, p))
    ensures Sealed(CodeOf(x.tables, p), PlacesOf(x.tables, p), plain)
    ensures Decode(CodeOf(x.tables, p), EnvOf(x, p).end).IKet?
    ensures forall s: nat | s <= |x.subject| :: Startable(EnvOf(x, p), Area(PlacesOf(x.tables, p), base), 0, s)
  {
    hide EncPattern, EncAlts, Starts, ToKet, Entries, Decode, Known, Proper, Offsets;
    var al := TreeOf(x.tables, p);
    ValidTree(x.tables, p);
    var code := EncPattern(al);
    var k := CodeLaidOut(al);
    KetOf(code, al, k);
    var exit := Place(k, AltsDepth(al), k);
    BracketHeading(code, al, k);
    AltsPlaces(code, 0, al, false, 1 + LINK_SIZE, exit, plain);
    var places := PlacesOf(x.tables, p);
    assert places == AltsSet(al, false, 1 + LINK_SIZE, AltsDepth(al), k);
    Seal(code, places, exit, plain);
    forall s: nat | s <= |x.subject|
      ensures Startable(EnvOf(x, p), Area(places, base), 0, s)
    {
      StartsProper(EnvOf(x, p), Area(places, base), al, k, s);
    }
  }

  /** The whole pattern is not a lookbehind. */
  lemma NoReverseAtStart(x: Ctx, p: PAlts)
    requires InScope(x.tables, p) && |CodeOf(x.tables, p)| <= MAX_PATTERN_SIZE
    ensures var code := CodeOf(x.tables, p); At(code, 0 + HeaderLen(At(code, 0))) != OP_REVERSE
  {
    hide EncPattern, Bracketed, TreeOf, Entries, Decode;
    var al := TreeOf(x.tables, p);
    ValidTree(x.tables, p);
    var k := CodeLaidOut(al);
    BracketHeading(EncPattern(al), al, k);
    NotReverse(EncPattern(al), 0, al, 1 + LINK_SIZE);
  }

  /** The room that a run on compiled code can need, and when its assertions have enough: both are
      computed from the pattern and the number of characters. */
  lemma CompiledRoom(x: Ctx, p: PAlts, base: nat, s: nat)
    requires InScope(x.tables, p) && |CodeOf(x.tables, p)| <= MAX_PATTERN_SIZE
    ensures var al, b, env, area := TreeOf(x.tables, p), base + |x.subject|, EnvOf(x, p), Area(PlacesOf(x.tables, p), base);
            && RunRoom(env, area) <= 1 + AltsSlots(al, b) + AltsAdds(al, b)
            && |Starts(env.code, 0, s)| == Branches(al)
            && (Modest(al, b) ==> Quiet(env, area))
  {
    hide EncPattern, EncAlts, Starts, ToKet, Entries, Decode, Offsets, Slots, Weight, Heading, Bracketed, AltsSlots, AltsAdds, Branches;
    var al, b := TreeOf(x.tables, p), base + |x.subject|;
    ValidTree(x.tables, p);
    var code := EncPattern(al);
    var k := CodeLaidOut(al);
    KetOf(code, al, k);
    BracketHeading(code, al, k);
    AltsLoad(code, 0, al, false, 1 + LINK_SIZE, AltsDepth(al), k, b);
    ForwardStarts(code, 0, al, OP_KET, 1 + LINK_SIZE, k, s);
    OffsetsCount(al, false, 1 + LINK_SIZE);
    if Modest(al, b) {
      AltsQuiet(code, 0, al, false, 1 + LINK_SIZE, AltsDepth(al), k, b);
    }
  }

  lemma BracketHeading(code: seq<Byte>, al: Alts, k: nat)
    requires ValidAlts(al) && Bracketed(code, 0, al, OP_KET, false, 1 + LINK_SIZE, k)
    ensures Heading(code, 0, al, false, 1 + LINK_SIZE) && k == 1 + LINK_SIZE + |EncAlts(al, false)|
  {
    hide EncAlts, Entries, ToKet, Decode;
  }

  lemma StartsProper(env: Env, area: Area, al: Alts, k: nat, s: nat)
    requires ValidAlts(al) && Bracketed(env.code, 0, al, OP_KET, false, 1 + LINK_SIZE, k) && env.end == k
    requires forall e | e in Offsets(al, false, 1 + LINK_SIZE) :: Place(e, env.depth, k) in area.places || e == k
    requires s <= |env.ctx.subject|
    ensures Startable(env, area, 0, s)
  {
    hide EncAlts, Entries, ToKet, Decode, Offsets;
    ForwardStarts(env.code, 0, al, OP_KET, 1 + LINK_SIZE, k, s);
    forall t | t in Starts(env.code, 0, s)
      ensures t.pos == s && (Place(t.off, env.depth, k) in area.places || t.off == k)
    {
      assert t.off in Offsets(al, false, 1 + LINK_SIZE);
    }
  }

  /** What a run on compiled code records: every end that the pattern allows, or with the
      shortest-match option the least one. */
  ghost predicate EndsOf(x: Ctx, p: PAlts, o: Options, s: nat, ends: seq<nat>)
    requires ValidPAlts(p)
  {
    if o.shortest && ends != [] then
      && |ends| == 1 && MPAlts(x, p, s, ends[0]) && Recordable(x, s, ends[0])
      && forall j: nat | j < ends[0] && MPAlts(x, p, s, j) :: !Recordable(x, s, j)
    else
      forall j: nat :: j in ends <==> MPAlts(x, p, s, j) && Recordable(x, s, j)
  }

  lemma RecordedExactly(x: Ctx, p: PAlts, o: Options, s: nat, ends: seq<nat>)
    requires InScope(x.tables, p) && |CodeOf(x.tables, p)| <= MAX_PATTERN_SIZE && s <= |x.subject|
    requires Undisturbed(x, p)
    requires Recorded(EnvOf(x, p), Starts(CodeOf(x.tables, p), 0, s), o, s, ends)
    ensures EndsOf(x, p, o, s, ends)
  {
    hide EnvOf, CodeOf, Starts, Finishes, MPAlts, InScope;
    assert ValidPAlts(p) by { ScopeValid(x.tables, p); }
    SameContext(x, p);
    forall j: nat
      ensures Finishes(EnvOf(x, p), Starts(CodeOf(x.tables, p), 0, s), j) <==> MPAlts(x, p, s, j)
    {
      CompiledExactly(x, p, s, j);
    }
  }

  lemma SameContext(x: Ctx, p: PAlts)
    requires InScope(x.tables, p)
    ensures EnvOf(x, p).ctx == x
  {
  }

  lemma ScopeValid(t: CharTables, p: PAlts)
    requires InScope(t, p)
    ensures ValidPAlts(p)
  {
  }

  // ----- patterns without lookarounds -----

  predicate LookFree(al: PAlts) { LookFreeBranch(al.branch) && (al.PMore? ==> LookFree(al.rest)) }

  predicate LookFreeBranch(b: Branch) { b.BCons? ==> LookFreeItem(b.head) && LookFreeBranch(b.tail) }

  predicate LookFreeItem(item: Item) {
    match item
    case PGroup(_, body) => LookFree(body)
    case PGroupRep(_, body, _) => LookFree(body)
    case PLook(_, _) => false
    case _ => true
  }

  lemma DepthAppend(a: Ops, b: Ops)
    ensures OpsDepth(Append(a, b)) == Max(OpsDepth(a), OpsDepth(b))
  {
  }

  lemma DepthCopies(g: Op, n: nat, rest: Ops)
    requires OpDepth(g) == 0 && OpsDepth(rest) == 0
    ensures OpsDepth(Copies(g, n, rest)) == 0
  {
  }

  lemma DepthOptional(g: Op, m: nat, lazy: bool)
    requires OpDepth(g) == 0
    ensures OpsDepth(Optional(g, m, lazy)) == 0
  {
    if m > 1 {
      DepthOptional(g, m - 1, lazy);
      var nest := Cons(g, Optional(g, m - 1, lazy));
      assert OpsDepth(nest) == 0 && AltsDepth(Last(nest)) == 0;
      DepthOne(Zero(lazy, Bra(OP_BRA, 0, Last(nest), OP_KET)));
    } else if m == 1 {
      DepthOne(Zero(lazy, g));
    }
  }

  lemma DepthOne(op: Op)
    ensures OpsDepth(Cons(op, Nil)) == OpDepth(op)
  {
    assert OpsDepth(Nil) == 0;
  }

  lemma DepthRepeat(a: Atom, q: Quant, poss: bool)
    requires ValidQuant(q)
    ensures OpsDepth(ExpandChar(a, q, poss)) == 0 && OpsDepth(ExpandClass(a, q)) == 0
  {
    var ops := ExpandChar(a, q, poss);
    if ops.Cons? {
      assert OpsDepth(ops.tail) == 0;
    }
  }

  lemma DepthGroup(g: Op, q: Quant)
    requires g.Bra? && IsGroup(g.op) && ValidQuant(q) && OpDepth(g) == 0
    ensures OpsDepth(ExpandGroup(g, q)) == 0
  {
    var lazy := q.greed == Lazy;
    if q.max > 0 {
      DepthOptional(g, if q.min == 0 then q.max else q.max - q.min, lazy);
      DepthCopies(g, q.min, Optional(g, q.max - q.min, lazy));
    } else if q.max < 0 && q.min > 0 {
      DepthCopies(g, q.min - 1, Cons(Looped(g, lazy), Nil));
    }
  }

  /** Whatever the quantifier, the group is in what it expands to. */
  lemma GroupInside(g: Op, q: Quant)
    requires g.Bra? && IsGroup(g.op) && ValidQuant(q) && OpsDepth(ExpandGroup(g, q)) == 0
    ensures OpDepth(g) == 0
  {
    hide Copies, Optional;
    var lazy := q.greed == Lazy;
    if q.min == 0 && q.max > 0 {
      OptionalInside(g, q.max, lazy);
    } else if q.max < 0 && q.min > 0 {
      CopiesInside(g, q.min - 1, Cons(Looped(g, lazy), Nil));
    } else if q.min > 0 {
      CopiesInside(g, q.min, Optional(g, q.max - q.min, lazy));
    }
  }

  lemma CopiesInside(g: Op, n: nat, rest: Ops)
    requires OpsDepth(Copies(g, n, rest)) == 0
    ensures (n > 0 ==> OpDepth(g) == 0) && OpsDepth(rest) == 0
  {
  }

  lemma OptionalInside(g: Op, m: nat, lazy: bool)
    requires m > 0 && OpsDepth(Optional(g, m, lazy)) == 0
    ensures OpDepth(g) == 0
  {
    if m > 1 {
      var nest := Cons(g, Optional(g, m - 1, lazy));
      assert OpsDepth(nest) == AltsDepth(Last(nest)) == OpDepth(Bra(OP_BRA, 0, Last(nest), OP_KET)) == 0;
    }
  }

  lemma {:induction false} DepthItem(t: CharTables, item: Item, rest: Branch)
    requires ValidItem(item) && LookFreeItem(item)
    ensures OpsDepth(ExpandItem(t, item, rest)) == 0
    decreases item, 0
  {
    match item
    case PRep(a, q) => DepthRepeat(a, q, MadePossessive(t, a, q, rest));
    case PGroup(cap, body) =>
      DepthFree(t, body);
      DepthOne(Group(cap, TreeOf(t, body)));
    case PGroupRep(cap, body, q) =>
      DepthFree(t, body);
      DepthGroup(Group(cap, TreeOf(t, body)), q);
    case _ =>
  }

  lemma {:induction false} DepthBranch(t: CharTables, b: Branch)
    requires ValidBranch(b) && LookFreeBranch(b)
    ensures OpsDepth(ExpandBranch(t, b)) == 0
    decreases b, 0
  {
    if b.BCons? {
      DepthItem(t, b.head, b.tail);
      DepthBranch(t, b.tail);
      DepthAppend(ExpandItem(t, b.head, b.tail), ExpandBranch(t, b.tail));
    }
  }

  /** Without lookarounds no nested run is ever made. */
  lemma {:induction false} DepthFree(t: CharTables, al: PAlts)
    requires ValidPAlts(al) && LookFree(al)
    ensures DepthOf(t, al) == 0
    decreases al, 1
  {
    DepthBranch(t, al.branch);
    if al.PMore? {
      DepthFree(t, al.rest);
    }
  }

  lemma {:induction false} FreeItem(t: CharTables, item: Item, rest: Branch)
    requires ValidItem(item)
    ensures OpsDepth(ExpandItem(t, item, rest)) == 0 ==> LookFreeItem(item)
    decreases item, 0
  {
    match item
    case PGroup(cap, body) =>
      DepthOne(Group(cap, TreeOf(t, body)));
      if DepthOf(t, body) == 0 {
        FreeDepth(t, body);
      }
    case PGroupRep(cap, body, q) =>
      if OpsDepth(ExpandItem(t, item, rest)) == 0 {
        GroupInside(Group(cap, TreeOf(t, body)), q);
        FreeDepth(t, body);
      }
    case PLook(o, body) => DepthOne(Look(o, TreeOf(t, body)));
    case _ =>
  }

  lemma {:induction false} FreeBranch(t: CharTables, b: Branch)
    requires ValidBranch(b) && OpsDepth(ExpandBranch(t, b)) == 0
    ensures LookFreeBranch(b)
    decreases b, 0
  {
    if b.BCons? {
      DepthAppend(ExpandItem(t, b.head, b.tail), ExpandBranch(t, b.tail));
      FreeItem(t, b.head, b.tail);
      FreeBranch(t, b.tail);
    }
  }

  /** And only patterns without lookarounds compile to code that makes none. */
  lemma {:induction false} FreeDepth(t: CharTables, al: PAlts)
    requires ValidPAlts(al) && DepthOf(t, al) == 0
    ensures LookFree(al)
    decreases al, 1
  {
    FreeBranch(t, al.branch);
    if al.PMore? {
      FreeDepth(t, al.rest);
    }
  }

  lemma FreeFirm(t: CharTables, al: PAlts)
    requires ValidPAlts(al) && LookFree(al)
    ensures Firm(t, al)
    decreases al, 1
  {
    FreeFirmBranch(t, al.branch);
    if al.PMore? {
      FreeFirm(t, al.rest);
    }
  }

  lemma FreeFirmBranch(t: CharTables, b: Branch)
    requires ValidBranch(b) && LookFreeBranch(b)
    ensures FirmBranch(t, b)
    decreases b, 0
  {
    if b.BCons? {
      match b.head {
        case PGroup(_, body) => FreeFirm(t, body);
        case PGroupRep(_, body, _) => FreeFirm(t, body);
        case _ =>
      }
      FreeFirmBranch(t, b.tail);
    }
  }
}
