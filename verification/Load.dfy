/** The room that a pattern needs, computed from its code tree: how many slots its places have, how
    many states they add, and that each assertion's run needs no more than its own body. */
module Load {
  import opened Bytecode
  import opened Tree
  import opened Subject
  import opened Graph
  import opened Layout
  import opened Correctness
  import opened Closure
  import opened Room

  function Branches(al: Alts): nat { 1 + if al.More? then Branches(al.rest) else 0 }

  /** Slots of the items of one run, after `b` characters; the bodies of assertions are other runs. */
  function OpSlots(op: Op, b: nat): nat {
    match op
    case Rep(a, form, n, m) => RepCounts(RepBounds(a, form, n, m), b)
    case Bra(_, _, body, _) => 2 + AltsSlots(body, b)
    case Zero(_, g) => 1 + OpSlots(g, b)
    case _ => 1
  }

  function OpsSlots(ops: Ops, b: nat): nat {
    match ops case Nil => 0 case Cons(op, rest) => OpSlots(op, b) + OpsSlots(rest, b)
  }

  function AltsSlots(al: Alts, b: nat): nat {
    OpsSlots(al.branch, b) + if al.More? then 1 + AltsSlots(al.rest, b) else 0
  }

  /** States that the expansion of all these slots adds at one position. */
  function OpAdds(op: Op, b: nat): nat {
    match op
    case One(_) => 0
    case Rep(a, form, n, m) => RepCounts(RepBounds(a, form, n, m), b)
    case Bra(_, _, body, ket) => Branches(body) + (if ket == OP_KET then 1 else 2) + AltsAdds(body, b)
    case Zero(_, g) => 2 + OpAdds(g, b)
    case _ => 1
  }

  function OpsAdds(ops: Ops, b: nat): nat {
    match ops case Nil => 0 case Cons(op, rest) => OpAdds(op, b) + OpsAdds(rest, b)
  }

  function AltsAdds(al: Alts, b: nat): nat {
    OpsAdds(al.branch, b) + if al.More? then 1 + AltsAdds(al.rest, b) else 0
  }

  /** The room for a run over these alternatives that begins with `n` states. */
  function RoomFrom(al: Alts, n: nat, b: nat): nat { n + 1 + AltsSlots(al, b) + AltsAdds(al, b) }

  /** The room for a run from their own starts. */
  function Demand(al: Alts, b: nat): nat { RoomFrom(al, Branches(al), b) }

  /** Every assertion's body, at any depth, has room in the workspace of its run. */
  predicate ModestOp(op: Op, b: nat) {
    match op
    case Bra(_, _, body, _) => Modest(body, b)
    case Zero(_, g) => ModestOp(g, b)
    case Look(_, body) => Demand(body, b) <= Capacity(LOOK_WORKSPACE) && Modest(body, b)
    case _ => true
  }

  predicate ModestOps(ops: Ops, b: nat) { ops.Cons? ==> ModestOp(ops.head, b) && ModestOps(ops.tail, b) }

  predicate Modest(al: Alts, b: nat) { ModestOps(al.branch, b) && (al.More? ==> Modest(al.rest, b)) }

  /** Without assertions there are no other runs. */
  lemma ShallowOps(ops: Ops, b: nat)
    requires OpsDepth(ops) == 0
    ensures ModestOps(ops, b)
    decreases ops, 0
  {
    if ops.Cons? {
      ShallowOp(ops.head, b);
      ShallowOps(ops.tail, b);
    }
  }

  lemma ShallowOp(op: Op, b: nat)
    requires OpDepth(op) == 0
    ensures ModestOp(op, b)
    decreases op, 0
  {
    match op
    case Bra(_, _, body, _) => ShallowModest(body, b);
    case Zero(_, g) => ShallowOp(g, b);
    case _ =>
  }

  lemma ShallowModest(al: Alts, b: nat)
    requires AltsDepth(al) == 0
    ensures Modest(al, b)
    decreases al, 1
  {
    ShallowOps(al.branch, b);
    if al.More? {
      ShallowModest(al.rest, b);
    }
  }

  // ----- slots and weights of sets of places -----

  /** The places have at most `n` slots in the run (`d`, `e`), and these add at most `w` states. */
  ghost predicate Bounded(code: seq<Byte>, s: set<Place>, d: nat, e: nat, b: nat, n: nat, w: nat) {
    |Slots(code, s, d, e, b)| <= n && Weight(code, e, Slots(code, s, d, e, b)) <= w
  }

  lemma BoundedUnion(code: seq<Byte>, s: set<Place>, t: set<Place>, d: nat, e: nat, b: nat, n: nat, w: nat, m: nat, v: nat)
    requires Bounded(code, s, d, e, b, n, w) && Bounded(code, t, d, e, b, m, v)
    ensures Bounded(code, s + t, d, e, b, n + m, w + v)
  {
    hide OutDegree, Counts;
    var x, y := Slots(code, s, d, e, b), Slots(code, t, d, e, b);
    assert Slots(code, s + t, d, e, b) == x + y;
    UnionBound(code, e, x, y);
  }

  lemma {:induction false} UnionBound(code: seq<Byte>, e: nat, x: set<Slot>, y: set<Slot>)
    ensures |x + y| <= |x| + |y| && Weight(code, e, x + y) <= Weight(code, e, x) + Weight(code, e, y)
    decreases |y|
  {
    hide OutDegree;
    if y == {} {
      assert x + y == x;
    } else {
      var k :| k in y;
      var z := y - {k};
      UnionBound(code, e, x, z);
      WeightAdd(code, e, z, k);
      assert z + {k} == y;
      if k in x + z {
        assert x + y == x + z;
      } else {
        assert x + y == (x + z) + {k};
        WeightAdd(code, e, x + z, k);
      }
    }
  }

  /** The slots of one place. */
  ghost function Row(a: nat, n: nat): set<Slot> { set c: nat | c < n :: Slot(a, c) }

  /** A single place: a slot for each count. */
  lemma OnePlace(code: seq<Byte>, a: nat, d: nat, e: nat, b: nat)
    ensures Bounded(code, {Place(a, d, e)}, d, e, b, Counts(code, a, b), Counts(code, a, b) * OutDegree(code, a))
  {
    hide OutDegree, Counts;
    RowSize(code, a, e, Counts(code, a, b));
    assert Slots(code, {Place(a, d, e)}, d, e, b) == Row(a, Counts(code, a, b));
  }

  lemma {:induction false} RowSize(code: seq<Byte>, a: nat, e: nat, n: nat)
    ensures |Row(a, n)| == n && Weight(code, e, Row(a, n)) <= n * OutDegree(code, a)
    decreases n
  {
    hide OutDegree, Weight;
    if n == 0 {
      assert Row(a, n) == {};
      WeightNone(code, e);
    } else {
      RowSize(code, a, e, n - 1);
      assert Row(a, n) == Row(a, n - 1) + {Slot(a, n - 1)};
      WeightAdd(code, e, Row(a, n - 1), Slot(a, n - 1));
      OneMore(n, OutDegree(code, a));
    }
  }

  lemma WeightNone(code: seq<Byte>, e: nat)
    ensures Weight(code, e, {}) == 0
  {
  }

  lemma OneMore(n: nat, k: nat)
    requires n > 0
    ensures n * k == (n - 1) * k + k
  {
  }

  /** Places of deeper runs have no slots in this one. */
  lemma NoSlots(code: seq<Byte>, s: set<Place>, d: nat, e: nat, b: nat)
    requires forall y | y in s :: y.depth != d || y.end != e
    ensures Slots(code, s, d, e, b) == {} && Bounded(code, s, d, e, b, 0, 0)
  {
  }

  // ----- where the places lie -----

  /** The places lie in [a, z); those of this run end at `e`, those of assertions inside end in [a, z). */
  ghost predicate Shaped(s: set<Place>, a: nat, z: nat, d: nat, e: nat) {
    forall y | y in s :: a <= y.off < z && ((y.depth == d && y.end == e) || (y.depth < d && a <= y.end < z))
  }

  lemma {:induction false} OpsShape(ops: Ops, a: nat, d: nat, e: nat)
    requires ValidOps(ops)
    ensures Shaped(OpsSet(ops, a, d, e), a, a + |EncOps(ops)|, d, e)
    decreases ops, 2
  {
    if ops.Cons? {
      OpShape(ops.head, a, d, e);
      OpsShape(ops.tail, a + |EncOp(ops.head)|, d, e);
    }
  }

  lemma Wider(s: set<Place>, a: nat, z: nat, d: nat, e: nat, a2: nat, z2: nat)
    requires Shaped(s, a, z, d, e) && a2 <= a && z <= z2
    ensures Shaped(s, a2, z2, d, e)
  {
  }

  lemma Deeper(s: set<Place>, a: nat, z: nat, d: nat, k: nat, e: nat)
    requires Shaped(s, a, z, d, k) && a <= k < z
    ensures Shaped(s, a, z, d + 1, e)
  {
  }

  lemma {:induction false} OpShape(op: Op, a: nat, d: nat, e: nat)
    requires ValidOp(op)
    ensures Shaped(OpSet(op, a, d, e), a, a + |EncOp(op)|, d, e)
    decreases op, 2
  {
    hide EncAlts, EncAtom, EncRep, EncOpen, EncBracket, EncBranch, EncOps, AltsSet, Shaped;
    var z := a + |EncOp(op)|;
    match op
    case Bra(o, cap, body, ket) =>
      var h := a + HeaderLen(o);
      var v := AltsSet(body, false, h, d, e);
      AltsShape(body, false, h, d, e);
      Wider(v, h, h + |EncAlts(body, false)|, d, e, a, z);
      ShapedWith(v, a, z, d, e, {Place(a, d, e), Place(h + |EncAlts(body, false)|, d, e)});
      assert OpSet(op, a, d, e) == v + {Place(a, d, e), Place(h + |EncAlts(body, false)|, d, e)};
    case Zero(_, g) =>
      OpShape(g, a + 1, d, e);
      Wider(OpSet(g, a + 1, d, e), a + 1, z, d, e, a, z);
      ShapedWith(OpSet(g, a + 1, d, e), a, z, d, e, {Place(a, d, e)});
      assert OpSet(op, a, d, e) == OpSet(g, a + 1, d, e) + {Place(a, d, e)};
    case Look(o, body) =>
      var v: set<Place> := {};
      ShapedNone(a, z, d, e);
      if d > 0 {
        var h := a + HeaderLen(o);
        var k := h + |EncAlts(body, IsBack(o))|;
        v := LookSet(o, body, a, d - 1);
        AltsShape(body, IsBack(o), h, d - 1, k);
        Wider(v, h, k, d - 1, k, a, z);
        Deeper(v, a, z, d - 1, k, e);
      }
      ShapedWith(v, a, z, d, e, {Place(a, d, e)});
      assert OpSet(op, a, d, e) == v + {Place(a, d, e)};
    case _ =>
      OpSome(op);
      ShapedNone(a, z, d, e);
      ShapedWith({}, a, z, d, e, {Place(a, d, e)});
      assert OpSet(op, a, d, e) == {} + {Place(a, d, e)};
  }

  lemma OpSome(op: Op)
    requires ValidOp(op)
    ensures |EncOp(op)| > 0
  {
    FirstUnit(op);
  }

  lemma BranchSize(b: Ops, back: bool)
    requires ValidOps(b) && (back ==> OpsLength(b) >= 0)
    ensures |EncBranch(b, back)| == (if back then 1 + LINK_SIZE else 0) + |EncOps(b)|
  {
    hide EncOps;
  }

  lemma ShapedNone(a: nat, z: nat, d: nat, e: nat)
    ensures Shaped({}, a, z, d, e)
  {
  }

  lemma ShapedWith(s: set<Place>, a: nat, z: nat, d: nat, e: nat, t: set<Place>)
    requires Shaped(s, a, z, d, e) && forall y | y in t :: y.depth == d && y.end == e && a <= y.off < z
    ensures Shaped(s + t, a, z, d, e)
  {
  }

  lemma ShapedJoin(s: set<Place>, t: set<Place>, a: nat, m: nat, m2: nat, z: nat, d: nat, e: nat)
    requires Shaped(s, a, m, d, e) && Shaped(t, m2, z, d, e) && a <= m <= m2 <= z
    ensures Shaped(s + t, a, z, d, e)
  {
  }

  lemma {:induction false} AltsShape(al: Alts, back: bool, h: nat, d: nat, e: nat)
    requires ValidAlts(al) && (back ==> FixedAlts(al))
    ensures Shaped(AltsSet(al, back, h, d, e), h, h + |EncAlts(al, back)|, d, e)
    decreases al, 1
  {
    hide EncAlts, EncBranch, EncOp, EncOps, OpsSet, Shaped, ValidOps, OpsLength;
    BranchSize(al.branch, back);
    var f, a := h + |EncBranch(al.branch, back)|, if back then h + 1 + LINK_SIZE else h;
    var u := OpsSet(al.branch, a, d, e);
    OpsShape(al.branch, a, d, e);
    Wider(u, a, f, d, e, h, f);
    if al.Last? {
      LastAlts(al, back);
      assert AltsSet(al, back, h, d, e) == u;
    } else {
      AltsUnits(al, back);
      var z := h + |EncAlts(al, back)|;
      AltsShape(al.rest, back, f + 1 + LINK_SIZE, d, e);
      var v := AltsSet(al.rest, back, f + 1 + LINK_SIZE, d, e);
      ShapedJoin(u, v, h, f, f + 1 + LINK_SIZE, z, d, e);
      ShapedWith(u + v, h, z, d, e, {Place(f, d, e)});
      assert AltsSet(al, back, h, d, e) == u + v + {Place(f, d, e)};
    }
  }

  // ----- the slots of one run -----

  lemma {:induction false} OpsLoad(code: seq<Byte>, ops: Ops, a: nat, d: nat, e: nat, b: nat)
    requires ValidOps(ops) && Placed(code, a, EncOps(ops)) && OpsDepth(ops) <= d
    ensures Bounded(code, OpsSet(ops, a, d, e), d, e, b, OpsSlots(ops, b), OpsAdds(ops, b))
    decreases ops, 2
  {
    hide Bounded, OpSet, OpSlots, OpAdds;
    match ops
    case Nil => NoSlots(code, {}, d, e, b);
    case Cons(op, rest) =>
      PlacedOps(code, a, op, rest);
      var f := a + |EncOp(op)|;
      OpLoad(code, op, a, d, e, b);
      OpsLoad(code, rest, f, d, e, b);
      BoundedUnion(code, OpSet(op, a, d, e), OpsSet(rest, f, d, e), d, e, b, OpSlots(op, b), OpAdds(op, b), OpsSlots(rest, b), OpsAdds(rest, b));
  }

  /** One more place, which has one slot and adds at most `w` states. */
  lemma OneMorePlace(code: seq<Byte>, a: nat, s: set<Place>, d: nat, e: nat, b: nat, n: nat, w: nat)
    requires Bounded(code, s, d, e, b, n, w) && Counts(code, a, b) == 1
    ensures Bounded(code, {Place(a, d, e)} + s, d, e, b, 1 + n, OutDegree(code, a) + w)
  {
    hide Bounded, Counts, OutDegree;
    OnePlace(code, a, d, e, b);
    BoundedUnion(code, {Place(a, d, e)}, s, d, e, b, 1, OutDegree(code, a), n, w);
  }

  lemma {:induction false} OpLoad(code: seq<Byte>, op: Op, a: nat, d: nat, e: nat, b: nat)
    requires ValidOp(op) && Placed(code, a, EncOp(op)) && OpDepth(op) <= d
    ensures Bounded(code, OpSet(op, a, d, e), d, e, b, OpSlots(op, b), OpAdds(op, b))
    decreases op, 2
  {
    hide Bounded, Decode, EncOp, OutDegree, Counts, AltsSet, AltsSlots, AltsAdds;
    match op
    case Bra(_, _, _, _) => BraLoad(code, op, a, d, e, b);
    case Zero(_, g) =>
      var h, k := ZeroPlaced(code, a, op, g);
      ZeroDegree(code, a);
      OpLoad(code, g, a + 1, d, e, b);
      OneMorePlace(code, a, OpSet(g, a + 1, d, e), d, e, b, OpSlots(g, b), OpAdds(g, b));
      assert OpSet(op, a, d, e) == {Place(a, d, e)} + OpSet(g, a + 1, d, e);
    case Look(o, body) => LookLoad(code, op, a, d, e, b);
    case _ => SingleLoad(code, op, a, d, e, b);
  }

  lemma ZeroDegree(code: seq<Byte>, a: nat)
    requires Decode(code, a).IZero?
    ensures Counts(code, a, 0) == 1 && OutDegree(code, a) == 2 && forall b: nat :: Counts(code, a, b) == 1
  {
    hide Decode;
  }

  lemma SingleLoad(code: seq<Byte>, op: Op, a: nat, d: nat, e: nat, b: nat)
    requires ValidOp(op) && Placed(code, a, EncOp(op)) && (op.Test? || op.One? || op.Rep? || op.Skip?)
    ensures Bounded(code, OpSet(op, a, d, e), d, e, b, OpSlots(op, b), OpAdds(op, b))
  {
    hide Decode, Entries, ToKet, EncAtom, EncRep, Slots, Weight;
    OnePlace(code, a, d, e, b);
    assert OpSet(op, a, d, e) == {Place(a, d, e)};
    match op
    case Test(o) => DecodeTest(code, a, o);
    case One(atom) => DecodeOne(code, a, atom);
    case Rep(atom, form, n, m) => DecodeRepeat(code, a, atom, form, n, m);
    case Skip(g) => var h, k := ZeroPlaced(code, a, op, g);
  }

  lemma LookLoad(code: seq<Byte>, op: Op, a: nat, d: nat, e: nat, b: nat)
    requires ValidOp(op) && op.Look? && Placed(code, a, EncOp(op)) && OpDepth(op) <= d
    ensures Bounded(code, OpSet(op, a, d, e), d, e, b, OpSlots(op, b), OpAdds(op, b))
  {
    hide Bounded, Decode, Entries, ToKet, EncOp, EncAlts, AltsSet, OpSet, Bracketed, Slots, Weight;
    var h, k, u := LookParts(code, op, a, d, e);
    AltsShape(op.body, IsBack(op.op), h, d - 1, k);
    NoSlots(code, u, d, e, b);
    LookDegree(code, a, b);
    OneMorePlace(code, a, u, d, e, b, 0, 0);
  }

  lemma LookDegree(code: seq<Byte>, a: nat, b: nat)
    requires Decode(code, a).ILook?
    ensures Counts(code, a, b) == OutDegree(code, a) == 1
  {
    hide Decode;
  }

  lemma {:induction false} BraLoad(code: seq<Byte>, op: Op, a: nat, d: nat, e: nat, b: nat)
    requires ValidOp(op) && op.Bra? && Placed(code, a, EncOp(op)) && OpDepth(op) <= d
    ensures Bounded(code, OpSet(op, a, d, e), d, e, b, OpSlots(op, b), OpAdds(op, b))
    decreases op, 1
  {
    hide Bounded, Decode, Entries, ToKet, EncAlts, EncOpen, EncBranch, AltsSet, AltsSlots, AltsAdds, Offsets;
    var h, k := Bracket(code, a, op.op, op.cap, op.body, op.ket, false);
    AltsLoad(code, a, op.body, false, h, d, e, b);
    var u := AltsSet(op.body, false, h, d, e);
    OffsetsCount(op.body, false, h);
    OneMorePlace(code, k, u, d, e, b, AltsSlots(op.body, b), AltsAdds(op.body, b));
    OneMorePlace(code, a, {Place(k, d, e)} + u, d, e, b, 1 + AltsSlots(op.body, b), OutDegree(code, k) + AltsAdds(op.body, b));
    assert OpSet(op, a, d, e) == {Place(a, d, e)} + ({Place(k, d, e)} + u);
  }

  lemma {:induction false} OffsetsCount(al: Alts, back: bool, h: nat)
    requires ValidAlts(al) && (back ==> FixedAlts(al))
    ensures |Offsets(al, back, h)| == Branches(al)
    decreases al
  {
    hide EncBranch, EncAlts;
    if al.More? {
      OffsetsCount(al.rest, back, h + |EncBranch(al.branch, back)| + 1 + LINK_SIZE);
    }
  }

  lemma {:induction false} AltsLoad(code: seq<Byte>, o: nat, al: Alts, back: bool, h: nat, d: nat, e: nat, b: nat)
    requires ValidAlts(al) && (back ==> FixedAlts(al)) && Heading(code, o, al, back, h) && AltsDepth(al) <= d
    ensures Bounded(code, AltsSet(al, back, h, d, e), d, e, b, AltsSlots(al, b), AltsAdds(al, b))
    decreases al, 1
  {
    hide Bounded, Decode, EncBranch, EncAlts, OpsSet, OpsSlots, OpsAdds;
    var f := h + |EncBranch(al.branch, back)|;
    var a := if back then h + 1 + LINK_SIZE else h;
    BranchPlaced(code, o, al, back, h);
    BranchStart(code, al, back, h);
    OpsLoad(code, al.branch, a, d, e, b);
    var u := OpsSet(al.branch, a, d, e);
    if al.Last? {
      assert AltsSet(al, back, h, d, e) == u;
    } else {
      NextHeading(code, o, al, back, h);
      AltsLoad(code, f, al.rest, back, f + 1 + LINK_SIZE, d, e, b);
      var v := AltsSet(al.rest, back, f + 1 + LINK_SIZE, d, e);
      OneMorePlace(code, f, v, d, e, b, AltsSlots(al.rest, b), AltsAdds(al.rest, b));
      BoundedUnion(code, u, {Place(f, d, e)} + v, d, e, b, OpsSlots(al.branch, b), OpsAdds(al.branch, b),
                   1 + AltsSlots(al.rest, b), 1 + AltsAdds(al.rest, b));
      assert AltsSet(al, back, h, d, e) == u + ({Place(f, d, e)} + v);
    }
  }

  // ----- the runs of assertions -----

  /** The assertions among the places lie, with their bodies, in [a, z). */
  ghost predicate KetsInside(code: seq<Byte>, s: set<Place>, a: nat, z: nat) {
    forall y | y in s && Decode(code, y.off).ILook? :: a <= ToKet(code, y.off) < z
  }

  ghost predicate Quietly(code: seq<Byte>, s: set<Place>, a: nat, z: nat, b: nat) {
    KetsInside(code, s, a, z) && Roomy(code, s, b)
  }

  /** Places of other code or other runs do not count for an assertion's run. */
  lemma Apart(code: seq<Byte>, s: set<Place>, t: set<Place>, x: Place, b: nat)
    requires x.depth > 0 && forall y | y in t :: y.depth != x.depth - 1 || y.end != ToKet(code, x.off)
    ensures LookRoom(code, s + t, x, b) == LookRoom(code, s, x, b) == LookRoom(code, t + s, x, b)
  {
    hide ToKet, Entries, Decode;
    var k := ToKet(code, x.off);
    assert Slots(code, s + t, x.depth - 1, k, b) == Slots(code, s, x.depth - 1, k, b);
    assert t + s == s + t;
  }

  lemma QuietUnion(code: seq<Byte>, s: set<Place>, t: set<Place>, a: nat, m: nat, m2: nat, z: nat, d: nat, e: nat, b: nat)
    requires Shaped(s, a, m, d, e) && Shaped(t, m2, z, d, e) && a <= m <= m2 <= z
    requires Quietly(code, s, a, m, b) && Quietly(code, t, m2, z, b)
    ensures Quietly(code, s + t, a, z, b)
  {
    hide ToKet, Decode, LookRoom;
    forall x | x in s + t && Decode(code, x.off).ILook? && x.depth > 0
      ensures LookRoom(code, s + t, x, b) <= Capacity(LOOK_WORKSPACE)
    {
      if x in s {
        Apart(code, s, t, x, b);
      } else {
        Apart(code, t, s, x, b);
      }
    }
  }

  /** More places of the run itself, without assertions. */
  lemma QuietPlus(code: seq<Byte>, n: set<Place>, s: set<Place>, a: nat, m: nat, m2: nat, z: nat, d: nat, e: nat, b: nat)
    requires Shaped(s, m, m2, d, e) && Quietly(code, s, m, m2, b) && a <= m && m2 <= z
    requires forall y | y in n :: y.depth == d && !Decode(code, y.off).ILook?
    ensures Quietly(code, n + s, a, z, b)
  {
    hide ToKet, Decode, LookRoom;
    forall x | x in n + s && Decode(code, x.off).ILook? && x.depth > 0
      ensures LookRoom(code, n + s, x, b) <= Capacity(LOOK_WORKSPACE)
    {
      Apart(code, s, n, x, b);
    }
  }

  lemma QuietNone(code: seq<Byte>, a: nat, z: nat, b: nat)
    ensures Quietly(code, {}, a, z, b)
  {
  }

  lemma {:induction false} OpsQuiet(code: seq<Byte>, ops: Ops, a: nat, d: nat, e: nat, b: nat)
    requires ValidOps(ops) && Placed(code, a, EncOps(ops)) && OpsDepth(ops) <= d && ModestOps(ops, b)
    ensures Quietly(code, OpsSet(ops, a, d, e), a, a + |EncOps(ops)|, b)
    decreases ops, 2
  {
    hide Quietly, OpSet, Shaped, EncOp;
    match ops
    case Nil => QuietNone(code, a, a, b);
    case Cons(op, rest) =>
      PlacedOps(code, a, op, rest);
      var f := a + |EncOp(op)|;
      OpQuiet(code, op, a, d, e, b);
      OpsQuiet(code, rest, f, d, e, b);
      OpShape(op, a, d, e);
      OpsShape(rest, f, d, e);
      QuietUnion(code, OpSet(op, a, d, e), OpsSet(rest, f, d, e), a, f, f, f + |EncOps(rest)|, d, e, b);
  }

  lemma {:induction false} OpQuiet(code: seq<Byte>, op: Op, a: nat, d: nat, e: nat, b: nat)
    requires ValidOp(op) && Placed(code, a, EncOp(op)) && OpDepth(op) <= d && ModestOp(op, b)
    ensures Quietly(code, OpSet(op, a, d, e), a, a + |EncOp(op)|, b)
    decreases op, 2
  {
    hide Quietly, Decode, Shaped, Entries, ToKet, EncAtom, EncRep, EncBracket, EncOpen, EncAlts, EncBranch, AltsSet;
    var z := a + |EncOp(op)|;
    match op
    case Bra(o, cap, body, ket) =>
      var h, k := Bracket(code, a, o, cap, body, ket, false);
      AltsQuiet(code, a, body, false, h, d, e, b);
      AltsShape(body, false, h, d, e);
      var u := AltsSet(body, false, h, d, e);
      QuietPlus(code, {Place(a, d, e), Place(k, d, e)}, u, a, h, k, z, d, e, b);
      assert OpSet(op, a, d, e) == {Place(a, d, e), Place(k, d, e)} + u;
    case Zero(_, g) =>
      var h, k := ZeroPlaced(code, a, op, g);
      OpQuiet(code, g, a + 1, d, e, b);
      OpShape(g, a + 1, d, e);
      QuietPlus(code, {Place(a, d, e)}, OpSet(g, a + 1, d, e), a, a + 1, z, z, d, e, b);
      assert OpSet(op, a, d, e) == {Place(a, d, e)} + OpSet(g, a + 1, d, e);
    case Look(o, body) => LookQuietly(code, op, a, d, e, b);
    case _ =>
      SingleDecode(code, op, a);
      QuietNone(code, a, a, b);
      ShapedNone(a, a, d, e);
      QuietPlus(code, {Place(a, d, e)}, {}, a, a, a, z, d, e, b);
      assert OpSet(op, a, d, e) == {Place(a, d, e)} + {};
  }

  lemma SingleDecode(code: seq<Byte>, op: Op, a: nat)
    requires ValidOp(op) && Placed(code, a, EncOp(op)) && (op.Test? || op.One? || op.Rep? || op.Skip?)
    ensures !Decode(code, a).ILook?
  {
    hide Decode, Entries, ToKet, EncAtom, EncRep;
    match op
    case Test(o) => DecodeTest(code, a, o);
    case One(atom) => DecodeOne(code, a, atom);
    case Rep(atom, form, n, m) => DecodeRepeat(code, a, atom, form, n, m);
    case Skip(g) => var h, k := ZeroPlaced(code, a, op, g);
  }

  /** An assertion's run needs room for its own body only. */
  lemma {:induction false} LookQuietly(code: seq<Byte>, op: Op, a: nat, d: nat, e: nat, b: nat)
    requires ValidOp(op) && op.Look? && Placed(code, a, EncOp(op)) && OpDepth(op) <= d && ModestOp(op, b)
    ensures Quietly(code, OpSet(op, a, d, e), a, a + |EncOp(op)|, b)
    decreases op, 1
  {
    hide Decode, Shaped, Entries, ToKet, EncOp, EncAlts, AltsSet, OpSet, LookRoom, Bounded, Bracketed;
    var h, k, u := LookParts(code, op, a, d, e);
    var back, n := IsBack(op.op), {Place(a, d, e)};
    LookHeading(code, a, op.body, back, h, k);
    AltsQuiet(code, a, op.body, back, h, d - 1, k, b);
    AltsShape(op.body, back, h, d - 1, k);
    AltsLoad(code, a, op.body, back, h, d - 1, k, b);
    BodyRoom(code, op.body, back, a, h, d, e, k, b, u);
    forall x: Place | x in n + u && Decode(code, x.off).ILook? && x.depth > 0
      ensures LookRoom(code, n + u, x, b) <= Capacity(LOOK_WORKSPACE)
    {
      DepthIn(u, h, k, d - 1, k, x);
      if x in u {
        Apart(code, u, n, x, b);
      } else {
        assert x == Place(a, d, e);
        Apart(code, u, n, x, b);
      }
    }
  }

  lemma DepthIn(s: set<Place>, a: nat, z: nat, d: nat, e: nat, x: Place)
    requires Shaped(s, a, z, d, e)
    ensures x in s ==> x.depth <= d
  {
  }

  lemma BodyRoom(code: seq<Byte>, body: Alts, back: bool, a: nat, h: nat, d: nat, e: nat, k: nat, b: nat, u: set<Place>)
    requires ValidAlts(body) && (back ==> FixedAlts(body)) && d > 0 && Bracketed(code, a, body, OP_KET, back, h, k)
    requires Bounded(code, u, d - 1, k, b, AltsSlots(body, b), AltsAdds(body, b))
    ensures LookRoom(code, u, Place(a, d, e), b) <= Demand(body, b)
  {
    hide Decode, Entries, ToKet, EncAlts, EncBranch, Slots, Weight, AltsSlots, AltsAdds, Branches, Offsets;
    OffsetsCount(body, back, h);
  }

  lemma {:induction false} AltsQuiet(code: seq<Byte>, o: nat, al: Alts, back: bool, h: nat, d: nat, e: nat, b: nat)
    requires ValidAlts(al) && (back ==> FixedAlts(al)) && Heading(code, o, al, back, h) && AltsDepth(al) <= d && Modest(al, b)
    ensures Quietly(code, AltsSet(al, back, h, d, e), h, h + |EncAlts(al, back)|, b)
    decreases al, 1
  {
    hide Quietly, Decode, EncBranch, EncAlts, EncOps, OpsSet, Shaped;
    var f, a := h + |EncBranch(al.branch, back)|, if back then h + 1 + LINK_SIZE else h;
    BranchPlaced(code, o, al, back, h);
    BranchStart(code, al, back, h);
    OpsQuiet(code, al.branch, a, d, e, b);
    OpsShape(al.branch, a, d, e);
    var u := OpsSet(al.branch, a, d, e);
    QuietPlus(code, {}, u, h, a, f, f, d, e, b);
    if al.Last? {
      LastAlts(al, back);
      assert AltsSet(al, back, h, d, e) == {} + u;
    } else {
      NextHeading(code, o, al, back, h);
      AltsUnits(al, back);
      var g, z := f + 1 + LINK_SIZE, h + |EncAlts(al, back)|;
      AltsQuiet(code, f, al.rest, back, g, d, e, b);
      AltsShape(al.rest, back, g, d, e);
      var v := AltsSet(al.rest, back, g, d, e);
      QuietUnion(code, u, v, a, f, g, z, d, e, b);
      ShapedJoin(u, v, a, f, g, z, d, e);
      AltDecode(code, f);
      QuietPlus(code, {Place(f, d, e)}, u + v, h, a, z, z, d, e, b);
      assert AltsSet(al, back, h, d, e) == {Place(f, d, e)} + (u + v);
    }
  }

  lemma AltDecode(code: seq<Byte>, f: nat)
    requires Decode(code, f).IAlt?
    ensures !Decode(code, f).ILook?
  {
  }
}
