/** Which states a run over encoded code can be in: a finite set of offsets, closed under
    the matcher's steps, at each of which an opcode the matcher supports can be read. */
module Closure {
  import opened Bytecode
  import opened Tree
  import opened Subject
  import opened Graph
  import opened Layout
  import opened Correctness

  /** An offset, in a run that ends at the ket `end` and may enter `depth` more levels of assertion. */
  datatype Place = Place(off: nat, depth: nat, end: nat)

  /** Stepping from place `x` to offset `t` stays in `s`, ends the run, or leaves by `exit`. */
  ghost predicate To(s: set<Place>, exit: Place, x: Place, t: nat) {
    x.(off := t) in s || t == x.end || x.(off := t) == exit
  }

  /** Every step from `x` is accounted for; a `plain` place tests no position that a cut could move and does not look around. */
  ghost predicate Known(code: seq<Byte>, s: set<Place>, exit: Place, x: Place, plain: bool) {
    match Decode(code, x.off)
    case Bad => false
    case ITest(op, next) => (plain ==> MovableTest(op)) && To(s, exit, x, next)
    case IOne(_, next) => To(s, exit, x, next)
    case IRep(_, _, _, _, next) => To(s, exit, x, next)
    case IAlt(ket) => To(s, exit, x, ket)
    case IKet(next, loop, back) => To(s, exit, x, next) && (loop ==> To(s, exit, x, back))
    case IBra => forall t | t in Entries(code, x.off) :: To(s, exit, x, t)
    case IZero(entry, next) => To(s, exit, x, entry) && To(s, exit, x, next)
    case ISkip(next) => To(s, exit, x, next)
    case ILook(_, next) =>
      && !plain && To(s, exit, x, next) && x.depth > 0 && Decode(code, ToKet(code, x.off)).IKet?
      && forall p: nat, t | t in Starts(code, x.off, p) ::
           To(s, exit, Place(x.off, x.depth - 1, ToKet(code, x.off)), t.off)
  }

  /** What is known of the place of an assertion. */
  lemma KnownLook(code: seq<Byte>, s: set<Place>, x: Place, plain: bool, op: Byte, next: nat)
    requires Sealed(code, s, plain) && x in s && Decode(code, x.off) == ILook(op, next)
    ensures !plain && x.depth > 0 && Decode(code, ToKet(code, x.off)).IKet?
    ensures x.(off := next) in s || next == x.end
    ensures forall p: nat, t | t in Starts(code, x.off, p) ::
              var y := Place(x.off, x.depth - 1, ToKet(code, x.off)); y.(off := t.off) in s || t.off == y.end
  {
    hide Decode, Entries, ToKet, Starts;
    assert Known(code, s, Place(x.end, x.depth, x.end), x, plain);
  }

  ghost predicate Closed(code: seq<Byte>, s: set<Place>, exit: Place, plain: bool) {
    forall x | x in s :: Known(code, s, exit, x, plain)
  }

  /** Every step from every place is accounted for inside the set. */
  ghost predicate Sealed(code: seq<Byte>, s: set<Place>, plain: bool) {
    forall x | x in s :: Known(code, s, Place(x.end, x.depth, x.end), x, plain)
  }

  lemma Seal(code: seq<Byte>, s: set<Place>, exit: Place, plain: bool)
    requires Closed(code, s, exit, plain) && exit.off == exit.end
    ensures Sealed(code, s, plain)
  {
    hide Decode, Entries, ToKet, Starts;
    forall x | x in s
      ensures Known(code, s, Place(x.end, x.depth, x.end), x, plain)
    {
      assert Known(code, s, exit, x, plain);
    }
  }

  /** What is known in one set stays known in a larger one that has the old exit. */
  lemma Widen(code: seq<Byte>, s: set<Place>, b: Place, r: set<Place>, c: Place, x: Place, plain: bool)
    requires Known(code, s, b, x, plain) && s <= r && (b in r || b == c || b.off == b.end)
    ensures Known(code, r, c, x, plain)
  {
    hide Decode, Entries, ToKet, Starts;
  }

  lemma Union(code: seq<Byte>, s: set<Place>, b: Place, t: set<Place>, c: Place, plain: bool)
    requires Closed(code, s, b, plain) && Closed(code, t, c, plain) && (b in t || b == c || b.off == b.end)
    ensures Closed(code, s + t, c, plain)
  {
    hide Known;
    forall x | x in s + t
      ensures Known(code, s + t, c, x, plain)
    {
      if x in s {
        Widen(code, s, b, s + t, c, x, plain);
      } else {
        Widen(code, t, c, s + t, c, x, plain);
      }
    }
  }

  // ----- items that do not care where the subject was cut -----

  /** The test of the very end: the only one whose outcome is the same when the subject comes in
      pieces (see `Restart.TestExactly`). */
  predicate MovableTest(o: Byte) { o == OP_EOD }

  predicate MovableOp(op: Op) {
    match op
    case Test(o) => MovableTest(o)
    case Look(_, _) => false
    case Bra(_, _, body, _) => MovableAlts(body)
    case Zero(_, g) => MovableOp(g)
    case Skip(g) => MovableOp(g)
    case _ => true
  }

  predicate MovableOps(ops: Ops) { ops.Cons? ==> MovableOp(ops.head) && MovableOps(ops.tail) }

  predicate MovableAlts(al: Alts) { MovableOps(al.branch) && (al.More? ==> MovableAlts(al.rest)) }

  // ----- the places of encoded items -----

  /** The places of a sequence of items whose code begins at `a`, in a run that may enter `d` more
      levels of assertion and ends at `e`. */
  ghost function OpsSet(ops: Ops, a: nat, d: nat, e: nat): set<Place>
    requires ValidOps(ops)
    decreases ops, 2
  {
    match ops
    case Nil => {}
    case Cons(op, rest) => OpSet(op, a, d, e) + OpsSet(rest, a + |EncOp(op)|, d, e)
  }

  ghost function OpSet(op: Op, a: nat, d: nat, e: nat): set<Place>
    requires ValidOp(op)
    decreases op, 2
  {
    {Place(a, d, e)} +
    match op
    case Bra(o, cap, body, _) =>
      {Place(a + |EncOpen(o, cap, body, false)|, d, e)} + AltsSet(body, false, a + HeaderLen(o), d, e)
    case Zero(_, g) => OpSet(g, a + 1, d, e)
    case Look(o, body) => if d == 0 then {} else LookSet(o, body, a, d - 1)
    case _ => {}
  }

  /** The places of an assertion's body: its run ends at the assertion's own ket. */
  ghost function LookSet(o: Byte, body: Alts, a: nat, d: nat): set<Place>
    requires IsLook(o) && ValidAlts(body) && (IsBack(o) ==> FixedAlts(body))
    decreases body, 2
  {
    var h := a + HeaderLen(o);
    AltsSet(body, IsBack(o), h, d, h + |EncAlts(body, IsBack(o))|)
  }

  /** The places of all branches, the first of which begins at `h`. */
  ghost function AltsSet(al: Alts, back: bool, h: nat, d: nat, e: nat): set<Place>
    requires ValidAlts(al) && (back ==> FixedAlts(al))
    decreases al, 1
  {
    var f := h + |EncBranch(al.branch, back)|;
    OpsSet(al.branch, if back then h + 1 + LINK_SIZE else h, d, e)
    + if al.Last? then {} else {Place(f, d, e)} + AltsSet(al.rest, back, f + 1 + LINK_SIZE, d, e)
  }

  /** Every step from the places of a sequence leads to one of them, or just behind it. */
  lemma {:induction false} OpsPlaces(code: seq<Byte>, ops: Ops, a: nat, x: Place, plain: bool)
    requires ValidOps(ops) && Placed(code, a, EncOps(ops)) && OpsDepth(ops) <= x.depth
    requires x.off == a + |EncOps(ops)| && (plain ==> MovableOps(ops))
    ensures Closed(code, OpsSet(ops, a, x.depth, x.end), x, plain)
    ensures x.(off := a) in OpsSet(ops, a, x.depth, x.end) || a == x.off
    decreases ops, 2
  {
    hide Known, OpSet;
    match ops
    case Nil =>
    case Cons(op, rest) =>
      PlacedOps(code, a, op, rest);
      var b := a + |EncOp(op)|;
      OpPlaces(code, op, a, x.(off := b), plain);
      OpsPlaces(code, rest, b, x, plain);
      Union(code, OpSet(op, a, x.depth, x.end), x.(off := b), OpsSet(rest, b, x.depth, x.end), x, plain);
  }

  lemma {:induction false} OpPlaces(code: seq<Byte>, op: Op, a: nat, x: Place, plain: bool)
    requires ValidOp(op) && Placed(code, a, EncOp(op)) && OpDepth(op) <= x.depth
    requires x.off == a + |EncOp(op)| && (plain ==> MovableOp(op))
    ensures Closed(code, OpSet(op, a, x.depth, x.end), x, plain) && x.(off := a) in OpSet(op, a, x.depth, x.end)
    decreases op, 2
  {
    hide Decode, Entries, ToKet, Starts, EncOp, AltsSet, Known, Closed;
    match op
    case Bra(_, _, _, _) => BraPlaces(code, op, a, x, plain);
    case Zero(_, g) =>
      var h, k := ZeroPlaced(code, a, op, g);
      OpPlaces(code, g, a + 1, x, plain);
      var u := OpSet(g, a + 1, x.depth, x.end);
      ZeroKnown(code, a, u, x, plain);
      Add(code, {x.(off := a)}, u, x, a, plain);
      assert OpSet(op, a, x.depth, x.end) == {x.(off := a)} + u;
    case Look(o, body) => LookPlaces(code, op, a, x);
    case _ => SinglePlaces(code, op, a, x, plain);
  }

  lemma ZeroKnown(code: seq<Byte>, a: nat, u: set<Place>, x: Place, plain: bool)
    requires Decode(code, a) == IZero(a + 1, x.off) && x.(off := a + 1) in u
    ensures Known(code, {x.(off := a)} + u, x, x.(off := a), plain)
  {
    hide Decode;
  }

  lemma SinglePlaces(code: seq<Byte>, op: Op, a: nat, x: Place, plain: bool)
    requires ValidOp(op) && Placed(code, a, EncOp(op)) && (op.Test? || op.One? || op.Rep? || op.Skip?)
    requires x.off == a + |EncOp(op)| && (plain ==> MovableOp(op))
    ensures Closed(code, OpSet(op, a, x.depth, x.end), x, plain) && x.(off := a) in OpSet(op, a, x.depth, x.end)
  {
    hide Decode, Entries, ToKet, Starts, EncAtom, EncRep, EncAlts, EncOpen, EncBranch;
    assert OpSet(op, a, x.depth, x.end) == {x.(off := a)};
    match op
    case Test(o) => DecodeTest(code, a, o);
    case One(atom) => DecodeOne(code, a, atom);
    case Rep(atom, form, n, m) => DecodeRepeat(code, a, atom, form, n, m);
    case Skip(g) => var h, k := ZeroPlaced(code, a, op, g);
  }

  /** One more place, all of whose steps stay in the set or leave by the exit. */
  lemma Add(code: seq<Byte>, n: set<Place>, u: set<Place>, x: Place, a: nat, plain: bool)
    requires n == {x.(off := a)} && Closed(code, u, x, plain) && Known(code, n + u, x, x.(off := a), plain)
    ensures Closed(code, n + u, x, plain)
  {
    hide Known;
    forall y | y in n + u
      ensures Known(code, n + u, x, y, plain)
    {
      if y in u {
        Widen(code, u, x, n + u, x, y, plain);
      }
    }
  }

  lemma {:induction false} BraPlaces(code: seq<Byte>, op: Op, a: nat, x: Place, plain: bool)
    requires ValidOp(op) && op.Bra? && Placed(code, a, EncOp(op)) && OpDepth(op) <= x.depth
    requires x.off == a + |EncOp(op)| && (plain ==> MovableOp(op))
    ensures Closed(code, OpSet(op, a, x.depth, x.end), x, plain) && x.(off := a) in OpSet(op, a, x.depth, x.end)
    decreases op, 1
  {
    hide Decode, Entries, ToKet, Starts, EncAlts, EncBranch, EncOpen, Offsets, AltsSet;
    var h, k := Bracket(code, a, op.op, op.cap, op.body, op.ket, false);
    AltsPlaces(code, a, op.body, false, h, x.(off := k), plain);
    var u, s := AltsSet(op.body, false, h, x.depth, x.end), OpSet(op, a, x.depth, x.end);
    assert k == a + |EncOpen(op.op, op.cap, op.body, false)| && s == {x.(off := a)} + ({x.(off := k)} + u);
    forall y | y in s
      ensures Known(code, s, x, y, plain)
    {
      if y in u {
        Widen(code, u, x.(off := k), s, x, y, plain);
      }
    }
  }

  /** The places of all branches; they leave by the ket, and each branch's start is one of them. */
  lemma {:induction false} AltsPlaces(code: seq<Byte>, o: nat, al: Alts, back: bool, h: nat, x: Place, plain: bool)
    requires ValidAlts(al) && (back ==> FixedAlts(al)) && Heading(code, o, al, back, h) && AltsDepth(al) <= x.depth
    requires x.off == h + |EncAlts(al, back)| && (plain ==> MovableAlts(al))
    ensures Closed(code, AltsSet(al, back, h, x.depth, x.end), x, plain)
    ensures forall e | e in Offsets(al, back, h) ::
              var t := if back then e + 1 + LINK_SIZE else e; x.(off := t) in AltsSet(al, back, h, x.depth, x.end) || t == x.off
    decreases al, 1
  {
    hide Known, Decode, EncBranch, EncAlts, OpsSet, Entries, ToKet, Heading;
    var f := h + |EncBranch(al.branch, back)|;
    var a := if back then h + 1 + LINK_SIZE else h;
    BranchPlaced(code, o, al, back, h);
    BranchStart(code, al, back, h);
    OpsPlaces(code, al.branch, a, x.(off := f), plain);
    var u, s := OpsSet(al.branch, a, x.depth, x.end), AltsSet(al, back, h, x.depth, x.end);
    if al.Last? {
      assert s == u;
    } else {
      NextHeading(code, o, al, back, h);
      AltsPlaces(code, f, al.rest, back, f + 1 + LINK_SIZE, x, plain);
      var v := AltsSet(al.rest, back, f + 1 + LINK_SIZE, x.depth, x.end);
      AltKnown(code, f, v, x, plain);
      Add(code, {x.(off := f)}, v, x, f, plain);
      Union(code, u, x.(off := f), {x.(off := f)} + v, x, plain);
      assert s == u + ({x.(off := f)} + v);
    }
  }

  lemma AltKnown(code: seq<Byte>, f: nat, v: set<Place>, x: Place, plain: bool)
    requires Decode(code, f) == IAlt(x.off)
    ensures Known(code, {x.(off := f)} + v, x, x.(off := f), plain)
  {
  }

  /** The body of an assertion, and the places of its run. */
  lemma LookParts(code: seq<Byte>, op: Op, a: nat, d: nat, e: nat) returns (h: nat, k: nat, u: set<Place>)
    requires ValidOp(op) && op.Look? && Placed(code, a, EncOp(op)) && OpDepth(op) <= d
    ensures a < h <= k && k + 1 + LINK_SIZE == a + |EncOp(op)| && k == h + |EncAlts(op.body, IsBack(op.op))|
    ensures Bracketed(code, a, op.body, OP_KET, IsBack(op.op), h, k) && Decode(code, a).ILook?
    ensures At(code, a) == op.op && h == a + 1 + LINK_SIZE
    ensures u == AltsSet(op.body, IsBack(op.op), h, d - 1, k) && OpSet(op, a, d, e) == {Place(a, d, e)} + u
  {
    hide Decode, Entries, ToKet, EncAlts, EncBranch, EncOpen, AltsSet, Offsets, Heading, Get, OpSet;
    h, k := Bracket(code, a, op.op, 0, op.body, OP_KET, IsBack(op.op));
    u := LookSetIs(op, a, d, e);
  }

  lemma LookSetIs(op: Op, a: nat, d: nat, e: nat) returns (u: set<Place>)
    requires ValidOp(op) && op.Look? && d > 0
    ensures var h := a + HeaderLen(op.op); u == AltsSet(op.body, IsBack(op.op), h, d - 1, h + |EncAlts(op.body, IsBack(op.op))|)
    ensures OpSet(op, a, d, e) == {Place(a, d, e)} + u
  {
    hide EncAlts, AltsSet;
    u := LookSet(op.op, op.body, a, d - 1);
  }

  lemma LookHeading(code: seq<Byte>, a: nat, al: Alts, back: bool, h: nat, k: nat)
    requires ValidAlts(al) && (back ==> FixedAlts(al)) && Bracketed(code, a, al, OP_KET, back, h, k)
    ensures Heading(code, a, al, back, h) && ToKet(code, a) == k
  {
    hide Heading, ToKet, Decode, Entries, EncAlts, EncBranch, Offsets;
  }

  lemma {:induction false} LookPlaces(code: seq<Byte>, op: Op, a: nat, x: Place)
    requires ValidOp(op) && op.Look? && Placed(code, a, EncOp(op)) && OpDepth(op) <= x.depth
    requires x.off == a + |EncOp(op)|
    ensures Closed(code, OpSet(op, a, x.depth, x.end), x, false) && x.(off := a) in OpSet(op, a, x.depth, x.end)
    decreases op, 1
  {
    hide Decode, Entries, ToKet, Starts, EncOp, EncAlts, EncBranch, Offsets, Known, AltsSet, OpSet, Bracketed, Heading;
    var back := IsBack(op.op);
    var h, k, u := LookParts(code, op, a, x.depth, x.end);
    LookHeading(code, a, op.body, back, h, k);
    var inner := Place(k, x.depth - 1, k);
    AltsPlaces(code, a, op.body, back, h, inner, false);
    var s := {x.(off := a)} + u;
    LookKnown(code, a, op.body, back, h, k, u, x);
    forall y | y in s
      ensures Known(code, s, x, y, false)
    {
      if y in u {
        Widen(code, u, inner, s, x, y, false);
      }
    }
  }

  lemma LookKnown(code: seq<Byte>, a: nat, body: Alts, back: bool, h: nat, k: nat, u: set<Place>, x: Place)
    requires ValidAlts(body) && (back ==> FixedAlts(body)) && Bracketed(code, a, body, OP_KET, back, h, k)
    requires IsLook(At(code, a)) && h == a + 1 + LINK_SIZE && x.off == k + 1 + LINK_SIZE && x.depth > 0
    requires forall e | e in Offsets(body, back, h) ::
               var t := if back then e + 1 + LINK_SIZE else e; Place(t, x.depth - 1, k) in u || t == k
    ensures Known(code, {x.(off := a)} + u, x, x.(off := a), false)
  {
    hide Entries, ToKet, Starts, EncAlts, EncBranch, EncOpen, Offsets;
    forall p: nat, t | t in Starts(code, a, p)
      ensures Place(t.off, x.depth - 1, k) in u || t.off == k
    {
      var e := StartPlaces(code, a, body, back, h, k, p, t);
    }
  }

  /** An assertion starts its body only at the starts of its branches. */
  lemma StartPlaces(code: seq<Byte>, a: nat, body: Alts, back: bool, h: nat, k: nat, p: nat, t: Node) returns (e: nat)
    requires ValidAlts(body) && (back ==> FixedAlts(body)) && Bracketed(code, a, body, OP_KET, back, h, k)
    requires h == a + 1 + LINK_SIZE && t in Starts(code, a, p)
    ensures e in Offsets(body, back, h) && t.off == if back then e + 1 + LINK_SIZE else e
  {
    hide Decode, Entries, ToKet, EncAlts, EncBranch, EncOpen;
    if back {
      BackwardStarts(code, a, body, h, k, p);
      e := BackPlaces(code, a, body, h, p, t);
    } else {
      ForwardStarts(code, a, body, OP_KET, h, k, p);
      e := t.off;
    }
  }

  lemma {:induction false} BackPlaces(code: seq<Byte>, o: nat, al: Alts, h: nat, p: nat, t: Node) returns (e: nat)
    requires ValidAlts(al) && FixedAlts(al) && h == o + 1 + LINK_SIZE && Heading(code, o, al, true, h)
    requires t in BackStarts(code, o, p)
    ensures e in Offsets(al, true, h) && t.off == e + 1 + LINK_SIZE
    decreases al
  {
    hide Decode, Entries, ToKet, EncAlts, EncBranch, BackStarts;
    var rest := BackStartsCase(code, o, al, h, p);
    if t in rest {
      NextHeading(code, o, al, true, h);
      var f := h + |EncBranch(al.branch, true)|;
      e := BackPlaces(code, f, al.rest, f + 1 + LINK_SIZE, p, t);
    } else {
      e := h;
    }
  }
}
