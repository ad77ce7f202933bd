/** The meaning of the code tree: which spans (start, end) of the subject each item matches. */
module Semantics {
  import opened Bytecode
  import opened Tree
  import opened Subject

  ghost predicate MOp(x: Ctx, op: Op, i: nat, j: nat)
    requires ValidOp(op)
    decreases op, 0
  {
    match op
    case Test(o) => i == j && TestHolds(x, o, i)
    case One(a) => j == i + 1 && MatchesHere(x, a, i)
    case Rep(a, form, n, m) => RepSpan(x, a, RepBounds(a, form, n, m), 0, i, j)
    case Bra(_, _, body, ket) =>
      if ket == OP_KET then MAlts(x, body, i, j) else exists n: nat :: n > 0 && Iter(x, body, n, i, j)
    case Zero(_, g) => i == j || MOp(x, g, i, j)
    case Skip(_) => i == j
    case Look(o, body) =>
      i == j && (MLook(x, o, body, i) <==> (o == OP_ASSERT || o == OP_ASSERTBACK))
  }

  ghost predicate MOps(x: Ctx, ops: Ops, i: nat, j: nat)
    requires ValidOps(ops)
    decreases ops, 0
  {
    match ops
    case Nil => i == j
    case Cons(op, rest) => exists k: nat :: MOp(x, op, i, k) && MOps(x, rest, k, j)
  }

  ghost predicate MAlts(x: Ctx, al: Alts, i: nat, j: nat)
    requires ValidAlts(al)
    decreases al, 0
  {
    MOps(x, al.branch, i, j) || (al.More? && MAlts(x, al.rest, i, j))
  }

  /** `n` successive matches of the group body. */
  ghost predicate Iter(x: Ctx, al: Alts, n: nat, i: nat, j: nat)
    requires ValidAlts(al)
    decreases al, n + 1
  {
    if n == 0 then i == j else exists k: nat :: MAlts(x, al, i, k) && Iter(x, al, n - 1, k, j)
  }

  /** How far a lookbehind goes back: as far as its longest branch, by the 16 bits of each length. */
  function Reach(al: Alts): nat
    requires FixedAlts(al)
  {
    var back := OpsLength(al.branch) % 0x10000;
    if al.More? then Max(back, Reach(al.rest)) else back
  }

  /** Where the run of an assertion at `p` begins. */
  function LookFrom(op: Byte, body: Alts, p: nat): (q: nat)
    requires IsBack(op) ==> FixedAlts(body)
    ensures q <= p
  {
    if !IsBack(op) then p else if Reach(body) <= p then p - Reach(body) else 0
  }

  /** The assertion's body matches, ahead from `p` or from where a lookbehind at `p` starts, and the
      options do not refuse the match. Inside, \G means the place where the assertion is tried. */
  ghost predicate MLook(x: Ctx, op: Byte, body: Alts, p: nat)
    requires ValidAlts(body) && (IsBack(op) ==> FixedAlts(body))
    decreases body, 2
  {
    var y := x.(som := p);
    exists j: nat ::
      (if IsBack(op) then MBehind(y, body, p, j) else MAlts(y, body, p, j)) && Recordable(x, LookFrom(op, body, p), j)
  }

  /** Some branch of a lookbehind at `p` matches up to `j`. Each is tried as far back as its length,
      of which the code has room for 16 bits. */
  ghost predicate MBehind(x: Ctx, al: Alts, p: nat, j: nat)
    requires ValidAlts(al) && FixedAlts(al)
    decreases al, 1
  {
    var back := OpsLength(al.branch) % 0x10000;
    (back <= p && MOps(x, al.branch, p - back, j)) || (al.More? && MBehind(x, al.rest, p, j))
  }

  lemma MOpsCons(x: Ctx, op: Op, rest: Ops, i: nat, k: nat, j: nat)
    requires ValidOp(op) && ValidOps(rest) && MOp(x, op, i, k) && MOps(x, rest, k, j)
    ensures MOps(x, Cons(op, rest), i, j)
  {
  }

  lemma MOpsElim(x: Ctx, ops: Ops, i: nat, j: nat) returns (k: nat)
    requires ValidOps(ops) && ops.Cons? && MOps(x, ops, i, j)
    ensures MOp(x, ops.head, i, k) && MOps(x, ops.tail, k, j)
  {
    k :| MOp(x, ops.head, i, k) && MOps(x, ops.tail, k, j);
  }

  /** A looping bracket matches its body one or more times. */
  lemma LoopElim(x: Ctx, g: Op, i: nat, j: nat) returns (n: nat)
    requires ValidOp(g) && g.Bra? && g.ket != OP_KET && MOp(x, g, i, j)
    ensures n > 0 && Iter(x, g.body, n, i, j)
  {
    n :| n > 0 && Iter(x, g.body, n, i, j);
  }

  lemma IterCons(x: Ctx, al: Alts, n: nat, i: nat, k: nat, j: nat)
    requires ValidAlts(al) && MAlts(x, al, i, k) && Iter(x, al, n, k, j)
    ensures Iter(x, al, n + 1, i, j)
  {
  }

  lemma IterElim(x: Ctx, al: Alts, n: nat, i: nat, j: nat) returns (k: nat)
    requires ValidAlts(al) && n > 0 && Iter(x, al, n, i, j)
    ensures MAlts(x, al, i, k) && Iter(x, al, n - 1, k, j)
  {
    k :| MAlts(x, al, i, k) && Iter(x, al, n - 1, k, j);
  }

  lemma MLookElim(x: Ctx, op: Byte, body: Alts, p: nat) returns (q: nat)
    requires ValidAlts(body) && (IsBack(op) ==> FixedAlts(body)) && MLook(x, op, body, p)
    ensures if IsBack(op) then MBehind(x.(som := p), body, p, q) else MAlts(x.(som := p), body, p, q)
    ensures Recordable(x, LookFrom(op, body, p), q)
  {
    if IsBack(op) {
      q :| MBehind(x.(som := p), body, p, q) && Recordable(x, LookFrom(op, body, p), q);
    } else {
      q :| MAlts(x.(som := p), body, p, q) && Recordable(x, LookFrom(op, body, p), q);
    }
  }

  lemma MLookIntro(x: Ctx, op: Byte, body: Alts, p: nat, q: nat)
    requires ValidAlts(body) && (IsBack(op) ==> FixedAlts(body))
    requires if IsBack(op) then MBehind(x.(som := p), body, p, q) else MAlts(x.(som := p), body, p, q)
    requires Recordable(x, LookFrom(op, body, p), q)
    ensures MLook(x, op, body, p)
  {
  }

  // ----- spans go forward and stay inside the subject -----

  lemma SpanOp(x: Ctx, op: Op, i: nat, j: nat)
    requires ValidOp(op) && MOp(x, op, i, j)
    ensures i <= j && (i <= |x.subject| ==> j <= |x.subject|)
    decreases op, 0
  {
    match op
    case Bra(_, _, body, ket) =>
      if ket == OP_KET {
        SpanAlts(x, body, i, j);
      } else {
        var n: nat :| n > 0 && Iter(x, body, n, i, j);
        SpanIter(x, body, n, i, j);
      }
    case Zero(_, g) => if i != j { SpanOp(x, g, i, j); }
    case _ =>
  }

  lemma SpanOps(x: Ctx, ops: Ops, i: nat, j: nat)
    requires ValidOps(ops) && MOps(x, ops, i, j)
    ensures i <= j && (i <= |x.subject| ==> j <= |x.subject|)
    decreases ops, 0
  {
    if ops.Cons? {
      var k: nat :| MOp(x, ops.head, i, k) && MOps(x, ops.tail, k, j);
      SpanOp(x, ops.head, i, k);
      SpanOps(x, ops.tail, k, j);
    }
  }

  lemma SpanAlts(x: Ctx, al: Alts, i: nat, j: nat)
    requires ValidAlts(al) && MAlts(x, al, i, j)
    ensures i <= j && (i <= |x.subject| ==> j <= |x.subject|)
    decreases al, 0
  {
    if MOps(x, al.branch, i, j) {
      SpanOps(x, al.branch, i, j);
    } else {
      SpanAlts(x, al.rest, i, j);
    }
  }

  lemma SpanIter(x: Ctx, al: Alts, n: nat, i: nat, j: nat)
    requires ValidAlts(al) && Iter(x, al, n, i, j)
    ensures i <= j && (i <= |x.subject| ==> j <= |x.subject|)
    decreases al, n + 1
  {
    if n > 0 {
      var k: nat :| MAlts(x, al, i, k) && Iter(x, al, n - 1, k, j);
      SpanAlts(x, al, i, k);
      SpanIter(x, al, n - 1, k, j);
    }
  }

  // ----- fixed length is sound -----

  /** Whatever an item of fixed length `n` matches has exactly `n` characters. */
  lemma {:induction false} LengthOp(x: Ctx, op: Op, i: nat, j: nat)
    requires ValidOp(op) && OpLength(op) >= 0 && MOp(x, op, i, j)
    ensures j == i + OpLength(op)
    decreases op, 0
  {
    match op
    case Bra(_, _, body, _) => LengthAlts(x, body, i, j);
    case _ =>
  }

  lemma {:induction false} LengthOps(x: Ctx, ops: Ops, i: nat, j: nat)
    requires ValidOps(ops) && OpsLength(ops) >= 0 && MOps(x, ops, i, j)
    ensures j == i + OpsLength(ops)
    decreases ops, 0
  {
    if ops.Cons? {
      var k: nat :| MOp(x, ops.head, i, k) && MOps(x, ops.tail, k, j);
      LengthOp(x, ops.head, i, k);
      LengthOps(x, ops.tail, k, j);
    }
  }

  lemma {:induction false} LengthAlts(x: Ctx, al: Alts, i: nat, j: nat)
    requires ValidAlts(al) && AltsLength(al) >= 0 && MAlts(x, al, i, j)
    ensures j == i + AltsLength(al)
    decreases al, 0
  {
    if MOps(x, al.branch, i, j) {
      LengthOps(x, al.branch, i, j);
    } else {
      LengthAlts(x, al.rest, i, j);
    }
  }

  // ----- lookbehind is exact while lengths are short -----

  /** A lookbehind with short branches that succeeds has a branch matching a substring that ends at `p`. */
  lemma {:induction false} BehindElim(x: Ctx, al: Alts, p: nat, j: nat) returns (i: nat)
    requires ValidAlts(al) && FixedAlts(al) && ShortAlts(al) && MBehind(x, al, p, j)
    ensures j == p && p - Reach(al) <= i <= p && MAlts(x, al, i, p)
  {
    hide MOps, ValidOps, OpsLength;
    var back := OpsLength(al.branch) % 0x10000;
    if back <= p && MOps(x, al.branch, p - back, j) {
      LengthOps(x, al.branch, p - back, j);
      i := p - back;
    } else {
      i := BehindElim(x, al.rest, p, j);
    }
  }

  lemma {:induction false} BehindIntro(x: Ctx, al: Alts, i: nat, p: nat)
    requires ValidAlts(al) && FixedAlts(al) && ShortAlts(al) && MAlts(x, al, i, p)
    ensures MBehind(x, al, p, p)
  {
    hide MOps, ValidOps, OpsLength;
    if MOps(x, al.branch, i, p) {
      LengthOps(x, al.branch, i, p);
    } else {
      BehindIntro(x, al.rest, i, p);
    }
  }
}
