/** The options that refuse empty matches also come into assertions, because the source tests them
    wherever a run ends: exactly when that changes what an assertion means. */
module NotEmpty {
  import opened Bytecode
  import opened Tree
  import opened Subject
  import opened Semantics

  /** The body matches ahead from `p`, whatever the options say. */
  ghost predicate Ahead(x: Ctx, body: Alts, p: nat)
    requires ValidAlts(body)
  {
    exists j: nat :: MAlts(x.(som := p), body, p, j)
  }

  /** The options change the outcome of no lookahead with this body. */
  ghost predicate Harmless(body: Alts)
    requires ValidAlts(body)
  {
    forall x: Ctx, p: nat | p <= |x.subject| :: MLook(x, OP_ASSERT, body, p) <==> Ahead(x, body, p)
  }

  ghost predicate NeverEmpty(body: Alts)
    requires ValidAlts(body)
  {
    forall x: Ctx, p: nat | p <= |x.subject| :: !MAlts(x, body, p, p)
  }

  /** The body has a match from `p` that is not empty. */
  ghost predicate Farther(x: Ctx, body: Alts, p: nat)
    requires ValidAlts(body)
  {
    exists j: nat :: MAlts(x.(som := p), body, p, j) && j > p
  }

  /** With the option, a lookahead succeeds exactly if its body has a match that is not empty. */
  lemma AheadNotEmpty(x: Ctx, body: Alts, p: nat)
    requires ValidAlts(body) && x.notEmpty && p <= |x.subject|
    ensures MLook(x, OP_ASSERT, body, p) <==> Farther(x, body, p)
  {
    hide MAlts;
    if MLook(x, OP_ASSERT, body, p) {
      var j := MLookElim(x, OP_ASSERT, body, p);
    }
    if Farther(x, body, p) {
      var j: nat :| MAlts(x.(som := p), body, p, j) && j > p;
      MLookIntro(x, OP_ASSERT, body, p, j);
    }
  }

  /** With the option for the start only, a lookahead at or before the start offset needs such a match, and one
      behind it any match. */
  lemma AheadAtStart(x: Ctx, body: Alts, p: nat)
    requires ValidAlts(body) && x.notEmptyAtStart && !x.notEmpty && p <= |x.subject|
    ensures MLook(x, OP_ASSERT, body, p) <==> Farther(x, body, p) || (p > x.mdStart && Ahead(x, body, p))
  {
    hide MAlts;
    if MLook(x, OP_ASSERT, body, p) {
      var j := MLookElim(x, OP_ASSERT, body, p);
      if j <= p {
        SpanAlts(x.(som := p), body, p, j);
      }
    }
    if Farther(x, body, p) {
      var j: nat :| MAlts(x.(som := p), body, p, j) && j > p;
      MLookIntro(x, OP_ASSERT, body, p, j);
    } else if p > x.mdStart && Ahead(x, body, p) {
      var j: nat :| MAlts(x.(som := p), body, p, j);
      MLookIntro(x, OP_ASSERT, body, p, j);
    }
  }

  /** The body of a lookbehind matches up to `p`, whatever the options say. */
  ghost predicate Behind(x: Ctx, body: Alts, p: nat)
    requires ValidAlts(body)
  {
    exists i: nat :: i <= p && MAlts(x.(som := p), body, i, p)
  }

  /** A lookbehind succeeds exactly if its body matches up to its place and the options admit that end for a
      run that began as far back as its longest branch reaches. */
  lemma BehindAdmits(x: Ctx, body: Alts, p: nat)
    requires ValidAlts(body) && FixedAlts(body) && ShortAlts(body) && p <= |x.subject|
    ensures MLook(x, OP_ASSERTBACK, body, p) <==> Behind(x, body, p) && Recordable(x, LookFrom(OP_ASSERTBACK, body, p), p)
  {
    hide MAlts, Recordable, LookFrom;
    if MLook(x, OP_ASSERTBACK, body, p) {
      var j := MLookElim(x, OP_ASSERTBACK, body, p);
      var i := BehindElim(x.(som := p), body, p, j);
    }
    if Behind(x, body, p) && Recordable(x, LookFrom(OP_ASSERTBACK, body, p), p) {
      var i: nat :| i <= p && MAlts(x.(som := p), body, i, p);
      BehindIntro(x.(som := p), body, i, p);
      MLookIntro(x, OP_ASSERTBACK, body, p, p);
    }
  }

  /** So with the option it fails at the start of the subject, and everywhere if its branches have no length. */
  lemma BehindNotEmpty(x: Ctx, body: Alts, p: nat)
    requires ValidAlts(body) && FixedAlts(body) && ShortAlts(body) && x.notEmpty && p <= |x.subject|
    ensures MLook(x, OP_ASSERTBACK, body, p) <==> p > 0 && Reach(body) > 0 && Behind(x, body, p)
  {
    BehindAdmits(x, body, p);
  }

  // ----- exactly when the options do not matter, for bodies without tests and assertions -----

  /** Can the item match nothing? */
  predicate NullOp(op: Op) {
    match op
    case Rep(a, form, n, m) => RepBounds(a, form, n, m).lo == 0
    case Bra(_, _, body, _) => NullAlts(body)
    case Zero(_, _) => true
    case Skip(_) => true
    case _ => false
  }

  predicate NullOps(ops: Ops) { ops.Cons? ==> NullOp(ops.head) && NullOps(ops.tail) }

  predicate NullAlts(al: Alts) { NullOps(al.branch) || (al.More? && NullAlts(al.rest)) }

  lemma {:induction false} EmptyOp(x: Ctx, op: Op, p: nat)
    requires ValidOp(op) && PlainOp(op)
    ensures MOp(x, op, p, p) ==> NullOp(op)
    ensures NullOp(op) && p == |x.subject| ==> MOp(x, op, p, p)
    decreases op, 0
  {
    match op
    case Bra(_, _, body, ket) =>
      EmptyAlts(x, body, p);
      if MOp(x, op, p, p) && ket != OP_KET {
        var n := LoopElim(x, op, p, p);
        var k := IterElim(x, body, n, p, p);
        SpanAlts(x, body, p, k);
        SpanIter(x, body, n - 1, k, p);
      }
      if NullAlts(body) && p == |x.subject| {
        assert Iter(x, body, 0, p, p);
        IterCons(x, body, 0, p, p, p);
      }
    case _ =>
  }

  lemma {:induction false} EmptyOps(x: Ctx, ops: Ops, p: nat)
    requires ValidOps(ops) && PlainOps(ops)
    ensures MOps(x, ops, p, p) ==> NullOps(ops)
    ensures NullOps(ops) && p == |x.subject| ==> MOps(x, ops, p, p)
    decreases ops, 0
  {
    if ops.Cons? {
      EmptyOp(x, ops.head, p);
      EmptyOps(x, ops.tail, p);
      if MOps(x, ops, p, p) {
        var k := MOpsElim(x, ops, p, p);
        SpanOp(x, ops.head, p, k);
        SpanOps(x, ops.tail, k, p);
      }
      if NullOps(ops) && p == |x.subject| {
        MOpsCons(x, ops.head, ops.tail, p, p, p);
      }
    }
  }

  /** An empty match is possible exactly if the computation says so; at the subject's end it then is one. */
  lemma {:induction false} EmptyAlts(x: Ctx, al: Alts, p: nat)
    requires ValidAlts(al) && PlainAlts(al)
    ensures MAlts(x, al, p, p) ==> NullAlts(al)
    ensures NullAlts(al) && p == |x.subject| ==> MAlts(x, al, p, p)
    decreases al, 1
  {
    EmptyOps(x, al.branch, p);
    if al.More? {
      EmptyAlts(x, al.rest, p);
    }
  }

  /** For a body without tests and assertions the options are harmless exactly if it cannot match the
      empty string, which can be computed: where it can, the subject cut off there shows the difference. */
  lemma HarmlessExactly(body: Alts)
    requires ValidAlts(body) && PlainAlts(body)
    ensures (Harmless(body) <==> !NullAlts(body)) && (NeverEmpty(body) <==> !NullAlts(body))
  {
    hide MAlts, NullAlts, PlainAlts;
    if NullAlts(body) {
      var y := NO_SUBJECT;
      EmptyAlts(y, body, 0);
      assert y.(som := 0) == y;
      assert Ahead(y, body, 0);
      NothingFarther(y, body);
    } else {
      forall x: Ctx, p: nat | p <= |x.subject|
        ensures !MAlts(x, body, p, p) && (MLook(x, OP_ASSERT, body, p) <==> Ahead(x, body, p))
      {
        EmptyAlts(x, body, p);
        EmptyAlts(x.(som := p), body, p);
        NonEmptyLook(x, body, p);
      }
    }
  }

  const PLAIN_TABLES: CharTables := Tables(IDENTITY_TABLE, IDENTITY_TABLE, EMPTY_CLASS, EMPTY_CLASS, EMPTY_CLASS)

  /** The empty subject, with NOTEMPTY. */
  const NO_SUBJECT: Ctx := Ctx(PLAIN_TABLES, [], false, false, false, false, 0, true, false, 0)

  lemma NothingFarther(y: Ctx, body: Alts)
    requires ValidAlts(body) && y.notEmpty && |y.subject| == 0
    ensures !MLook(y, OP_ASSERT, body, 0)
  {
    hide MAlts;
    if MLook(y, OP_ASSERT, body, 0) {
      var j := MLookElim(y, OP_ASSERT, body, 0);
      SpanAlts(y.(som := 0), body, 0, j);
    }
  }

  lemma NonEmptyLook(x: Ctx, body: Alts, p: nat)
    requires ValidAlts(body) && !MAlts(x.(som := p), body, p, p)
    ensures MLook(x, OP_ASSERT, body, p) <==> Ahead(x, body, p)
  {
    hide MAlts;
    if MLook(x, OP_ASSERT, body, p) {
      var j := MLookElim(x, OP_ASSERT, body, p);
    }
    if Ahead(x, body, p) {
      var j: nat :| MAlts(x.(som := p), body, p, j);
      SpanAlts(x.(som := p), body, p, j);
      assert j != p;
      MLookIntro(x, OP_ASSERT, body, p, j);
    }
  }

  /** The options change the outcome of no lookbehind with this body. */
  ghost predicate HarmlessBehind(body: Alts)
    requires ValidAlts(body) && FixedAlts(body)
  {
    forall x: Ctx, p: nat | p <= |x.subject| :: MLook(x, OP_ASSERTBACK, body, p) <==> Behind(x, body, p)
  }

  /** Some branch has no length. */
  predicate ZeroBranch(al: Alts) { OpsLength(al.branch) == 0 || (al.More? && ZeroBranch(al.rest)) }

  lemma {:induction false} ZeroOps(x: Ctx, ops: Ops, p: nat)
    requires ValidOps(ops) && PlainOps(ops) && OpsLength(ops) == 0
    ensures MOps(x, ops, p, p)
    decreases ops, 0
  {
    if ops.Cons? {
      ZeroOp(x, ops.head, p);
      ZeroOps(x, ops.tail, p);
      MOpsCons(x, ops.head, ops.tail, p, p, p);
    }
  }

  lemma {:induction false} ZeroOp(x: Ctx, op: Op, p: nat)
    requires ValidOp(op) && PlainOp(op) && OpLength(op) == 0
    ensures MOp(x, op, p, p)
    decreases op, 0
  {
    match op
    case Bra(_, _, body, _) => ZeroOps(x, body.branch, p);
    case _ =>
  }

  lemma {:induction false} ZeroAlts(x: Ctx, al: Alts, p: nat)
    requires ValidAlts(al) && PlainAlts(al) && ZeroBranch(al)
    ensures MAlts(x, al, p, p)
    decreases al
  {
    if OpsLength(al.branch) == 0 {
      ZeroOps(x, al.branch, p);
    } else {
      ZeroAlts(x, al.rest, p);
    }
  }

  lemma {:induction false} LengthAbove(x: Ctx, al: Alts, i: nat, p: nat)
    requires ValidAlts(al) && FixedAlts(al) && ShortAlts(al) && !ZeroBranch(al)
    ensures Reach(al) > 0 && (MAlts(x, al, i, p) ==> i < p)
    decreases al
  {
    if MOps(x, al.branch, i, p) {
      LengthOps(x, al.branch, i, p);
    }
    if al.More? {
      LengthAbove(x, al.rest, i, p);
    }
  }

  /** For a lookbehind they are harmless exactly if no branch has length 0: such a one matches at the start of
      the subject, where the run cannot have begun earlier. */
  lemma HarmlessBehindExactly(body: Alts)
    requires ValidAlts(body) && PlainAlts(body) && FixedAlts(body) && ShortAlts(body)
    ensures HarmlessBehind(body) <==> !ZeroBranch(body)
  {
    hide MAlts, MLook, ZeroBranch, PlainAlts, FixedAlts, ShortAlts, LookFrom;
    if ZeroBranch(body) {
      var y := NO_SUBJECT;
      assert y.(som := 0) == y;
      ZeroAlts(y, body, 0);
      BehindNotEmpty(y, body, 0);
      assert Behind(y, body, 0) && !MLook(y, OP_ASSERTBACK, body, 0);
    } else {
      forall x: Ctx, p: nat | p <= |x.subject|
        ensures MLook(x, OP_ASSERTBACK, body, p) <==> Behind(x, body, p)
      {
        BehindAdmits(x, body, p);
        if Behind(x, body, p) {
          var i: nat :| i <= p && MAlts(x.(som := p), body, i, p);
          LengthAbove(x.(som := p), body, i, p);
          BeganEarlier(x, body, p);
        }
      }
    }
  }

  lemma BeganEarlier(x: Ctx, body: Alts, p: nat)
    requires ValidAlts(body) && FixedAlts(body) && Reach(body) > 0 && p > 0
    ensures Recordable(x, LookFrom(OP_ASSERTBACK, body, p), p)
  {
  }

  // ----- items without tests and assertions -----

  predicate PlainOp(op: Op) {
    match op
    case Test(_) => false
    case Look(_, _) => false
    case Bra(_, _, body, _) => PlainAlts(body)
    case Zero(_, g) => PlainOp(g)
    case Skip(g) => PlainOp(g)
    case _ => true
  }

  predicate PlainOps(ops: Ops) { ops.Cons? ==> PlainOp(ops.head) && PlainOps(ops.tail) }

  predicate PlainAlts(al: Alts) { PlainOps(al.branch) && (al.More? ==> PlainAlts(al.rest)) }

  // ----- an example -----

  const LETTER_A: Atom := Lit(97, false)
  const LETTER_B: Atom := Lit(98, false)

  /** The code tree of "(?=a*)b". */
  const MAYBE_A: Alts := Last(Cons(Rep(LETTER_A, STAR, 0, 0), Nil))
  const LOOK_B: Alts := Last(Cons(Look(OP_ASSERT, MAYBE_A), Cons(One(LETTER_B), Nil)))

  /** It matches "b", whose match is not empty, but not when empty matches are refused. */
  lemma NotEmptyBreaks(t: CharTables)
    ensures ValidAlts(LOOK_B)
    ensures var x := Ctx(t, [98], false, false, false, false, 0, false, false, 0);
            MAlts(x, LOOK_B, 0, 1) && !MAlts(x.(notEmpty := true), LOOK_B, 0, 1)
  {
    var x := Ctx(t, [98], false, false, false, false, 0, false, false, 0);
    var last := Cons(One(LETTER_B), Nil);
    assert ValidOps(Nil) && ValidOps(last) && ValidOps(MAYBE_A.branch) && ValidAlts(MAYBE_A) && ValidOp(Look(OP_ASSERT, MAYBE_A));
    assert MOps(x, Nil, 0, 0) && MOps(x, Nil, 1, 1);
    assert MOp(x, Rep(LETTER_A, STAR, 0, 0), 0, 0);
    MOpsCons(x, Rep(LETTER_A, STAR, 0, 0), Nil, 0, 0, 0);
    MLookIntro(x, OP_ASSERT, MAYBE_A, 0, 0);
    MOpsCons(x, One(LETTER_B), Nil, 0, 1, 1);
    MOpsCons(x, Look(OP_ASSERT, MAYBE_A), last, 0, 0, 1);
    var y := x.(notEmpty := true);
    if MAlts(y, LOOK_B, 0, 1) {
      LookTried(y);
      LookNeedsA(y);
    }
  }

  lemma LookTried(y: Ctx)
    requires ValidAlts(LOOK_B) && ValidAlts(MAYBE_A) && MAlts(y, LOOK_B, 0, 1)
    ensures MLook(y, OP_ASSERT, MAYBE_A, 0)
  {
    hide MLook;
    var k := MOpsElim(y, LOOK_B.branch, 0, 1);
  }

  lemma LookNeedsA(y: Ctx)
    requires ValidAlts(MAYBE_A) && y.notEmpty && MLook(y, OP_ASSERT, MAYBE_A, 0)
    ensures |y.subject| > 0 && y.subject[0] == 97
  {
    var j := MLookElim(y, OP_ASSERT, MAYBE_A, 0);
    var m := MOpsElim(y.(som := 0), MAYBE_A.branch, 0, j);
  }
}
