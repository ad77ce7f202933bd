/** The code tree of a pattern matches exactly what the pattern means. */
module Preservation {
  import opened Bytecode
  import opened Tree
  import opened Subject
  import opened Semantics
  import opened Pattern
  import opened Empty
  import opened Expansion
  import opened Possession

  // ----- sequences of items -----

  lemma {:induction false} AppendElim(x: Ctx, a: Ops, b: Ops, i: nat, j: nat) returns (k: nat)
    requires ValidOps(a) && ValidOps(b) && ValidOps(Append(a, b)) && MOps(x, Append(a, b), i, j)
    ensures MOps(x, a, i, k) && MOps(x, b, k, j)
  {
    match a
    case Nil => k := i;
    case Cons(op, rest) =>
      var m: nat :| MOp(x, op, i, m) && MOps(x, Append(rest, b), m, j);
      k := AppendElim(x, rest, b, m, j);
      MOpsCons(x, op, rest, i, m, k);
  }

  lemma {:induction false} AppendIntro(x: Ctx, a: Ops, b: Ops, i: nat, k: nat, j: nat)
    requires ValidOps(a) && ValidOps(b) && ValidOps(Append(a, b)) && MOps(x, a, i, k) && MOps(x, b, k, j)
    ensures MOps(x, Append(a, b), i, j)
  {
    match a
    case Nil =>
    case Cons(op, rest) =>
      var m: nat :| MOp(x, op, i, m) && MOps(x, rest, m, k);
      AppendIntro(x, rest, b, m, k, j);
      MOpsCons(x, op, Append(rest, b), i, m, j);
  }

  lemma Single(x: Ctx, op: Op, i: nat, j: nat)
    requires ValidOp(op)
    ensures MOps(x, Cons(op, Nil), i, j) <==> MOp(x, op, i, j)
  {
    assert MOps(x, Nil, j, j);
    if MOps(x, Cons(op, Nil), i, j) {
      var k := MOpsElim(x, Cons(op, Nil), i, j);
    }
  }

  // ----- quantified characters -----

  /** `a` repeated from `lo` to `hi` times (`hi` < 0: without limit). */
  function Span(lo: nat, hi: int, poss: bool): Bounds { Bounds(lo, hi, false, poss, true) }

  lemma MeansSpan(x: Ctx, a: Atom, form: nat, n: nat, m: nat, lo: nat, hi: int, poss: bool, i: nat, j: nat)
    requires ValidRep(a, form, n, m)
    requires var b := RepBounds(a, form, n, m); b.lo == lo && b.hi == hi && b.poss == poss
    ensures ValidOps(Cons(Rep(a, form, n, m), Nil))
    ensures MOps(x, Cons(Rep(a, form, n, m), Nil), i, j) <==> RepSpan(x, a, Span(lo, hi, poss), 0, i, j)
  {
    Single(x, Rep(a, form, n, m), i, j);
  }

  /** A required part followed by an open one repeats as often as both together. */
  lemma JoinSpans(x: Ctx, a: Atom, n: nat, hi: int, poss: bool, i: nat, k: nat, j: nat)
    requires ValidAtom(a)
    requires RepSpan(x, a, Span(n, n, false), 0, i, k) && RepSpan(x, a, Span(0, hi, poss), 0, k, j)
    ensures RepSpan(x, a, Span(n, if hi < 0 then hi else n + hi, poss), 0, i, j)
  {
  }

  lemma PartSpan(x: Ctx, a: Atom, n: nat, hi: int, poss: bool, i: nat, j: nat)
    requires ValidAtom(a) && RepSpan(x, a, Span(n, if hi < 0 then hi else n + hi, poss), 0, i, j)
    ensures RepSpan(x, a, Span(n, n, false), 0, i, i + n) && RepSpan(x, a, Span(0, hi, poss), 0, i + n, j)
  {
  }

  lemma SplitSpan(x: Ctx, a: Atom, n: nat, first: Op, rest: Ops, hi: int, poss: bool, i: nat, j: nat)
    requires ValidAtom(a) && ValidOp(first) && ValidOps(rest) && i <= |x.subject|
    requires forall k: nat :: MOp(x, first, i, k) <==> RepSpan(x, a, Span(n, n, false), 0, i, k)
    requires forall k: nat | k <= |x.subject| :: MOps(x, rest, k, j) <==> RepSpan(x, a, Span(0, hi, poss), 0, k, j)
    ensures MOps(x, Cons(first, rest), i, j)
       <==> RepSpan(x, a, Span(n, if hi < 0 then hi else n + hi, poss), 0, i, j)
  {
    hide MOps, MOp, RepSpan;
    if MOps(x, Cons(first, rest), i, j) {
      var k := MOpsElim(x, Cons(first, rest), i, j);
      SpanInside(x, a, Span(n, n, false), i, k);
      JoinSpans(x, a, n, hi, poss, i, k, j);
    }
    if RepSpan(x, a, Span(n, if hi < 0 then hi else n + hi, poss), 0, i, j) {
      PartSpan(x, a, n, hi, poss, i, j);
      SpanInside(x, a, Span(n, n, false), i, i + n);
      MOpsCons(x, first, rest, i, i + n, j);
    }
  }

  lemma SpanInside(x: Ctx, a: Atom, b: Bounds, i: nat, k: nat)
    requires ValidAtom(a) && RepSpan(x, a, b, 0, i, k)
    ensures i <= k <= |x.subject|
  {
  }

  lemma OneSpan(x: Ctx, a: Atom, i: nat, k: nat)
    requires ValidAtom(a)
    ensures MOp(x, One(a), i, k) <==> RepSpan(x, a, Span(1, 1, false), 0, i, k)
  {
  }

  /** The part of an expansion that may match nothing. */
  function OpenPart(a: Atom, hi: int, z: nat, poss: bool): Ops {
    if hi < 0 then Cons(CharRep(a, STAR, POSSTAR, z, poss, 0), Nil)
    else if hi == 0 then Nil
    else if hi == 1 then Cons(CharRep(a, QUERY, POSQUERY, z, poss, 0), Nil)
    else Cons(CharRep(a, UPTO, POSUPTO, z, poss, hi), Nil)
  }

  lemma OpenSpan(x: Ctx, a: Atom, hi: int, z: nat, poss: bool, i: nat, j: nat)
    requires ValidAtom(a) && !a.Class? && -1 <= hi < 0x10000 && z < 2 && i <= |x.subject|
    ensures ValidOps(OpenPart(a, hi, z, poss))
    ensures MOps(x, OpenPart(a, hi, z, poss), i, j) <==> RepSpan(x, a, Span(0, hi, poss), 0, i, j)
  {
    if hi < 0 {
      MeansSpan(x, a, if poss then POSSTAR else STAR + z, 0, 0, 0, hi, poss, i, j);
    } else if hi == 1 {
      MeansSpan(x, a, if poss then POSQUERY else QUERY + z, 0, 0, 0, hi, poss, i, j);
    } else if hi > 1 {
      MeansSpan(x, a, if poss then POSUPTO else UPTO + z, hi, 0, 0, hi, poss, i, j);
    }
  }

  /** Every expansion of a quantified character repeats it as often as the quantifier says. */
  lemma CharExpanded(x: Ctx, a: Atom, q: Quant, poss: bool, i: nat, j: nat)
    requires ValidAtom(a) && !a.Class? && ValidQuant(q) && i <= |x.subject|
    ensures ValidOps(ExpandChar(a, q, poss))
    ensures MOps(x, ExpandChar(a, q, poss), i, j) <==> RepSpan(x, a, Span(q.min, q.max, poss), 0, i, j)
  {
    hide MOps, MOp, RepSpan;
    var z := Lazier(q, poss);
    if q.min == 0 {
      OpenSpan(x, a, q.max, z, poss, i, j);
    } else if q.min == 1 && q.max < 0 {
      MeansSpan(x, a, if poss then POSPLUS else PLUS + z, 0, 0, 1, -1, poss, i, j);
    } else {
      var hi := if q.max < 0 then q.max else q.max - q.min;
      var first := if q.min == 1 then One(a) else Rep(a, EXACT, q.min, 0);
      var rest := if q.min == 1 && hi == 1 then Cons(CharRep(a, UPTO, POSUPTO, z, poss, 1), Nil) else OpenPart(a, hi, z, poss);
      forall k: nat
        ensures MOp(x, first, i, k) <==> RepSpan(x, a, Span(q.min, q.min, false), 0, i, k)
      {
        FirstSpan(x, a, q.min, i, k);
      }
      forall k: nat | k <= |x.subject|
        ensures ValidOps(rest) && (MOps(x, rest, k, j) <==> RepSpan(x, a, Span(0, hi, poss), 0, k, j))
      {
        OpenSpan(x, a, hi, z, poss, k, j);
        if q.min == 1 && hi == 1 {
          MeansSpan(x, a, if poss then POSUPTO else UPTO + z, 1, 0, 0, 1, poss, k, j);
        }
      }
      assert ValidOp(first) && ValidOps(rest) by { assert i <= |x.subject|; }
      SplitSpan(x, a, q.min, first, rest, hi, poss, i, j);
    }
  }

  lemma FirstSpan(x: Ctx, a: Atom, n: nat, i: nat, k: nat)
    requires ValidAtom(a) && !a.Class? && 0 < n < 0x10000
    ensures var first := if n == 1 then One(a) else Rep(a, EXACT, n, 0);
            ValidOp(first) && (MOp(x, first, i, k) <==> RepSpan(x, a, Span(n, n, false), 0, i, k))
  {
    if n == 1 {
      OneSpan(x, a, i, k);
    }
  }

  lemma ClassExpanded(x: Ctx, a: Atom, q: Quant, i: nat, j: nat)
    requires ValidAtom(a) && a.Class? && ValidQuant(q) && i <= |x.subject|
    ensures ValidOps(ExpandClass(a, q))
    ensures MOps(x, ExpandClass(a, q), i, j) <==> RepSpan(x, a, Span(q.min, q.max, false), 0, i, j)
  {
    var z := Lazier(q, false);
    if q.max == 0 {
    } else if q.min == 0 && q.max < 0 {
      MeansSpan(x, a, STAR + z, 0, 0, 0, -1, false, i, j);
    } else if q.min == 1 && q.max < 0 {
      MeansSpan(x, a, PLUS + z, 0, 0, 1, -1, false, i, j);
    } else if q.min == 0 && q.max == 1 {
      MeansSpan(x, a, QUERY + z, 0, 0, 0, 1, false, i, j);
    } else {
      MeansSpan(x, a, UPTO + z, q.min, if q.max < 0 then 0 else q.max, q.min, q.max, false, i, j);
    }
  }

  // ----- counted groups -----

  /** The group body matches between `lo` and `hi` times in succession (`hi` < 0: no limit). */
  ghost predicate Between(x: Ctx, al: Alts, lo: nat, hi: int, i: nat, j: nat)
    requires ValidAlts(al)
  {
    exists n: nat :: lo <= n && (hi >= 0 ==> n <= hi) && Iter(x, al, n, i, j)
  }

  lemma {:induction false} IterJoin(x: Ctx, al: Alts, n: nat, m: nat, i: nat, k: nat, j: nat)
    requires ValidAlts(al) && Iter(x, al, n, i, k) && Iter(x, al, m, k, j)
    ensures Iter(x, al, n + m, i, j)
    decreases n
  {
    if n > 0 {
      var h := IterElim(x, al, n, i, k);
      IterJoin(x, al, n - 1, m, h, k, j);
      IterCons(x, al, n - 1 + m, i, h, j);
    }
  }

  lemma {:induction false} IterSplit(x: Ctx, al: Alts, n: nat, m: nat, i: nat, j: nat) returns (k: nat)
    requires ValidAlts(al) && Iter(x, al, n + m, i, j)
    ensures Iter(x, al, n, i, k) && Iter(x, al, m, k, j)
    decreases n
  {
    if n == 0 {
      k := i;
    } else {
      var h := IterElim(x, al, n + m, i, j);
      k := IterSplit(x, al, n - 1, m, h, j);
      IterCons(x, al, n - 1, i, h, k);
    }
  }

  lemma {:induction false} CopiesElim(x: Ctx, g: Op, n: nat, rest: Ops, i: nat, j: nat) returns (k: nat)
    requires ValidOp(g) && g.Bra? && g.ket == OP_KET && ValidOps(rest)
    requires ValidOps(Copies(g, n, rest)) && MOps(x, Copies(g, n, rest), i, j)
    ensures Iter(x, g.body, n, i, k) && MOps(x, rest, k, j)
    decreases n
  {
    if n == 0 {
      k := i;
    } else {
      var h: nat :| MOp(x, g, i, h) && MOps(x, Copies(g, n - 1, rest), h, j);
      k := CopiesElim(x, g, n - 1, rest, h, j);
      IterCons(x, g.body, n - 1, i, h, k);
    }
  }

  lemma {:induction false} CopiesIntro(x: Ctx, g: Op, n: nat, rest: Ops, i: nat, k: nat, j: nat)
    requires ValidOp(g) && g.Bra? && g.ket == OP_KET && ValidOps(rest) && ValidOps(Copies(g, n, rest))
    requires Iter(x, g.body, n, i, k) && MOps(x, rest, k, j)
    ensures MOps(x, Copies(g, n, rest), i, j)
    decreases n
  {
    if n > 0 {
      var h := IterElim(x, g.body, n, i, k);
      CopiesIntro(x, g, n - 1, rest, h, k, j);
      MOpsCons(x, g, Copies(g, n - 1, rest), i, h, j);
    }
  }

  lemma ZeroMeans(x: Ctx, lazy: bool, g: Op, i: nat, j: nat)
    requires ValidOp(g) && g.Bra?
    ensures MOps(x, Cons(Zero(lazy, g), Nil), i, j) <==> (i == j || MOp(x, g, i, j))
  {
    Single(x, Zero(lazy, g), i, j);
  }

  lemma NestMeans(x: Ctx, ops: Ops, i: nat, j: nat)
    requires ValidOps(ops)
    ensures MOp(x, Bra(OP_BRA, 0, Last(ops), OP_KET), i, j) <==> MOps(x, ops, i, j)
  {
    assert MAlts(x, Last(ops), i, j) <==> MOps(x, ops, i, j);
  }

  lemma {:induction false} OptionalElim(x: Ctx, g: Op, m: nat, lazy: bool, i: nat, j: nat) returns (n: nat)
    requires ValidOp(g) && g.Bra? && g.ket == OP_KET
    requires ValidOps(Optional(g, m, lazy)) && MOps(x, Optional(g, m, lazy), i, j)
    ensures n <= m && Iter(x, g.body, n, i, j)
    decreases m
  {
    if i == j {
      n := 0;
    } else if m == 1 {
      ZeroMeans(x, lazy, g, i, j);
      IterCons(x, g.body, 0, i, j, j);
      n := 1;
    } else {
      var nest := Cons(g, Optional(g, m - 1, lazy));
      ValidOptional(g, m - 1, lazy);
      ZeroMeans(x, lazy, Bra(OP_BRA, 0, Last(nest), OP_KET), i, j);
      NestMeans(x, nest, i, j);
      var k := MOpsElim(x, nest, i, j);
      n := OptionalElim(x, g, m - 1, lazy, k, j);
      IterCons(x, g.body, n, i, k, j);
      n := n + 1;
    }
  }

  lemma {:induction false} OptionalIntro(x: Ctx, g: Op, m: nat, lazy: bool, n: nat, i: nat, j: nat)
    requires ValidOp(g) && g.Bra? && g.ket == OP_KET && n <= m && Iter(x, g.body, n, i, j)
    ensures ValidOps(Optional(g, m, lazy)) && MOps(x, Optional(g, m, lazy), i, j)
    decreases m
  {
    ValidOptional(g, m, lazy);
    if n > 0 {
      var k := IterElim(x, g.body, n, i, j);
      OptionalIntro(x, g, m - 1, lazy, n - 1, k, j);
    }
    if m == 1 {
      ZeroMeans(x, lazy, g, i, j);
    } else if m > 1 {
      var nest := Cons(g, Optional(g, m - 1, lazy));
      ValidOptional(g, m - 1, lazy);
      ZeroMeans(x, lazy, Bra(OP_BRA, 0, Last(nest), OP_KET), i, j);
      NestMeans(x, nest, i, j);
    }
  }

  lemma LoopedMeans(x: Ctx, g: Op, lazy: bool, i: nat, j: nat)
    requires ValidOp(g) && g.Bra? && (g.op == OP_BRA || g.op == OP_CBRA)
    ensures ValidOp(Looped(g, lazy)) && (MOp(x, Looped(g, lazy), i, j) <==> Between(x, g.body, 1, -1, i, j))
  {
    if MOp(x, Looped(g, lazy), i, j) {
      var n := LoopElim(x, Looped(g, lazy), i, j);
    }
  }

  lemma UnlimitedElim(x: Ctx, g: Op, q: Quant, i: nat, j: nat)
    requires ValidOp(g) && g.Bra? && (g.op == OP_BRA || g.op == OP_CBRA) && g.ket == OP_KET
    requires ValidQuant(q) && q.max < 0
    requires ValidOps(ExpandGroup(g, q)) && MOps(x, ExpandGroup(g, q), i, j)
    ensures Between(x, g.body, q.min, q.max, i, j)
  {
    var lazy := q.greed == Lazy;
    var loop := Looped(g, lazy);
    if q.min == 0 {
      LoopedMeans(x, g, lazy, i, j);
      Single(x, Zero(lazy, loop), i, j);
      if i == j {
        assert Iter(x, g.body, 0, i, j);
      }
    } else {
      LoopedMeans(x, g, lazy, i, j);
      var k := CopiesElim(x, g, q.min - 1, Cons(loop, Nil), i, j);
      LoopedMeans(x, g, lazy, k, j);
      Single(x, loop, k, j);
      var n: nat :| 1 <= n && Iter(x, g.body, n, k, j);
      IterJoin(x, g.body, q.min - 1, n, i, k, j);
    }
  }

  lemma UnlimitedIntro(x: Ctx, g: Op, q: Quant, i: nat, j: nat)
    requires ValidOp(g) && g.Bra? && (g.op == OP_BRA || g.op == OP_CBRA) && g.ket == OP_KET
    requires ValidQuant(q) && q.max < 0
    requires ValidOps(ExpandGroup(g, q)) && Between(x, g.body, q.min, q.max, i, j)
    ensures MOps(x, ExpandGroup(g, q), i, j)
  {
    var lazy := q.greed == Lazy;
    var loop := Looped(g, lazy);
    var n: nat :| q.min <= n && Iter(x, g.body, n, i, j);
    LoopedMeans(x, g, lazy, i, j);
    if q.min == 0 {
      Single(x, Zero(lazy, loop), i, j);
    } else {
      var k := IterSplit(x, g.body, q.min - 1, n - (q.min - 1), i, j);
      assert Between(x, g.body, 1, -1, k, j);
      LoopedMeans(x, g, lazy, k, j);
      Single(x, loop, k, j);
      CopiesIntro(x, g, q.min - 1, Cons(loop, Nil), i, k, j);
    }
  }

  lemma LimitedElim(x: Ctx, g: Op, q: Quant, i: nat, j: nat)
    requires ValidOp(g) && g.Bra? && (g.op == OP_BRA || g.op == OP_CBRA) && g.ket == OP_KET
    requires ValidQuant(q) && q.max >= 0
    requires ValidOps(ExpandGroup(g, q)) && MOps(x, ExpandGroup(g, q), i, j)
    ensures Between(x, g.body, q.min, q.max, i, j)
  {
    var lazy := q.greed == Lazy;
    if q.max == 0 {
      Single(x, Skip(g), i, j);
      assert Iter(x, g.body, 0, i, j);
    } else {
      ValidOptional(g, q.max - q.min, lazy);
      assert ExpandGroup(g, q) == Copies(g, q.min, Optional(g, q.max - q.min, lazy));
      var k := CopiesElim(x, g, q.min, Optional(g, q.max - q.min, lazy), i, j);
      var n := OptionalElim(x, g, q.max - q.min, lazy, k, j);
      IterJoin(x, g.body, q.min, n, i, k, j);
    }
  }

  lemma LimitedIntro(x: Ctx, g: Op, q: Quant, i: nat, j: nat)
    requires ValidOp(g) && g.Bra? && (g.op == OP_BRA || g.op == OP_CBRA) && g.ket == OP_KET
    requires ValidQuant(q) && q.max >= 0
    requires ValidOps(ExpandGroup(g, q)) && Between(x, g.body, q.min, q.max, i, j)
    ensures MOps(x, ExpandGroup(g, q), i, j)
  {
    var lazy := q.greed == Lazy;
    var n: nat :| q.min <= n <= q.max && Iter(x, g.body, n, i, j);
    if q.max == 0 {
      Single(x, Skip(g), i, j);
    } else {
      assert ExpandGroup(g, q) == Copies(g, q.min, Optional(g, q.max - q.min, lazy));
      var k := IterSplit(x, g.body, q.min, n - q.min, i, j);
      OptionalIntro(x, g, q.max - q.min, lazy, n - q.min, k, j);
      CopiesIntro(x, g, q.min, Optional(g, q.max - q.min, lazy), i, k, j);
    }
  }

  /** Copies, nested options and a loop together match what counted repetition means. */
  lemma GroupExpanded(x: Ctx, g: Op, q: Quant, i: nat, j: nat)
    requires ValidOp(g) && g.Bra? && (g.op == OP_BRA || g.op == OP_CBRA) && g.ket == OP_KET && ValidQuant(q)
    ensures ValidOps(ExpandGroup(g, q))
    ensures MOps(x, ExpandGroup(g, q), i, j) <==> Between(x, g.body, q.min, q.max, i, j)
  {
    hide MOps, Between, ExpandGroup;
    ValidGroup(g, q);
    if MOps(x, ExpandGroup(g, q), i, j) {
      if q.max < 0 {
        UnlimitedElim(x, g, q, i, j);
      } else {
        LimitedElim(x, g, q, i, j);
      }
    }
    if Between(x, g.body, q.min, q.max, i, j) {
      if q.max < 0 {
        UnlimitedIntro(x, g, q, i, j);
      } else {
        LimitedIntro(x, g, q, i, j);
      }
    }
  }

  // ----- whole patterns -----

  lemma {:induction false} TimesMeans(x: Ctx, al: PAlts, body: Alts, n: nat, i: nat, j: nat)
    requires ValidPAlts(al) && ValidAlts(body) && i <= |x.subject|
    requires forall h: nat, k: nat | h <= |x.subject| :: MPAlts(x, al, h, k) <==> MAlts(x, body, h, k)
    ensures Times(x, al, n, i, j) <==> Iter(x, body, n, i, j)
    decreases n
  {
    if n > 0 && Times(x, al, n, i, j) {
      var k := TimesElim(x, al, n, i, j);
      SpanAlts(x, body, i, k);
      TimesMeans(x, al, body, n - 1, k, j);
      IterCons(x, body, n - 1, i, k, j);
    }
    if n > 0 && Iter(x, body, n, i, j) {
      var k := IterElim(x, body, n, i, j);
      SpanAlts(x, body, i, k);
      TimesMeans(x, al, body, n - 1, k, j);
      TimesCons(x, al, n - 1, i, k, j);
    }
  }

  lemma GroupMeans(x: Ctx, cap: nat, al: PAlts, body: Alts, q: Quant, i: nat, j: nat)
    requires ValidItem(PGroupRep(cap, al, q)) && ValidAlts(body) && i <= |x.subject|
    requires forall h: nat, k: nat | h <= |x.subject| :: MPAlts(x, al, h, k) <==> MAlts(x, body, h, k)
    ensures MItem(x, PGroupRep(cap, al, q), i, j) <==> Between(x, body, q.min, q.max, i, j)
  {
    forall n: nat
      ensures Times(x, al, n, i, j) <==> Iter(x, body, n, i, j)
    {
      TimesMeans(x, al, body, n, i, j);
    }
    if MItem(x, PGroupRep(cap, al, q), i, j) {
      var n := RepeatElim(x, PGroupRep(cap, al, q), i, j);
      assert Iter(x, body, n, i, j);
    }
    if Between(x, body, q.min, q.max, i, j) {
      var n: nat :| q.min <= n && (q.max >= 0 ==> n <= q.max) && Iter(x, body, n, i, j);
      assert Times(x, al, n, i, j);
    }
  }

  /** With no option that refuses empty matches, or with a body that has none, every match of the
      body is accepted. */
  lemma Accepted(x: Ctx, o: Byte, body: Alts, p: nat, i: nat, j: nat)
    requires ValidAlts(body) && (IsBack(o) ==> FixedAlts(body) && ShortAlts(body)) && (TakesEmpty(x) || !CanBeEmptyAlts(body))
    requires MAlts(x.(som := p), body, i, j) && if IsBack(o) then i <= j == p else i == p
    ensures Recordable(x, LookFrom(o, body, p), j)
  {
    if !TakesEmpty(x) {
      NonEmptyAlts(x.(som := p), body, i, j);
      if IsBack(o) {
        ReachBack(x.(som := p), body, i, p);
      }
    }
  }

  lemma {:induction false} ReachBack(x: Ctx, body: Alts, i: nat, p: nat)
    requires ValidAlts(body) && FixedAlts(body) && ShortAlts(body) && MAlts(x, body, i, p)
    ensures p - Reach(body) <= i
  {
    hide MOps, ValidOps, OpsLength;
    if MOps(x, body.branch, i, p) {
      LengthOps(x, body.branch, i, p);
    } else {
      ReachBack(x, body.rest, i, p);
    }
  }

  /** No lookaround has a body that could match the empty string, as far as the compiler can tell. */
  predicate Firm(t: CharTables, al: PAlts)
    requires ValidPAlts(al)
    decreases al, 1
  {
    FirmBranch(t, al.branch) && (al.PMore? ==> Firm(t, al.rest))
  }

  predicate FirmBranch(t: CharTables, b: Branch)
    requires ValidBranch(b)
    decreases b, 1
  {
    b.BCons? ==> FirmItem(t, b.head) && FirmBranch(t, b.tail)
  }

  predicate FirmItem(t: CharTables, item: Item)
    requires ValidItem(item)
    decreases item, 1
  {
    match item
    case PGroup(_, body) => Firm(t, body)
    case PGroupRep(_, body, _) => Firm(t, body)
    case PLook(_, body) => Firm(t, body) && !CanBeEmptyAlts(TreeOf(t, body))
    case _ => true
  }

  /** The options that refuse empty matches do not come into the assertions of the pattern. */
  predicate Undisturbed(x: Ctx, al: PAlts)
    requires ValidPAlts(al)
  {
    TakesEmpty(x) || Firm(x.tables, al)
  }

  lemma LookMeans(x: Ctx, o: Byte, al: PAlts, body: Alts, p: nat)
    requires ValidPAlts(al) && ValidAlts(body) && (IsBack(o) ==> FixedAlts(body) && ShortAlts(body)) && p <= |x.subject|
    requires TakesEmpty(x) || !CanBeEmptyAlts(body)
    requires forall h: nat, k: nat | h <= |x.subject| ::
               MPAlts(x.(som := p), al, h, k) <==> MAlts(x.(som := p), body, h, k)
    ensures MPLook(x, o, al, p) <==> MLook(x, o, body, p)
  {
    hide MAlts, MPAlts, MPLook, MLook, CanBeEmptyAlts, FixedAlts, ShortAlts;
    if MPLook(x, o, al, p) {
      LookDown(x, o, al, body, p);
    }
    if MLook(x, o, body, p) {
      LookUp(x, o, al, body, p);
    }
  }

  lemma LookDown(x: Ctx, o: Byte, al: PAlts, body: Alts, p: nat)
    requires ValidPAlts(al) && ValidAlts(body) && (IsBack(o) ==> FixedAlts(body) && ShortAlts(body)) && p <= |x.subject|
    requires TakesEmpty(x) || !CanBeEmptyAlts(body)
    requires forall h: nat, k: nat | h <= |x.subject| && MPAlts(x.(som := p), al, h, k) :: MAlts(x.(som := p), body, h, k)
    requires MPLook(x, o, al, p)
    ensures MLook(x, o, body, p)
  {
    hide MAlts, MPAlts, MBehind, MLook, Recordable, CanBeEmptyAlts, LookFrom, FixedAlts, ShortAlts;
    var q := MPLookElim(x, o, al, p);
    if IsBack(o) {
      SpanPAlts(x.(som := p), al, q, p);
      BehindIntro(x.(som := p), body, q, p);
      Accepted(x, o, body, p, q, p);
      MLookIntro(x, o, body, p, p);
    } else {
      Accepted(x, o, body, p, p, q);
      MLookIntro(x, o, body, p, q);
    }
  }

  lemma LookUp(x: Ctx, o: Byte, al: PAlts, body: Alts, p: nat)
    requires ValidPAlts(al) && ValidAlts(body) && (IsBack(o) ==> FixedAlts(body) && ShortAlts(body)) && p <= |x.subject|
    requires forall h: nat, k: nat | h <= |x.subject| && MAlts(x.(som := p), body, h, k) :: MPAlts(x.(som := p), al, h, k)
    requires MLook(x, o, body, p)
    ensures MPLook(x, o, al, p)
  {
    hide MAlts, MPAlts, MBehind, MPLook, Recordable, LookFrom, FixedAlts, ShortAlts;
    var q := MLookElim(x, o, body, p);
    if IsBack(o) {
      var i := BehindElim(x.(som := p), body, p, q);
      MPLookIntro(x, o, al, p, i);
    } else {
      MPLookIntro(x, o, al, p, q);
    }
  }

  /** The item that is compiled: possessive where the compiler has made it so. */
  function Compiled(t: CharTables, item: Item, rest: Branch): Item {
    match item
    case PRep(a, q) => if MadePossessive(t, a, q, rest) then PRep(a, q.(greed := Possessive)) else item
    case _ => item
  }

  lemma {:induction false} PreserveItem(x: Ctx, item: Item, rest: Branch, i: nat, j: nat)
    requires ValidItem(item) && FixedBehindItem(x.tables, item) && UnwrappedItem(x.tables, item, rest)
    requires SettledItem(item) && CertainItem(x.tables, item) && ShortItem(x.tables, item) && i <= |x.subject|
    requires TakesEmpty(x) || FirmItem(x.tables, item)
    ensures ValidOps(ExpandItem(x.tables, item, rest))
    ensures MOps(x, ExpandItem(x.tables, item, rest), i, j) <==> MItem(x, Compiled(x.tables, item, rest), i, j)
    decreases item, 1
  {
    var t := x.tables;
    ValidItemTree(t, item, rest);
    match item
    case PTest(o) => Single(x, Test(o), i, j);
    case PAtom(a, _) => Single(x, One(a), i, j);
    case PRep(a, q) =>
      if a.Class? {
        ClassExpanded(x, a, q, i, j);
      } else {
        CharExpanded(x, a, q, MadePossessive(t, a, q, rest), i, j);
      }
    case PGroup(cap, body) =>
      Single(x, Group(cap, TreeOf(t, body)), i, j);
      Preserve(x, body, i, j);
    case PGroupRep(cap, body, q) =>
      ValidTree(t, body);
      GroupExpanded(x, Group(cap, TreeOf(t, body)), q, i, j);
      forall h: nat, k: nat | h <= |x.subject|
        ensures MPAlts(x, body, h, k) <==> MAlts(x, TreeOf(t, body), h, k)
      {
        Preserve(x, body, h, k);
      }
      GroupMeans(x, cap, body, TreeOf(t, body), q, i, j);
    case PLook(o, body) =>
      ValidTree(t, body);
      Single(x, Look(o, TreeOf(t, body)), i, j);
      forall h: nat, k: nat | h <= |x.subject|
        ensures MPAlts(x.(som := i), body, h, k) <==> MAlts(x.(som := i), TreeOf(t, body), h, k)
      {
        Preserve(x.(som := i), body, h, k);
      }
      LookMeans(x, o, body, TreeOf(t, body), i);
  }

  lemma {:induction false} PreserveBranch(x: Ctx, b: Branch, i: nat, j: nat)
    requires ValidBranch(b) && FixedBehindBranch(x.tables, b) && UnwrappedBranch(x.tables, b)
    requires SettledBranch(b) && CertainBranch(x.tables, b) && ShortBranch(x.tables, b) && i <= |x.subject|
    requires TakesEmpty(x) || FirmBranch(x.tables, b)
    ensures ValidOps(ExpandBranch(x.tables, b))
    ensures MOps(x, ExpandBranch(x.tables, b), i, j) <==> MBranch(x, b, i, j)
    decreases b, 1
  {
    ValidBranchTree(x.tables, b);
    if b.BCons? {
      var first, rest := ExpandItem(x.tables, b.head, b.tail), ExpandBranch(x.tables, b.tail);
      var c := Compiled(x.tables, b.head, b.tail);
      ValidItemTree(x.tables, b.head, b.tail);
      ValidBranchTree(x.tables, b.tail);
      SameBranch(x, b, i, j);
      if MOps(x, Append(first, rest), i, j) {
        var k := AppendElim(x, first, rest, i, j);
        SpanOps(x, first, i, k);
        PreserveItem(x, b.head, b.tail, i, k);
        PreserveBranch(x, b.tail, k, j);
        MBranchCons(x, c, b.tail, i, k, j);
      }
      if MBranch(x, BCons(c, b.tail), i, j) {
        var k := MBranchElim(x, BCons(c, b.tail), i, j);
        PreserveItem(x, b.head, b.tail, i, k);
        SpanOps(x, first, i, k);
        PreserveBranch(x, b.tail, k, j);
        AppendIntro(x, first, rest, i, k, j);
      }
    }
  }

  /** Expanding quantifiers and making repeats possessive preserve the meaning of a pattern. */
  lemma {:induction false} Preserve(x: Ctx, al: PAlts, i: nat, j: nat)
    requires ValidPAlts(al) && FixedBehind(x.tables, al) && Unwrapped(x.tables, al)
    requires Settled(al) && Certain(x.tables, al) && Short(x.tables, al) && i <= |x.subject|
    requires Undisturbed(x, al)
    ensures ValidAlts(TreeOf(x.tables, al))
    ensures MAlts(x, TreeOf(x.tables, al), i, j) <==> MPAlts(x, al, i, j)
    decreases al, 1
  {
    ValidTree(x.tables, al);
    PreserveBranch(x, al.branch, i, j);
    if al.PMore? {
      Preserve(x, al.rest, i, j);
    }
  }
}
