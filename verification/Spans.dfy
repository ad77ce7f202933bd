/** When a sequence has a fixed length, said without computing it: the lengths that its items can have by
    their counts, and that the compiler's answer is theirs. */
module Spans {
  import opened Bytecode
  import opened Tree
  import opened Subject
  import opened Semantics
  import opened Lookahead
  import opened Words

  /** The items whose length the compiler looks for: characters, counted repeats with one count, tests and
      assertions, and groups of these that are not repeated. */
  predicate RegularOp(op: Op) {
    match op
    case Test(_) => true
    case Look(_, _) => true
    case One(_) => true
    case Rep(a, form, n, m) => if a.Class? then form >= UPTO && n == m else form == EXACT
    case Bra(o, _, body, ket) => (o == OP_BRA || o == OP_CBRA) && ket == OP_KET && RegularAlts(body)
    case _ => false
  }

  predicate RegularOps(ops: Ops) { ops.Cons? ==> RegularOp(ops.head) && RegularOps(ops.tail) }

  predicate RegularAlts(al: Alts) { RegularOps(al.branch) && (al.More? ==> RegularAlts(al.rest)) }

  /** The item can take `n` characters, as far as its counts go. */
  ghost predicate SpanOp(op: Op, n: nat)
    decreases op, 0
  {
    match op
    case Test(_) => n == 0
    case Look(_, _) => n == 0
    case One(_) => n == 1
    case Rep(a, form, c, d) => var b := RepBounds(a, form, c, d); b.lo <= n && (b.hi >= 0 ==> n <= b.hi)
    case Bra(_, _, body, _) => SpanAlts(body, n)
    case Zero(_, g) => n == 0 || SpanOp(g, n)
    case Skip(_) => n == 0
  }

  ghost predicate SpanOps(ops: Ops, n: nat)
    decreases ops, 0
  {
    match ops
    case Nil => n == 0
    case Cons(op, rest) => exists k: nat :: k <= n && SpanOp(op, k) && SpanOps(rest, n - k)
  }

  ghost predicate SpanAlts(al: Alts, n: nat)
    decreases al, 1
  {
    SpanOps(al.branch, n) || (al.More? && SpanAlts(al.rest, n))
  }

  lemma SpanCons(op: Op, rest: Ops, k: nat, n: nat)
    requires SpanOp(op, k) && SpanOps(rest, n)
    ensures SpanOps(Cons(op, rest), k + n)
  {
    assert k + n - k == n;
  }

  lemma SpanElim(ops: Ops, n: nat) returns (k: nat)
    requires ops.Cons? && SpanOps(ops, n)
    ensures k <= n && SpanOp(ops.head, k) && SpanOps(ops.tail, n - k)
  {
    k :| k <= n && SpanOp(ops.head, k) && SpanOps(ops.tail, n - k);
  }

  // ----- an accepted sequence has that length and no other -----

  lemma {:induction false} LengthOp(op: Op, n: nat)
    requires ValidOp(op) && OpLength(op) >= 0
    ensures RegularOp(op) && (SpanOp(op, n) <==> n == OpLength(op))
    decreases op, 0
  {
    if op.Bra? {
      LengthAlts(op.body, n);
    }
  }

  lemma {:induction false} LengthOps(ops: Ops, n: nat)
    requires ValidOps(ops) && OpsLength(ops) >= 0
    ensures RegularOps(ops) && (SpanOps(ops, n) <==> n == OpsLength(ops))
    decreases ops, 0
  {
    if ops.Cons? {
      var a, b := OpLength(ops.head), OpsLength(ops.tail);
      LengthOp(ops.head, a);
      LengthOps(ops.tail, b);
      SpanCons(ops.head, ops.tail, a, b);
      if SpanOps(ops, n) {
        var k := SpanElim(ops, n);
        LengthOp(ops.head, k);
        LengthOps(ops.tail, n - k);
      }
    }
  }

  lemma {:induction false} LengthAlts(al: Alts, n: nat)
    requires ValidAlts(al) && AltsLength(al) >= 0
    ensures RegularAlts(al) && (SpanAlts(al, n) <==> n == AltsLength(al))
    decreases al, 1
  {
    LengthOps(al.branch, n);
    if al.More? {
      LengthAlts(al.rest, n);
    }
  }

  // ----- and a refused one of these items has two -----

  lemma {:induction false} SomeOp(op: Op) returns (n: nat)
    requires ValidOp(op) && RegularOp(op)
    ensures SpanOp(op, n)
    decreases op, 0
  {
    n := if op.One? then 1 else if op.Rep? then op.n else 0;
    if op.Bra? {
      n := SomeOps(op.body.branch);
    }
  }

  lemma {:induction false} SomeOps(ops: Ops) returns (n: nat)
    requires ValidOps(ops) && RegularOps(ops)
    ensures SpanOps(ops, n)
    decreases ops, 0
  {
    n := 0;
    if ops.Cons? {
      var k := SomeOp(ops.head);
      var l := SomeOps(ops.tail);
      SpanCons(ops.head, ops.tail, k, l);
      n := k + l;
    }
  }

  lemma {:induction false} TwoOps(ops: Ops) returns (m: nat, n: nat)
    requires ValidOps(ops) && RegularOps(ops) && OpsLength(ops) < 0
    ensures m != n && SpanOps(ops, m) && SpanOps(ops, n)
    decreases ops, 0
  {
    if OpLength(ops.head) < 0 {
      var k, l := TwoAlts(ops.head.body);
      var r := SomeOps(ops.tail);
      SpanCons(ops.head, ops.tail, k, r);
      SpanCons(ops.head, ops.tail, l, r);
      m, n := k + r, l + r;
    } else {
      var k, l := TwoOps(ops.tail);
      var r := SomeOp(ops.head);
      SpanCons(ops.head, ops.tail, r, k);
      SpanCons(ops.head, ops.tail, r, l);
      m, n := r + k, r + l;
    }
  }

  lemma {:induction false} TwoAlts(al: Alts) returns (m: nat, n: nat)
    requires ValidAlts(al) && RegularAlts(al) && AltsLength(al) < 0
    ensures m != n && SpanAlts(al, m) && SpanAlts(al, n)
    decreases al, 1
  {
    if OpsLength(al.branch) < 0 {
      m, n := TwoOps(al.branch);
    } else if AltsLength(al.rest) < 0 {
      m, n := TwoAlts(al.rest);
    } else {
      m, n := OpsLength(al.branch), AltsLength(al.rest);
      LengthOps(al.branch, m);
      LengthAlts(al.rest, n);
    }
  }

  /** The counts allow the length `n` and no other. */
  ghost predicate OnlyOps(ops: Ops, n: nat) { SpanOps(ops, n) && forall m: nat | m != n :: !SpanOps(ops, m) }

  ghost predicate OnlyAlts(al: Alts, n: nat) { SpanAlts(al, n) && forall m: nat | m != n :: !SpanAlts(al, m) }

  /** The compiler's length of a branch is `n` exactly if it has only such items and its counts allow the
      length `n` and no other. */
  lemma BranchExactly(ops: Ops, n: nat)
    requires ValidOps(ops)
    ensures OpsLength(ops) == n <==> RegularOps(ops) && OnlyOps(ops, n)
  {
    hide SpanOps, OpsLength, RegularOps;
    if OpsLength(ops) >= 0 {
      LengthOps(ops, n);
      LengthOps(ops, OpsLength(ops));
      forall m: nat | m != OpsLength(ops)
        ensures !SpanOps(ops, m)
      {
        LengthOps(ops, m);
      }
    } else if RegularOps(ops) {
      var k, l := TwoOps(ops);
      assert k != n || l != n;
    }
  }

  lemma AltsExactly(al: Alts, n: nat)
    requires ValidAlts(al)
    ensures AltsLength(al) == n <==> RegularAlts(al) && OnlyAlts(al, n)
  {
    hide SpanAlts, AltsLength, RegularAlts;
    if AltsLength(al) >= 0 {
      LengthAlts(al, n);
      LengthAlts(al, AltsLength(al));
      forall m: nat | m != AltsLength(al)
        ensures !SpanAlts(al, m)
      {
        LengthAlts(al, m);
      }
    } else if RegularAlts(al) {
      var k, l := TwoAlts(al);
      assert k != n || l != n;
    }
  }

  // ----- in terms of matches -----

  /** Regular items without tests and assertions, each atom with a character to match. */
  ghost predicate Solid(t: CharTables, op: Op)
    requires ValidOp(op)
    decreases op, 0
  {
    match op
    case One(a) => Some(t, a)
    case Rep(a, _, _, _) => RegularOp(op) && Some(t, a)
    case Bra(_, _, body, _) => SolidAlts(t, body)
    case _ => false
  }

  ghost predicate SolidOps(t: CharTables, ops: Ops)
    requires ValidOps(ops)
    decreases ops, 0
  {
    ops.Cons? ==> Solid(t, ops.head) && SolidOps(t, ops.tail)
  }

  ghost predicate SolidAlts(t: CharTables, al: Alts)
    requires ValidAlts(al)
    decreases al, 1
  {
    SolidOps(t, al.branch) && (al.More? ==> SolidAlts(t, al.rest))
  }

  lemma RunWord(t: CharTables, op: Op, n: nat) returns (w: seq<Byte>)
    requires ValidOp(op) && (op.One? || op.Rep?) && Solid(t, op) && SpanOp(op, n)
    ensures |w| == n && OpSpell(t, op, w)
  {
    var c: Byte :| AtomAt(t, op.atom, c);
    w := seq(n, _ => c);
    forall x: Ctx, i: nat | x.tables == t && Reads(x, i, w)
      ensures MOp(x, op, i, i + |w|)
    {
      forall k | i <= k < i + n
        ensures AtomAt(t, op.atom, x.subject[k])
      {
        assert x.subject[k] == x.subject[i..i + |w|][k - i] == w[k - i];
      }
    }
  }

  lemma {:induction false} SpanOpWord(t: CharTables, op: Op, n: nat) returns (w: seq<Byte>)
    requires ValidOp(op) && Solid(t, op) && SpanOp(op, n)
    ensures |w| == n && OpSpell(t, op, w)
    decreases op, 0
  {
    if op.Bra? {
      w := SpanAltsWord(t, op.body, n);
      SpellGroup(t, op, w);
    } else {
      w := RunWord(t, op, n);
    }
  }

  lemma {:induction false} SpanOpsWord(t: CharTables, ops: Ops, n: nat) returns (w: seq<Byte>)
    requires ValidOps(ops) && SolidOps(t, ops) && SpanOps(ops, n)
    ensures |w| == n && OpsSpell(t, ops, w)
    decreases ops, 0
  {
    if ops.Nil? {
      w := [];
    } else {
      hide OpSpell, OpsSpell, Solid, SpanOp;
      var k := SpanElim(ops, n);
      var u := SpanOpWord(t, ops.head, k);
      var v := SpanOpsWord(t, ops.tail, n - k);
      w := u + v;
      SpellCons(t, ops.head, ops.tail, u, v);
    }
  }

  /** A length that the counts allow is that of some word, matched wherever it stands. */
  lemma {:induction false} SpanAltsWord(t: CharTables, al: Alts, n: nat) returns (w: seq<Byte>)
    requires ValidAlts(al) && SolidAlts(t, al) && SpanAlts(al, n)
    ensures |w| == n && TreeSpell(t, al, w)
    decreases al, 1
  {
    if SpanOps(al.branch, n) {
      w := SpanOpsWord(t, al.branch, n);
    } else {
      w := SpanAltsWord(t, al.rest, n);
    }
  }

  /** All matches of the branch have length `n`, and there are some. */
  ghost predicate AlwaysSpans(t: CharTables, ops: Ops, n: nat)
    requires ValidOps(ops)
  {
    && (exists x: Ctx, i: nat, j: nat :: x.tables == t && MOps(x, ops, i, j) && j == i + n)
    && forall x: Ctx, i: nat, j: nat | x.tables == t && MOps(x, ops, i, j) :: j == i + n
  }

  /** For a branch of characters, counted repeats and groups of these, each with a character to match, the
      compiler finds the length `n` exactly if the branch matches something and only ever `n` characters. */
  lemma MatchesExactly(t: CharTables, ops: Ops, n: nat)
    requires ValidOps(ops) && RegularOps(ops) && SolidOps(t, ops)
    ensures OpsLength(ops) == n <==> AlwaysSpans(t, ops, n)
  {
    hide MOps, SolidOps, RegularOps;
    if OpsLength(ops) == n {
      LengthOps(ops, n);
      var w := SpanOpsWord(t, ops, n);
      SpelledAt(t, ops, w);
      forall x: Ctx, i: nat, j: nat | x.tables == t && MOps(x, ops, i, j)
        ensures j == i + n
      {
        Semantics.LengthOps(x, ops, i, j);
      }
    } else if OpsLength(ops) >= 0 {
      LengthOps(ops, OpsLength(ops));
      var w := SpanOpsWord(t, ops, OpsLength(ops));
      SpelledAt(t, ops, w);
    } else {
      var k, l := TwoOps(ops);
      var u := SpanOpsWord(t, ops, k);
      var v := SpanOpsWord(t, ops, l);
      SpelledAt(t, ops, u);
      SpelledAt(t, ops, v);
    }
  }

  lemma SpelledAt(t: CharTables, ops: Ops, w: seq<Byte>)
    requires ValidOps(ops) && OpsSpell(t, ops, w)
    ensures exists x: Ctx, i: nat, j: nat :: x.tables == t && MOps(x, ops, i, j) && j == i + |w|
  {
    hide MOps;
    var x := Ctx(t, w, false, false, false, false, 0, false, false, 0);
    assert x.subject[0..0 + |w|] == w;
    assert Reads(x, 0, w);
    assert MOps(x, ops, 0, 0 + |w|);
  }
}
