/** Code trees that can match wherever there is room: a word for each of them. */
module Words {
  import opened Bytecode
  import opened Tree
  import opened Subject
  import opened Semantics
  import opened Lookahead

  /** Sequences of characters, repeats that give way, and groups of such, all with a character to match. */
  ghost predicate FillOp(t: CharTables, op: Op)
    requires ValidOp(op)
    decreases op, 0
  {
    match op
    case One(a) => Some(t, a)
    case Rep(a, form, n, m) => var b := RepBounds(a, form, n, m); !b.poss && (b.lo == 0 || Some(t, a))
    case Bra(_, _, body, _) => FillAlts(t, body)
    case Zero(_, _) => true
    case Skip(_) => true
    case _ => false
  }

  ghost predicate FillOps(t: CharTables, ops: Ops)
    requires ValidOps(ops)
    decreases ops, 0
  {
    ops.Cons? ==> FillOp(t, ops.head) && FillOps(t, ops.tail)
  }

  ghost predicate FillAlts(t: CharTables, al: Alts)
    requires ValidAlts(al)
    decreases al, 1
  {
    FillOps(t, al.branch) || (al.More? && FillAlts(t, al.rest))
  }

  /** The word is matched wherever it stands. */
  ghost predicate OpSpell(t: CharTables, op: Op, w: seq<Byte>)
    requires ValidOp(op)
  {
    forall x: Ctx, i: nat | x.tables == t && Reads(x, i, w) :: MOp(x, op, i, i + |w|)
  }

  ghost predicate OpsSpell(t: CharTables, ops: Ops, w: seq<Byte>)
    requires ValidOps(ops)
  {
    forall x: Ctx, i: nat | x.tables == t && Reads(x, i, w) :: MOps(x, ops, i, i + |w|)
  }

  ghost predicate TreeSpell(t: CharTables, al: Alts, w: seq<Byte>)
    requires ValidAlts(al)
  {
    forall x: Ctx, i: nat | x.tables == t && Reads(x, i, w) :: MAlts(x, al, i, i + |w|)
  }

  lemma SpellCons(t: CharTables, op: Op, rest: Ops, u: seq<Byte>, v: seq<Byte>)
    requires ValidOp(op) && ValidOps(rest) && OpSpell(t, op, u) && OpsSpell(t, rest, v)
    ensures OpsSpell(t, Cons(op, rest), u + v)
  {
    hide Reads, MOp;
    forall x: Ctx, i: nat | x.tables == t && Reads(x, i, u + v)
      ensures MOps(x, Cons(op, rest), i, i + |u + v|)
    {
      ReadsParts(x, i, u, v);
      MOpsCons(x, op, rest, i, i + |u|, i + |u| + |v|);
    }
  }

  /** One round of a group, with whatever ket. */
  lemma SpellGroup(t: CharTables, op: Op, w: seq<Byte>)
    requires ValidOp(op) && op.Bra? && TreeSpell(t, op.body, w)
    ensures OpSpell(t, op, w)
  {
    hide Reads, MAlts;
    forall x: Ctx, i: nat | x.tables == t && Reads(x, i, w)
      ensures MOp(x, op, i, i + |w|)
    {
      assert Iter(x, op.body, 0, i + |w|, i + |w|);
      IterCons(x, op.body, 0, i, i + |w|, i + |w|);
    }
  }

  lemma RepeatWord(t: CharTables, op: Op) returns (w: seq<Byte>)
    requires ValidOp(op) && op.Rep? && FillOp(t, op)
    ensures OpSpell(t, op, w)
  {
    var a, b := op.atom, RepBounds(op.atom, op.form, op.n, op.m);
    w := [];
    if b.lo > 0 {
      var c: Byte :| AtomAt(t, a, c);
      w := seq(b.lo, _ => c);
    }
    forall x: Ctx, i: nat | x.tables == t && Reads(x, i, w)
      ensures MOp(x, op, i, i + |w|)
    {
      forall k | i <= k < i + |w|
        ensures AtomAt(t, a, x.subject[k])
      {
        assert x.subject[k] == x.subject[i..i + |w|][k - i] == w[k - i];
      }
    }
  }

  lemma OneWord(t: CharTables, op: Op) returns (w: seq<Byte>)
    requires ValidOp(op) && op.One? && FillOp(t, op)
    ensures OpSpell(t, op, w)
  {
    var c: Byte :| AtomAt(t, op.atom, c);
    w := [c];
    forall x: Ctx, i: nat | x.tables == t && Reads(x, i, w)
      ensures MOp(x, op, i, i + |w|)
    {
      assert x.subject[i] == x.subject[i..i + |w|][0];
    }
  }

  lemma {:induction false} OpWord(t: CharTables, op: Op) returns (w: seq<Byte>)
    requires ValidOp(op) && FillOp(t, op)
    ensures OpSpell(t, op, w)
    decreases op, 0
  {
    match op
    case One(_) => w := OneWord(t, op);
    case Rep(_, _, _, _) => w := RepeatWord(t, op);
    case Bra(_, _, body, _) =>
      w := AltsWord(t, body);
      SpellGroup(t, op, w);
    case _ => w := [];
  }

  lemma {:induction false} OpsWord(t: CharTables, ops: Ops) returns (w: seq<Byte>)
    requires ValidOps(ops) && FillOps(t, ops)
    ensures OpsSpell(t, ops, w)
    decreases ops, 0
  {
    match ops
    case Nil => w := [];
    case Cons(op, rest) =>
      hide OpSpell, OpsSpell, FillOp;
      var u := OpWord(t, op);
      var v := OpsWord(t, rest);
      w := u + v;
      SpellCons(t, op, rest, u, v);
  }

  lemma {:induction false} AltsWord(t: CharTables, al: Alts) returns (w: seq<Byte>)
    requires ValidAlts(al) && FillAlts(t, al)
    ensures TreeSpell(t, al, w)
    decreases al, 1
  {
    if FillOps(t, al.branch) {
      w := OpsWord(t, al.branch);
    } else {
      w := AltsWord(t, al.rest);
    }
  }
}
