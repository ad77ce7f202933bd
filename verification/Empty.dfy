/** The compiler's judgement whether a branch could match the empty string, on the code tree,
    and that a branch judged non-empty has no empty match. */
module Empty {
  import opened Bytecode
  import opened Tree
  import opened Subject
  import opened Semantics

  /** Repeats that the scan knows to need a character; of the caseless families it knows none. */
  predicate NeedsCharacter(a: Atom, form: nat, n: nat) {
    var plus := form == PLUS || form == PLUS + 1 || form == POSPLUS || form == EXACT;
    match a
    case Lit(_, nocase) => plus && !nocase
    case NotLit(_, nocase) => plus && !nocase
    case Kind(_) => plus
    case Class(_, _) => form == PLUS || form == PLUS + 1 || (form >= UPTO && n > 0)
  }

  predicate CanBeEmptyOp(op: Op) {
    match op
    case One(_) => false
    case Rep(a, form, n, _) => !NeedsCharacter(a, form, n)
    case Bra(o, _, body, _) => o == OP_SBRA || o == OP_SCBRA || CanBeEmptyAlts(body)
    case _ => true
  }

  predicate CanBeEmpty(ops: Ops) {
    ops.Cons? ==> CanBeEmptyOp(ops.head) && CanBeEmpty(ops.tail)
  }

  predicate CanBeEmptyAlts(al: Alts) {
    CanBeEmpty(al.branch) || (al.More? && CanBeEmptyAlts(al.rest))
  }

  lemma {:induction false} NonEmptyOp(x: Ctx, op: Op, i: nat, j: nat)
    requires ValidOp(op) && !CanBeEmptyOp(op) && MOp(x, op, i, j)
    ensures i < j
    decreases op, 0
  {
    match op
    case Bra(_, _, body, ket) =>
      if ket == OP_KET {
        NonEmptyAlts(x, body, i, j);
      } else {
        var n: nat :| n > 0 && Iter(x, body, n, i, j);
        var k := IterElim(x, body, n, i, j);
        NonEmptyAlts(x, body, i, k);
        SpanIter(x, body, n - 1, k, j);
      }
    case _ =>
  }

  /** A branch of which the scan says that it cannot be empty matches no empty string. */
  lemma {:induction false} NonEmpty(x: Ctx, ops: Ops, i: nat, j: nat)
    requires ValidOps(ops) && !CanBeEmpty(ops) && MOps(x, ops, i, j)
    ensures i < j
    decreases ops, 0
  {
    var k: nat :| MOp(x, ops.head, i, k) && MOps(x, ops.tail, k, j);
    SpanOp(x, ops.head, i, k);
    SpanOps(x, ops.tail, k, j);
    if CanBeEmptyOp(ops.head) {
      NonEmpty(x, ops.tail, k, j);
    } else {
      NonEmptyOp(x, ops.head, i, k);
    }
  }

  lemma {:induction false} NonEmptyAlts(x: Ctx, al: Alts, i: nat, j: nat)
    requires ValidAlts(al) && !CanBeEmptyAlts(al) && MAlts(x, al, i, j)
    ensures i < j
    decreases al, 0
  {
    if MOps(x, al.branch, i, j) {
      NonEmpty(x, al.branch, i, j);
    } else {
      NonEmptyAlts(x, al.rest, i, j);
    }
  }
}
