/** Automatic possessification: exactly when it preserves the meaning of a pattern. */
module Possession {
  import opened Bytecode
  import opened Tree
  import opened Subject
  import opened Pattern

  /** The rows of the compiler's comparison are right: no character matches both items. */
  lemma Disjoint(t: CharTables, a: Atom, b: Atom, c: Byte)
    requires ValidAtom(a) && ValidAtom(b) && SameCase(a, b) && Excludes(t, a, b)
    ensures !(AtomAt(t, a, c) && AtomAt(t, b, c))
  {
    if a.Lit? {
      var d := t.flip[a.ch];
      assert t.lower[a.ch] == t.lower[d];
    }
    if b.Lit? {
      var d := t.flip[b.ch];
      assert t.lower[b.ch] == t.lower[d];
    }
  }

  /** May the item be absent? */
  predicate CanSkip(item: Item) { item.PRep? && item.q.min == 0 }

  /** A repeat that the compiler makes possessive on its own account is followed by an item
      that cannot be skipped. */
  predicate Safe(t: CharTables, item: Item, rest: Branch) {
    item.PRep? && item.q.greed != Possessive && MadePossessive(t, item.atom, item.q, rest) ==> !CanSkip(rest.head)
  }

  predicate Certain(t: CharTables, al: PAlts) {
    CertainBranch(t, al.branch) && (al.PMore? ==> Certain(t, al.rest))
  }

  predicate CertainBranch(t: CharTables, b: Branch) {
    b.BCons? ==> Safe(t, b.head, b.tail) && CertainItem(t, b.head) && CertainBranch(t, b.tail)
  }

  predicate CertainItem(t: CharTables, item: Item) {
    match item
    case PGroup(_, body) => Certain(t, body)
    case PGroupRep(_, body, _) => Certain(t, body)
    case PLook(_, body) => Certain(t, body)
    case _ => true
  }

  /** The repeat with its quantifier made possessive. */
  function Hardened(item: Item): Item
    requires item.PRep?
  {
    PRep(item.atom, item.q.(greed := Possessive))
  }

  lemma NextMatches(x: Ctx, rest: Branch, k: nat, j: nat) returns (b: Atom)
    requires ValidBranch(rest) && rest.BCons? && (rest.head.PAtom? || rest.head.PRep?) && !CanSkip(rest.head)
    requires MBranch(x, rest, k, j)
    ensures ValidAtom(b) && b == rest.head.atom && MatchesHere(x, b, k)
  {
    b := rest.head.atom;
    var m := MBranchElim(x, rest, k, j);
    if rest.head.PRep? {
      assert RunOf(x, b, k, m);
    }
  }

  /** Before an item that must match and cannot match what the repeat matches, the repeat and
      its possessive form lead to the same ends, whatever follows. */
  lemma Possessify(x: Ctx, item: Item, rest: Branch, i: nat, j: nat)
    requires ValidItem(item) && ValidBranch(rest) && item.PRep?
    requires item.q.max < 0 && AutoPossessive(x.tables, item.atom, rest) && !CanSkip(rest.head)
    requires SameSetting(item.atom, rest)
    ensures MBranch(x, BCons(item, rest), i, j) <==> MBranch(x, BCons(Hardened(item), rest), i, j)
  {
    HardenedMatches(x, item, rest, i, j);
  }

  lemma SameBranch(x: Ctx, b: Branch, i: nat, j: nat)
    requires ValidBranch(b) && b.BCons? && SettledBranch(b)
    requires Safe(x.tables, b.head, b.tail)
    ensures b.head.PRep? && MadePossessive(x.tables, b.head.atom, b.head.q, b.tail)
        ==> ValidBranch(BCons(Hardened(b.head), b.tail))
            && (MBranch(x, b, i, j) <==> MBranch(x, BCons(Hardened(b.head), b.tail), i, j))
  {
    if b.head.PRep? && MadePossessive(x.tables, b.head.atom, b.head.q, b.tail) {
      if b.head.q.greed == Possessive {
        assert Hardened(b.head) == b.head;
      } else {
        Possessify(x, b.head, b.tail, i, j);
      }
    }
  }

  /** Making the repeat possessive changes no match of any subject, whatever follows `next`. */
  ghost predicate Harmless(t: CharTables, item: Item, next: Item)
    requires ValidItem(item) && ValidItem(next) && item.PRep?
  {
    forall x: Ctx, tail: Branch, i: nat, j: nat | x.tables == t && ValidBranch(tail) ::
      MBranch(x, BCons(item, BCons(next, tail)), i, j) <==> MBranch(x, BCons(Hardened(item), BCons(next, tail)), i, j)
  }

  /** The subject on which a skipped `next` shows: characters of the repeat only. */
  function Witness(t: CharTables, c: Byte, n: nat): Ctx {
    Ctx(t, seq(n, _ => c), false, false, false, false, 0, false, false, 0)
  }

  /** The repeat, the item that may be skipped, and one more character for the repeated item. */
  function Sandwich(item: Item, next: Item): (b: Branch)
    requires ValidItem(item) && ValidItem(next) && item.PRep?
    ensures ValidBranch(b)
  {
    var last := BCons(PAtom(item.atom, false), BNil);
    assert ValidBranch(last.tail);
    assert ValidBranch(last);
    BCons(item, BCons(next, last))
  }

  lemma PlainMatches(t: CharTables, item: Item, next: Item, c: Byte)
    requires ValidItem(item) && ValidItem(next) && item.PRep? && item.q.max < 0 && item.q.greed != Possessive
    requires CanSkip(next) && AtomAt(t, item.atom, c) && !AtomAt(t, next.atom, c)
    ensures var n := item.q.min + 1; var x := Witness(t, c, n);
            MBranch(x, Sandwich(item, next), 0, n)
  {
    var m := item.q.min;
    var x := Witness(t, c, m + 1);
    var last := BCons(PAtom(item.atom, false), BNil);
    assert MBranch(x, BNil, m + 1, m + 1);
    MBranchCons(x, PAtom(item.atom, false), BNil, m, m + 1, m + 1);
    assert MItem(x, next, m, m);
    MBranchCons(x, next, last, m, m, m + 1);
    assert MItem(x, item, 0, m);
    MBranchCons(x, item, BCons(next, last), 0, m, m + 1);
  }

  lemma HardenedFails(t: CharTables, item: Item, next: Item, c: Byte)
    requires ValidItem(item) && ValidItem(next) && item.PRep? && item.q.max < 0
    requires CanSkip(next) && AtomAt(t, item.atom, c) && !AtomAt(t, next.atom, c)
    ensures var n := item.q.min + 1; var x := Witness(t, c, n);
            !MBranch(x, Sandwich(Hardened(item), next), 0, n)
  {
    var n := item.q.min + 1;
    var x := Witness(t, c, n);
    var last := BCons(PAtom(item.atom, false), BNil);
    if MBranch(x, Sandwich(Hardened(item), next), 0, n) {
      var k := MBranchElim(x, Sandwich(Hardened(item), next), 0, n);
      assert k == n;
      var m := MBranchElim(x, BCons(next, last), k, n);
      SpanItem(x, next, k, m);
    }
  }

  /** The compiler asks only whether the text after an item starts with '*', '?' or "{0,".
      Its decision is harmless exactly when the next item cannot be skipped, or when no
      character at all matches the repeated item: after "a*b{0}" it is wrong. */
  lemma PossessiveExactly(t: CharTables, item: Item, next: Item)
    requires ValidItem(item) && ValidItem(next) && item.PRep? && item.q.max < 0 && item.q.greed != Possessive
    requires AutoPossessive(t, item.atom, BCons(next, BNil))
    requires SameSetting(item.atom, BCons(next, BNil))
    ensures Harmless(t, item, next) <==> (!CanSkip(next) || forall c: Byte :: !AtomAt(t, item.atom, c))
  {
    hide Excludes, MBranch;
    if CanSkip(next) && exists c: Byte :: AtomAt(t, item.atom, c) {
      var c: Byte :| AtomAt(t, item.atom, c);
      Disjoint(t, item.atom, next.atom, c);
      PlainMatches(t, item, next, c);
      HardenedFails(t, item, next, c);
      assert Witness(t, c, item.q.min + 1).tables == t;
      assert ValidBranch(BCons(PAtom(item.atom, false), BNil));
    } else {
      forall x: Ctx, tail: Branch, i: nat, j: nat | x.tables == t && ValidBranch(tail)
        ensures MBranch(x, BCons(item, BCons(next, tail)), i, j) <==> MBranch(x, BCons(Hardened(item), BCons(next, tail)), i, j)
      {
        HardenedMatches(x, item, BCons(next, tail), i, j);
      }
    }
  }

  lemma HardenedMatches(x: Ctx, item: Item, rest: Branch, i: nat, j: nat)
    requires ValidItem(item) && ValidBranch(rest) && item.PRep? && rest.BCons?
    requires item.q.max < 0 && AutoPossessive(x.tables, item.atom, rest)
    requires !CanSkip(rest.head) || forall c: Byte :: !AtomAt(x.tables, item.atom, c)
    requires SameSetting(item.atom, rest)
    ensures MBranch(x, BCons(item, rest), i, j) <==> MBranch(x, BCons(Hardened(item), rest), i, j)
  {
    hide Excludes;
    if MBranch(x, BCons(item, rest), i, j) {
      var k := MBranchElim(x, BCons(item, rest), i, j);
      if !CanSkip(rest.head) {
        var b := NextMatches(x, rest, k, j);
        Disjoint(x.tables, item.atom, b, x.subject[k]);
      }
      MBranchCons(x, Hardened(item), rest, i, k, j);
    }
    if MBranch(x, BCons(Hardened(item), rest), i, j) {
      var k := MBranchElim(x, BCons(Hardened(item), rest), i, j);
      MBranchCons(x, item, rest, i, k, j);
    }
  }

  const LETTER_A: Byte := 97
  const LETTER_B: Byte := 98

  /** The simplest pattern that the decision breaks: "a*b{0}a" no longer matches "a". */
  lemma CountZeroBreaks(t: CharTables)
    ensures var a := Lit(LETTER_A, false);
            var item := PRep(a, Quant(0, -1, Greedy, true));
            var next := PRep(Lit(LETTER_B, false), Quant(0, 0, Greedy, false));
            var x := Witness(t, LETTER_A, 1);
            && MadePossessive(t, item.atom, item.q, Sandwich(item, next).tail)
            && MBranch(x, Sandwich(item, next), 0, 1)
            && !MBranch(x, Sandwich(Hardened(item), next), 0, 1)
  {
    var a := Lit(LETTER_A, false);
    var item := PRep(a, Quant(0, -1, Greedy, true));
    var next := PRep(Lit(LETTER_B, false), Quant(0, 0, Greedy, false));
    PlainMatches(t, item, next, LETTER_A);
    HardenedFails(t, item, next, LETTER_A);
  }
}
