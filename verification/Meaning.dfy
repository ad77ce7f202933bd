/** What the tests on positions and the character types mean, told by the matches of small patterns. */
module Meaning {
  import opened Bytecode
  import opened Tree
  import opened Subject
  import opened Pattern

  /** One or more, or any number of, characters of a kind. */
  function Many(op: Byte, least: nat): Item { PRep(Kind(op), Quant(least, -1, Greedy, least == 0)) }

  /** A test, characters of a kind, and a test. */
  function Framed(before: Byte, op: Byte, least: nat, after: Byte): PAlts {
    PLast(BCons(PTest(before), BCons(Many(op, least), BCons(PTest(after), BNil))))
  }

  lemma FramedMatches(x: Ctx, before: Byte, op: Byte, least: nat, after: Byte, i: nat, j: nat)
    requires IsTest(before) && IsTest(after) && OP_NOT_DIGIT <= op <= OP_ALLANY && least < 0x10000
    ensures ValidPAlts(Framed(before, op, least, after))
    ensures MPAlts(x, Framed(before, op, least, after), i, j) <==>
            && TestHolds(x, before, i) && TestHolds(x, after, j) && i + least <= j <= |x.subject|
            && forall k | i <= k < j :: KindAt(x.tables, op, x.subject[k])
  {
    hide TestHolds, KindAt;
    var last := BCons(PTest(after), BNil);
    var rest := BCons(Many(op, least), last);
    assert ValidItem(Many(op, least)) by { assert ValidAtom(Kind(op)) && ValidQuant(Many(op, least).q); }
    assert ValidItem(PTest(before)) && ValidItem(PTest(after));
    assert ValidBranch(BNil) && ValidBranch(last);
    assert ValidBranch(rest);
    assert ValidBranch(BCons(PTest(before), rest));
    assert MBranch(x, BNil, j, j);
    if MPAlts(x, Framed(before, op, least, after), i, j) {
      var k := MBranchElim(x, BCons(PTest(before), rest), i, j);
      var l := MBranchElim(x, rest, k, j);
      var m := MBranchElim(x, last, l, j);
    }
    if TestHolds(x, before, i) && TestHolds(x, after, j) && i + least <= j <= |x.subject|
      && forall k | i <= k < j :: KindAt(x.tables, op, x.subject[k]) {
      MBranchCons(x, PTest(after), BNil, j, j, j);
      assert MItem(x, Many(op, least), i, j);
      MBranchCons(x, Many(op, least), last, i, j, j);
      MBranchCons(x, PTest(before), rest, i, i, j);
    }
  }

  predicate Word(x: Ctx, k: int) { 0 <= k < |x.subject| && x.tables.word[x.subject[k]] }

  /** "\b\w+\b" matches exactly the whole words: word characters that cannot be extended on either side. */
  lemma WholeWords(x: Ctx, i: nat, j: nat)
    ensures var p := Framed(OP_WORD_BOUNDARY, OP_WORDCHAR, 1, OP_WORD_BOUNDARY);
            && ValidPAlts(p)
            && (MPAlts(x, p, i, j) <==>
                  i < j <= |x.subject| && (forall k | i <= k < j :: Word(x, k)) && !Word(x, i - 1) && !Word(x, j))
  {
    FramedMatches(x, OP_WORD_BOUNDARY, OP_WORDCHAR, 1, OP_WORD_BOUNDARY, i, j);
    assert forall k | 0 <= k < |x.subject| :: KindAt(x.tables, OP_WORDCHAR, x.subject[k]) <==> Word(x, k);
    assert WordAt(x, i - 1) == Word(x, i - 1) && WordAt(x, j) == Word(x, j);
    if i < j <= |x.subject| && forall k | i <= k < j :: Word(x, k) {
      assert Word(x, i) && Word(x, j - 1);
    }
  }

  /** "\w\B\w" */
  const INSIDE: PAlts :=
    PLast(BCons(PAtom(Kind(OP_WORDCHAR), false),
                BCons(PTest(OP_NOT_WORD_BOUNDARY), BCons(PAtom(Kind(OP_WORDCHAR), false), BNil))))

  /** It matches exactly two word characters side by side. */
  lemma InsideWords(x: Ctx, i: nat, j: nat)
    ensures ValidPAlts(INSIDE) && (MPAlts(x, INSIDE, i, j) <==> j == i + 2 && Word(x, i) && Word(x, i + 1))
  {
    var w, b := PAtom(Kind(OP_WORDCHAR), false), PTest(OP_NOT_WORD_BOUNDARY);
    var last := BCons(w, BNil);
    var rest := BCons(b, last);
    assert ValidBranch(BNil) && ValidBranch(last) && ValidBranch(rest) && ValidBranch(BCons(w, rest));
    if MPAlts(x, INSIDE, i, j) {
      var k := MBranchElim(x, BCons(w, rest), i, j);
      var l := MBranchElim(x, rest, k, j);
      var m := MBranchElim(x, last, l, j);
    }
    if j == i + 2 && Word(x, i) && Word(x, i + 1) {
      assert MBranch(x, BNil, j, j);
      MBranchCons(x, w, BNil, i + 1, j, j);
      MBranchCons(x, b, last, i + 1, i + 1, j);
      MBranchCons(x, w, rest, i, i + 1, j);
    }
  }

  /** No option touches the tests for beginnings and ends. */
  predicate Ordinary(x: Ctx) { !x.notBol && !x.notEol && !x.dollarEndOnly && !x.partialHard }

  predicate Free(x: Ctx, i: nat, j: nat) { forall k | i <= k < j <= |x.subject| :: x.subject[k] != NEWLINE }

  /** "^.*$" with multiline matching matches exactly the lines, but not the empty one behind a final newline. */
  lemma Lines(x: Ctx, i: nat, j: nat)
    requires Ordinary(x)
    ensures var p := Framed(OP_CIRCM, OP_ANY, 0, OP_DOLLM);
            && ValidPAlts(p)
            && (MPAlts(x, p, i, j) <==>
                  && i <= j <= |x.subject| && Free(x, i, j)
                  && (i == 0 || (i < |x.subject| && x.subject[i - 1] == NEWLINE))
                  && (j == |x.subject| || x.subject[j] == NEWLINE))
  {
    FramedMatches(x, OP_CIRCM, OP_ANY, 0, OP_DOLLM, i, j);
  }

  /** Without it, exactly the first line if nothing or only its newline follows. */
  lemma OnlyLine(x: Ctx, i: nat, j: nat)
    requires Ordinary(x)
    ensures var p := Framed(OP_CIRC, OP_ANY, 0, OP_DOLL);
            && ValidPAlts(p)
            && (MPAlts(x, p, i, j) <==>
                  && i == 0 && j <= |x.subject| && Free(x, 0, j)
                  && (j == |x.subject| || (j + 1 == |x.subject| && x.subject[j] == NEWLINE)))
  {
    FramedMatches(x, OP_CIRC, OP_ANY, 0, OP_DOLL, i, j);
  }

  /** "\G.*\Z" with dot matching everything: from the start offset to the end or before a final newline. */
  lemma FromOffset(x: Ctx, i: nat, j: nat)
    requires Ordinary(x)
    ensures var p := Framed(OP_SOM, OP_ALLANY, 0, OP_EODN);
            && ValidPAlts(p)
            && (MPAlts(x, p, i, j) <==>
                  && i == x.som && i <= j <= |x.subject|
                  && (j == |x.subject| || (j + 1 == |x.subject| && x.subject[j] == NEWLINE)))
  {
    FramedMatches(x, OP_SOM, OP_ALLANY, 0, OP_EODN, i, j);
  }

  /** The options take away what they should: the beginning or the end of the subject, but no newline. */
  lemma Options(x: Ctx, i: nat, j: nat)
    requires x.notBol && x.notEol && !x.dollarEndOnly && !x.partialHard
    ensures var p := Framed(OP_CIRCM, OP_ANY, 0, OP_DOLLM);
            && ValidPAlts(p)
            && (MPAlts(x, p, i, j) <==>
                  && i <= j < |x.subject| && Free(x, i, j)
                  && i > 0 && x.subject[i - 1] == NEWLINE && x.subject[j] == NEWLINE)
    ensures var q := Framed(OP_CIRC, OP_ANY, 0, OP_DOLL); ValidPAlts(q) && !MPAlts(x, q, i, j)
  {
    FramedMatches(x, OP_CIRCM, OP_ANY, 0, OP_DOLLM, i, j);
    FramedMatches(x, OP_CIRC, OP_ANY, 0, OP_DOLL, i, j);
  }

  /** "\A.+\z" for any kind of character: the whole subject if all its characters are of that kind. */
  function Whole(op: Byte): PAlts { Framed(OP_SOD, op, 1, OP_EOD) }

  lemma Kinds(x: Ctx)
    requires !x.partialHard && |x.subject| > 0
    ensures var n, t, s := |x.subject|, x.tables, x.subject;
            && (forall op | OP_NOT_DIGIT <= op <= OP_ALLANY :: ValidPAlts(Whole(op)))
            && (MPAlts(x, Whole(OP_DIGIT), 0, n) <==> forall k | 0 <= k < n :: t.digit[s[k]])
            && (MPAlts(x, Whole(OP_NOT_DIGIT), 0, n) <==> forall k | 0 <= k < n :: !t.digit[s[k]])
            && (MPAlts(x, Whole(OP_WHITESPACE), 0, n) <==> forall k | 0 <= k < n :: t.space[s[k]])
            && (MPAlts(x, Whole(OP_NOT_WHITESPACE), 0, n) <==> forall k | 0 <= k < n :: !t.space[s[k]])
            && (MPAlts(x, Whole(OP_WORDCHAR), 0, n) <==> forall k | 0 <= k < n :: t.word[s[k]])
            && (MPAlts(x, Whole(OP_NOT_WORDCHAR), 0, n) <==> forall k | 0 <= k < n :: !t.word[s[k]])
            && (MPAlts(x, Whole(OP_ANY), 0, n) <==> forall k | 0 <= k < n :: s[k] != NEWLINE)
            && MPAlts(x, Whole(OP_ALLANY), 0, n)
  {
    hide MPAlts, Whole;
    forall op: Byte | OP_NOT_DIGIT <= op <= OP_ALLANY
      ensures ValidPAlts(Whole(op))
      ensures MPAlts(x, Whole(op), 0, |x.subject|) <==> forall k | 0 <= k < |x.subject| :: KindAt(x.tables, op, x.subject[k])
    {
      WholeOnly(x, op, 0, |x.subject|);
    }
  }

  /** And it matches nothing else. */
  lemma WholeOnly(x: Ctx, op: Byte, i: nat, j: nat)
    requires !x.partialHard && OP_NOT_DIGIT <= op <= OP_ALLANY
    ensures ValidPAlts(Whole(op))
    ensures MPAlts(x, Whole(op), i, j) <==>
            i == 0 < j == |x.subject| && forall k | 0 <= k < |x.subject| :: KindAt(x.tables, op, x.subject[k])
  {
    FramedMatches(x, OP_SOD, op, 1, OP_EOD, i, j);
  }
}
