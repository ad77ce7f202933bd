/** The compiler's checks for anchoring and for matching only at the start of a line: the scans
    over the compiled units, and what their answers mean for where a match can be found. */
module Anchoring {
  import opened Bytecode
  import opened Tree
  import opened Subject
  import opened Semantics
  import opened Graph
  import opened Layout
  import opened EmptyScan
  import opened Lookahead
  import opened Words

  /** A repeat that starts a branch with any number of the character kind `op`. */
  predicate LeadingStar(op: Op, kind: Byte) {
    op.Rep? && op.atom == Kind(kind) && (op.form == STAR || op.form == STAR + 1 || op.form == POSSTAR)
  }

  predicate AnchoredOp(op: Op) {
    match op
    case Test(o) => o == OP_SOD || o == OP_SOM || o == OP_CIRC
    case Rep(_, _, _, _) => LeadingStar(op, OP_ALLANY)
    case Bra(_, _, body, _) => AnchoredAlts(body)
    case Look(o, body) => o == OP_ASSERT && AnchoredAlts(body)
    case _ => false
  }

  predicate AnchoredAlts(al: Alts) {
    al.branch.Cons? && AnchoredOp(al.branch.head) && (al.More? ==> AnchoredAlts(al.rest))
  }

  predicate StartlineOp(op: Op) {
    match op
    case Test(o) => o == OP_CIRC || o == OP_CIRCM
    case Rep(_, _, _, _) => LeadingStar(op, OP_ANY)
    case Bra(_, _, body, _) => StartlineAlts(body)
    case Look(o, body) => o == OP_ASSERT && StartlineAlts(body)
    case _ => false
  }

  predicate StartlineAlts(al: Alts) {
    al.branch.Cons? && StartlineOp(al.branch.head) && (al.More? ==> StartlineAlts(al.rest))
  }

  /** What the two checks accept. */
  predicate Leads(op: Op, line: bool) { if line then StartlineOp(op) else AnchoredOp(op) }

  predicate LeadsAll(al: Alts, line: bool) { if line then StartlineAlts(al) else AnchoredAlts(al) }

  // ----- leading lookaheads -----

  /** A lookahead with this body holds at the start offset at most. */
  ghost predicate NeverPast(t: CharTables, body: Alts)
    requires ValidAlts(body)
  {
    forall x: Ctx, s: nat | x.tables == t && 0 <= x.som < s <= |x.subject| :: !MLook(x, OP_ASSERT, body, s)
  }

  /** A lookahead with this body holds only where a line starts, or at the start offset. */
  ghost predicate NeverInside(t: CharTables, body: Alts)
    requires ValidAlts(body)
  {
    forall x: Ctx, s0: nat, s: nat | x.tables == t && s0 <= s <= |x.subject| && LineStart(x.subject, s0, s) < s ::
      !MLook(x, OP_ASSERT, body, s)
  }

  /** No lookahead at the head of a branch holds where the check takes it not to. */
  ghost predicate Steady(t: CharTables, al: Alts, line: bool)
    requires ValidAlts(al)
    decreases al, 1
  {
    assert ValidOps(al.branch);
    (al.branch.Cons? ==> SteadyOp(t, al.branch.head, line)) && (al.More? ==> Steady(t, al.rest, line))
  }

  ghost predicate SteadyOp(t: CharTables, op: Op, line: bool)
    requires ValidOp(op)
    decreases op, 0
  {
    match op
    case Bra(_, _, body, _) => Steady(t, body, line)
    case Look(o, body) => o == OP_ASSERT ==> if line then NeverInside(t, body) else NeverPast(t, body)
    case _ => true
  }

  /** No branch begins with a positive lookahead. */
  predicate NotAhead(al: Alts) {
    (al.branch.Cons? ==> NotAheadOp(al.branch.head)) && (al.More? ==> NotAhead(al.rest))
  }

  predicate NotAheadOp(op: Op) {
    match op
    case Bra(_, _, body, _) => NotAhead(body)
    case Look(o, _) => o != OP_ASSERT
    case _ => true
  }

  lemma {:induction false} NotAheadSteady(t: CharTables, al: Alts, line: bool)
    requires ValidAlts(al) && NotAhead(al)
    ensures Steady(t, al, line)
    decreases al
  {
    assert ValidOps(al.branch);
    if al.branch.Cons? && al.branch.head.Bra? {
      assert ValidOp(al.branch.head);
      NotAheadSteady(t, al.branch.head.body, line);
    }
    if al.More? {
      NotAheadSteady(t, al.rest, line);
    }
  }

  /** Every branch begins with a test that holds only at the subject's start, or for `line` at the
      start of a line: what one can see of a body that keeps a lookahead in its place. */
  predicate Pinned(al: Alts, line: bool) {
    al.branch.Cons? && PinnedOp(al.branch.head, line) && (al.More? ==> Pinned(al.rest, line))
  }

  predicate PinnedOp(op: Op, line: bool) {
    match op
    case Test(o) => o == OP_SOD || o == OP_CIRC || (line && o == OP_CIRCM)
    case Bra(_, _, body, _) => Pinned(body, line)
    case Look(o, body) => o == OP_ASSERT && Pinned(body, line)
    case _ => false
  }

  /** Where a pinned test can hold. */
  predicate Home(x: Ctx, line: bool, s: nat) { s == 0 || (line && IsNewline(x.subject, s - 1)) }

  lemma {:induction false} PinnedOpHome(x: Ctx, op: Op, line: bool, s: nat, k: nat)
    requires ValidOp(op) && PinnedOp(op, line) && MOp(x, op, s, k)
    ensures Home(x, line, s)
    decreases op, 0
  {
    match op
    case Bra(_, _, body, ket) =>
      if ket == OP_KET {
        PinnedHome(x, body, line, s, k);
      } else {
        var n := LoopElim(x, op, s, k);
        var m := IterElim(x, body, n, s, k);
        PinnedHome(x, body, line, s, m);
      }
    case Look(o, body) =>
      var q := MLookElim(x, o, body, s);
      PinnedHome(x.(som := s), body, line, s, q);
    case _ =>
  }

  lemma {:induction false} PinnedHome(x: Ctx, al: Alts, line: bool, s: nat, j: nat)
    requires ValidAlts(al) && Pinned(al, line) && MAlts(x, al, s, j)
    ensures Home(x, line, s)
    decreases al, 0
  {
    if MOps(x, al.branch, s, j) {
      var k := MOpsElim(x, al.branch, s, j);
      PinnedOpHome(x, al.branch.head, line, s, k);
    } else {
      PinnedHome(x, al.rest, line, s, j);
    }
  }

  /** A body that begins so keeps the lookahead in its place. */
  lemma PinnedKeeps(t: CharTables, body: Alts)
    requires ValidAlts(body)
    ensures Pinned(body, false) ==> NeverPast(t, body)
    ensures Pinned(body, true) ==> NeverInside(t, body)
  {
    hide MAlts;
    forall x: Ctx, s: nat, line: bool | Pinned(body, line) && MLook(x, OP_ASSERT, body, s)
      ensures Home(x, line, s)
    {
      var q := MLookElim(x, OP_ASSERT, body, s);
      PinnedHome(x.(som := s), body, line, s, q);
    }
    assert forall x: Ctx, s: nat | Pinned(body, false) && MLook(x, OP_ASSERT, body, s) :: Home(x, false, s);
    assert forall x: Ctx, s: nat | Pinned(body, true) && MLook(x, OP_ASSERT, body, s) :: Home(x, true, s);
  }

  /** The other beginnings that the checks accept do not: \G is where the lookahead itself stands, and
      a repeat of any characters stands anywhere. Before items that match somewhere past the start,
      only a pinned one keeps the lookahead in its place. */
  lemma LeafExactly(x: Ctx, leaf: Op, rest: Ops, s: nat, j: nat)
    requires ValidOp(leaf) && ValidOps(rest) && (leaf.Test? || leaf.Rep?) && (leaf.Rep? ==> MOp(x, leaf, s, s))
    requires 0 < s <= |x.subject| && x.som == s && MOps(x, rest, s, j) && Recordable(x, s, j)
    ensures AnchoredOp(leaf) ==> (NeverPast(x.tables, Last(Cons(leaf, rest))) <==> PinnedOp(leaf, false))
    ensures StartlineOp(leaf) && !IsNewline(x.subject, s - 1) ==>
      (NeverInside(x.tables, Last(Cons(leaf, rest))) <==> PinnedOp(leaf, true))
  {
    hide MOps;
    var body, y := Last(Cons(leaf, rest)), x.(som := 0);
    PinnedKeeps(x.tables, body);
    if leaf == Test(OP_SOM) || leaf.Rep? {
      assert y.(som := s) == x;
      MOpsCons(x, leaf, rest, s, s, j);
      MLookIntro(y, OP_ASSERT, body, s, j);
      assert MLook(y, OP_ASSERT, body, s);
      if !IsNewline(x.subject, s - 1) {
        assert LineStart(y.subject, 0, s) < s;
      }
    }
  }

  // ----- bodies whose branches can match elsewhere unless they are pinned -----

  /** A beginning without lookaheads, with nothing behind it inside a group that could not match. */
  ghost predicate Flat(t: CharTables, op: Op)
    requires ValidOp(op)
    decreases op, 0
  {
    match op
    case Test(_) => true
    case Rep(_, form, _, _) => form != POSSTAR
    case Bra(_, _, body, _) => FlatAlts(t, body)
    case _ => false
  }

  ghost predicate FlatAlts(t: CharTables, al: Alts)
    requires ValidAlts(al)
    decreases al, 1
  {
    assert ValidOps(al.branch);
    && al.branch.Cons? && Flat(t, al.branch.head) && FillOps(t, al.branch.tail)
    && (al.More? ==> FlatAlts(t, al.rest))
  }

  /** Branches of such a beginning and a rest that can match, or of a lookahead or a group of such branches alone. */
  ghost predicate Spread(t: CharTables, al: Alts)
    requires ValidAlts(al)
    decreases al, 1
  {
    assert ValidOps(al.branch);
    && al.branch.Cons?
    && ((Flat(t, al.branch.head) && FillOps(t, al.branch.tail)) || (al.branch.tail.Nil? && SpreadOp(t, al.branch.head)))
    && (al.More? ==> Spread(t, al.rest))
  }

  ghost predicate SpreadOp(t: CharTables, op: Op)
    requires ValidOp(op)
    decreases op, 0
  {
    match op
    case Bra(_, _, body, _) => Spread(t, body)
    case Look(o, body) => o == OP_ASSERT && Spread(t, body)
    case _ => false
  }

  /** The word is matched at any place that is the run's start offset. */
  ghost predicate SpellsHere(t: CharTables, al: Alts, w: seq<Byte>)
    requires ValidAlts(al)
  {
    forall x: Ctx, i: nat | x.tables == t && x.som == i && Reads(x, i, w) :: MAlts(x, al, i, i + |w|)
  }

  ghost predicate OpSpellsHere(t: CharTables, op: Op, w: seq<Byte>)
    requires ValidOp(op)
  {
    forall x: Ctx, i: nat | x.tables == t && x.som == i && Reads(x, i, w) :: MOp(x, op, i, i + |w|)
  }

  lemma SpellHereCons(t: CharTables, op: Op, rest: Ops, u: seq<Byte>, v: seq<Byte>)
    requires ValidOp(op) && ValidOps(rest) && OpSpellsHere(t, op, u) && OpsSpell(t, rest, v)
    ensures forall x: Ctx, i: nat | x.tables == t && x.som == i && Reads(x, i, u + v) :: MOps(x, Cons(op, rest), i, i + |u + v|)
  {
    hide Reads, MOp;
    forall x: Ctx, i: nat | x.tables == t && x.som == i && Reads(x, i, u + v)
      ensures MOps(x, Cons(op, rest), i, i + |u + v|)
    {
      ReadsParts(x, i, u, v);
      MOpsCons(x, op, rest, i, i + |u|, i + |u| + |v|);
    }
  }

  lemma OnceHere(t: CharTables, op: Op, w: seq<Byte>)
    requires ValidOp(op) && op.Bra? && SpellsHere(t, op.body, w)
    ensures OpSpellsHere(t, op, w)
  {
    hide Reads, MAlts;
    forall x: Ctx, i: nat | x.tables == t && x.som == i && Reads(x, i, w)
      ensures MOp(x, op, i, i + |w|)
    {
      assert Iter(x, op.body, 0, i + |w|, i + |w|);
      IterCons(x, op.body, 0, i, i + |w|, i + |w|);
    }
  }

  lemma {:induction false} FlatWord(t: CharTables, op: Op, line: bool) returns (w: seq<Byte>)
    requires ValidOp(op) && Leads(op, line) && Flat(t, op) && !PinnedOp(op, line)
    ensures OpSpellsHere(t, op, w)
    decreases op, 0
  {
    match op
    case Bra(_, _, body, _) =>
      w := FlatAltsWord(t, body, line);
      OnceHere(t, op, w);
    case _ => w := [];
  }

  lemma {:induction false} FlatAltsWord(t: CharTables, al: Alts, line: bool) returns (w: seq<Byte>)
    requires ValidAlts(al) && LeadsAll(al, line) && FlatAlts(t, al) && !Pinned(al, line)
    ensures SpellsHere(t, al, w)
    decreases al, 1
  {
    hide MOps, MOp, FillOps, Flat, OpSpellsHere, OpsSpell, Reads, PinnedOp;
    if PinnedOp(al.branch.head, line) {
      w := FlatAltsWord(t, al.rest, line);
    } else {
      var u := FlatWord(t, al.branch.head, line);
      var v := OpsWord(t, al.branch.tail);
      SpellHereCons(t, al.branch.head, al.branch.tail, u, v);
      w := u + v;
    }
  }

  /** Where the word stands at the run's start offset, the alternatives match something. */
  ghost predicate HoldsOn(t: CharTables, al: Alts, w: seq<Byte>)
    requires ValidAlts(al)
  {
    forall x: Ctx, i: nat | x.tables == t && x.som == i && TakesEmpty(x) && Reads(x, i, w) :: MatchesFromHere(x, al, i)
  }

  ghost predicate MatchesFromHere(x: Ctx, al: Alts, i: nat)
    requires ValidAlts(al)
  {
    exists j: nat :: MAlts(x, al, i, j)
  }

  lemma {:induction false} SpreadWord(t: CharTables, al: Alts, line: bool) returns (w: seq<Byte>)
    requires ValidAlts(al) && LeadsAll(al, line) && Spread(t, al) && !Pinned(al, line)
    ensures HoldsOn(t, al, w)
    decreases al, 1
  {
    hide MOps, MOp, FillOps, Flat, SpreadOp, OpSpellsHere, OpsSpell, Reads, PinnedOp;
    var head, tail := al.branch.head, al.branch.tail;
    if PinnedOp(head, line) {
      w := SpreadWord(t, al.rest, line);
      RestHolds(t, al, w);
    } else if Flat(t, head) && FillOps(t, tail) {
      var u := FlatWord(t, head, line);
      var v := OpsWord(t, tail);
      SpellHereCons(t, head, tail, u, v);
      w := u + v;
      FirstHolds(t, al, w);
    } else {
      w := SpreadOpWord(t, head, line);
      AloneHolds(t, al, w);
    }
  }

  lemma RestHolds(t: CharTables, al: Alts, w: seq<Byte>)
    requires ValidAlts(al) && al.More? && HoldsOn(t, al.rest, w)
    ensures HoldsOn(t, al, w)
  {
    hide Reads, MOps;
    forall x: Ctx, i: nat | x.tables == t && x.som == i && TakesEmpty(x) && Reads(x, i, w)
      ensures MatchesFromHere(x, al, i)
    {
      assert MatchesFromHere(x, al.rest, i);
      var j: nat :| MAlts(x, al.rest, i, j);
      assert MAlts(x, al, i, j);
    }
  }

  lemma FirstHolds(t: CharTables, al: Alts, w: seq<Byte>)
    requires ValidAlts(al)
    requires forall x: Ctx, i: nat | x.tables == t && x.som == i && Reads(x, i, w) :: MOps(x, al.branch, i, i + |w|)
    ensures HoldsOn(t, al, w)
  {
    hide Reads, MOps;
    forall x: Ctx, i: nat | x.tables == t && x.som == i && TakesEmpty(x) && Reads(x, i, w)
      ensures MatchesFromHere(x, al, i)
    {
      assert MAlts(x, al, i, i + |w|);
    }
  }

  ghost predicate OpHoldsOn(t: CharTables, op: Op, w: seq<Byte>)
    requires ValidOp(op)
  {
    forall x: Ctx, i: nat | x.tables == t && x.som == i && TakesEmpty(x) && Reads(x, i, w) :: exists j: nat :: MOp(x, op, i, j)
  }

  lemma AloneHolds(t: CharTables, al: Alts, w: seq<Byte>)
    requires ValidAlts(al) && al.branch.Cons? && al.branch.tail.Nil? && ValidOp(al.branch.head) && OpHoldsOn(t, al.branch.head, w)
    ensures HoldsOn(t, al, w)
  {
    hide MOp, Reads;
    forall x: Ctx, i: nat | x.tables == t && x.som == i && TakesEmpty(x) && Reads(x, i, w)
      ensures MatchesFromHere(x, al, i)
    {
      var j: nat :| MOp(x, al.branch.head, i, j);
      assert ValidOps(Nil) && MOps(x, Nil, j, j);
      MOpsCons(x, al.branch.head, Nil, i, j, j);
      assert MAlts(x, al, i, j);
    }
  }

  lemma {:induction false} SpreadOpWord(t: CharTables, op: Op, line: bool) returns (w: seq<Byte>)
    requires ValidOp(op) && Leads(op, line) && SpreadOp(t, op) && !PinnedOp(op, line)
    ensures OpHoldsOn(t, op, w)
    decreases op, 0
  {
    hide MAlts, Reads, Spread, MLook;
    w := SpreadWord(t, op.body, line);
    forall x: Ctx, i: nat | x.tables == t && x.som == i && TakesEmpty(x) && Reads(x, i, w)
      ensures exists j: nat :: MOp(x, op, i, j)
    {
      assert MatchesFromHere(x, op.body, i) && x.(som := i) == x;
      var j: nat :| MAlts(x, op.body, i, j);
      if op.Look? {
        MLookIntro(x, op.op, op.body, i, j);
        assert MOp(x, op, i, i);
      } else {
        assert Iter(x, op.body, 0, j, j);
        IterCons(x, op.body, 0, i, j, j);
        assert MOp(x, op, i, j);
      }
    }
  }

  /** Such a body keeps a lookahead in its place exactly if it is pinned: in groups and nested lookaheads, too. */
  lemma PinnedExactly(t: CharTables, body: Alts, line: bool)
    requires ValidAlts(body) && LeadsAll(body, line) && Spread(t, body)
    ensures Pinned(body, line) <==> if line then NeverInside(t, body) else NeverPast(t, body)
  {
    hide MAlts, MLook, Pinned, Spread, LeadsAll;
    PinnedKeeps(t, body);
    if !Pinned(body, line) {
      var w := SpreadWord(t, body, line);
      var x := Ctx(t, [0] + w, false, false, false, false, 0, false, false, 0);
      assert x.subject[1..1 + |w|] == w;
      assert Reads(x.(som := 1), 1, w);
      assert MatchesFromHere(x.(som := 1), body, 1);
      var j: nat :| MAlts(x.(som := 1), body, 1, j);
      MLookIntro(x, OP_ASSERT, body, 1, j);
      assert MLook(x, OP_ASSERT, body, 1) && LineStart(x.subject, 0, 1) < 1;
    }
  }

  // ----- anchored patterns match from the start offset or not at all -----

  lemma {:induction false} AnchoredOpSound(x: Ctx, op: Op, s0: nat, s: nat, k: nat)
    requires ValidOp(op) && AnchoredOp(op) && SteadyOp(x.tables, op, false) && x.som == s0 <= s <= |x.subject| && MOp(x, op, s, k)
    ensures MOp(x, op, s0, k)
    decreases op, 0
  {
    match op
    case Bra(_, _, body, ket) =>
      if ket == OP_KET {
        AnchoredSound(x, body, s0, s, k);
      } else {
        var n := LoopElim(x, op, s, k);
        var m := IterElim(x, body, n, s, k);
        AnchoredSound(x, body, s0, s, m);
        IterCons(x, body, n - 1, s0, m, k);
        assert Iter(x, body, n, s0, k);
      }
    case _ =>
  }

  /** If it matches from anywhere at or after the start offset, then from the start offset itself. */
  lemma {:induction false} AnchoredSound(x: Ctx, al: Alts, s0: nat, s: nat, j: nat)
    requires ValidAlts(al) && AnchoredAlts(al) && Steady(x.tables, al, false) && x.som == s0 <= s <= |x.subject| && MAlts(x, al, s, j)
    ensures MAlts(x, al, s0, j)
    decreases al, 0
  {
    if MOps(x, al.branch, s, j) {
      var k := MOpsElim(x, al.branch, s, j);
      AnchoredOpSound(x, al.branch.head, s0, s, k);
      MOpsCons(x, al.branch.head, al.branch.tail, s0, k, j);
    } else {
      AnchoredSound(x, al.rest, s0, s, j);
    }
  }

  const LETTER_B: Byte := 98
  const ANY_THEN_B: Alts := Last(Cons(Rep(Kind(OP_ALLANY), STAR, 0, 0), Cons(One(Lit(LETTER_B, false)), Nil)))

  lemma StartsWithB(x: Ctx, look: Op, j: nat)
    requires look.Look? && ValidOps(Cons(look, Cons(One(Lit(LETTER_B, false)), Nil)))
    requires MOps(x, Cons(look, Cons(One(Lit(LETTER_B, false)), Nil)), 0, j)
    ensures 0 < |x.subject| && x.subject[0] == LETTER_B
  {
    var last := Cons(One(Lit(LETTER_B, false)), Nil);
    var k := MOpsElim(x, Cons(look, last), 0, j);
    var m := MOpsElim(x, last, k, j);
  }

  /** "(?=.*b)b" with dot matching everything: the check takes it to be anchored, but in "ab" it
      matches at the second character and not at the first. */
  lemma AnchoredAheadBreaks(t: CharTables)
    ensures var al := Last(Cons(Look(OP_ASSERT, ANY_THEN_B), Cons(One(Lit(LETTER_B, false)), Nil)));
            var x := Ctx(t, [97, LETTER_B], false, false, false, false, 0, false, false, 0);
            && ValidAlts(al) && AnchoredAlts(al) && MAlts(x, al, 1, 2) && forall j: nat :: !MAlts(x, al, 0, j)
  {
    var x := Ctx(t, [97, LETTER_B], false, false, false, false, 0, false, false, 0);
    var b := One(Lit(LETTER_B, false));
    var any := Rep(Kind(OP_ALLANY), STAR, 0, 0);
    var last := Cons(b, Nil);
    assert ValidOps(Nil) && ValidOps(last) && ValidOps(Cons(any, last)) && ValidAlts(ANY_THEN_B);
    var look := Look(OP_ASSERT, ANY_THEN_B);
    assert ValidOp(look) && ValidOps(Cons(look, last));
    var al := Last(Cons(look, last));
    var y := x.(som := 1);
    assert MOps(y, Nil, 2, 2) && MOps(x, Nil, 2, 2);
    MOpsCons(y, b, Nil, 1, 2, 2);
    MOpsCons(x, b, Nil, 1, 2, 2);
    assert MOp(y, any, 1, 1);
    MOpsCons(y, any, last, 1, 1, 2);
    assert MAlts(y, ANY_THEN_B, 1, 2);
    MLookIntro(x, OP_ASSERT, ANY_THEN_B, 1, 2);
    MOpsCons(x, look, last, 1, 1, 2);
    forall j: nat
      ensures !MAlts(x, al, 0, j)
    {
      if MAlts(x, al, 0, j) {
        StartsWithB(x, look, j);
      }
    }
  }

  /** The start offset, or the latest line start up to `s`. */
  function LineStart(subject: seq<Byte>, s0: nat, s: nat): (p: nat)
    requires s0 <= s <= |subject|
    ensures s0 <= p <= s && (p == s0 || IsNewline(subject, p - 1))
    ensures forall m | p <= m < s :: subject[m] != NEWLINE
    decreases s
  {
    if s == s0 || subject[s - 1] == NEWLINE then s else LineStart(subject, s0, s - 1)
  }

  lemma {:induction false} StartlineOpSound(x: Ctx, op: Op, s0: nat, s: nat, k: nat)
    requires ValidOp(op) && StartlineOp(op) && SteadyOp(x.tables, op, true) && s0 <= s <= |x.subject| && MOp(x, op, s, k)
    ensures MOp(x, op, LineStart(x.subject, s0, s), k)
    decreases op, 0
  {
    var p := LineStart(x.subject, s0, s);
    match op
    case Bra(_, _, body, ket) =>
      if ket == OP_KET {
        StartlineSound(x, body, s0, s, k);
      } else {
        var n := LoopElim(x, op, s, k);
        var m := IterElim(x, body, n, s, k);
        StartlineSound(x, body, s0, s, m);
        IterCons(x, body, n - 1, p, m, k);
        assert Iter(x, body, n, p, k);
      }
    case Rep(a, form, n, m) =>
      assert forall c | p <= c < s :: AtomAt(x.tables, a, x.subject[c]);
    case _ =>
  }

  /** If it matches from `s`, then from the start of that line, or from the start offset. */
  lemma {:induction false} StartlineSound(x: Ctx, al: Alts, s0: nat, s: nat, j: nat)
    requires ValidAlts(al) && StartlineAlts(al) && Steady(x.tables, al, true) && s0 <= s <= |x.subject| && MAlts(x, al, s, j)
    ensures MAlts(x, al, LineStart(x.subject, s0, s), j)
    decreases al, 0
  {
    if MOps(x, al.branch, s, j) {
      var k := MOpsElim(x, al.branch, s, j);
      StartlineOpSound(x, al.branch.head, s0, s, k);
      MOpsCons(x, al.branch.head, al.branch.tail, LineStart(x.subject, s0, s), k, j);
    } else {
      StartlineSound(x, al.rest, s0, s, j);
    }
  }

  // ----- which lookaheads spoil the checks -----

  /** Whatever follows it, this item never makes a branch match from `s` but not from the start
      offset. */
  ghost predicate AnchorKept(t: CharTables, op: Op)
    requires ValidOp(op)
  {
    forall x: Ctx, tail: Ops, s: nat, j: nat
      | x.tables == t && ValidOps(tail) && 0 <= x.som <= s <= |x.subject| && MOps(x, Cons(op, tail), s, j) ::
      MatchesFrom(x, Cons(op, tail), x.som)
  }

  /** The same for the start of the line. */
  ghost predicate LineKept(t: CharTables, op: Op)
    requires ValidOp(op)
  {
    forall x: Ctx, tail: Ops, s0: nat, s: nat, j: nat
      | x.tables == t && ValidOps(tail) && s0 <= s <= |x.subject| && MOps(x, Cons(op, tail), s, j) ::
      MatchesFrom(x, Cons(op, tail), LineStart(x.subject, s0, s))
  }

  ghost predicate MatchesFrom(x: Ctx, ops: Ops, s: nat)
    requires ValidOps(ops)
  {
    exists j: nat :: MOps(x, ops, s, j)
  }

  const ANY_ONE: Op := One(Kind(OP_ALLANY))

  /** Exactly `m` more characters, and then the subject's end. */
  function ToEnd(m: nat): Ops {
    if m == 0 then Cons(Look(OP_ASSERT_NOT, Last(Cons(ANY_ONE, Nil))), Nil) else Cons(ANY_ONE, ToEnd(m - 1))
  }

  lemma NothingMore(x: Ctx, p: nat)
    requires p <= |x.subject|
    ensures ValidOps(ToEnd(0)) && (MLook(x, OP_ASSERT_NOT, Last(Cons(ANY_ONE, Nil)), p) <==> p < |x.subject|)
  {
    var body := Last(Cons(ANY_ONE, Nil));
    assert ValidOps(Nil) && ValidOps(Cons(ANY_ONE, Nil)) && ValidAlts(body) && ValidOp(Look(OP_ASSERT_NOT, body));
    var y := x.(som := p);
    if p < |x.subject| {
      assert MOps(y, Nil, p + 1, p + 1);
      MOpsCons(y, ANY_ONE, Nil, p, p + 1, p + 1);
      MLookIntro(x, OP_ASSERT_NOT, body, p, p + 1);
    } else if MLook(x, OP_ASSERT_NOT, body, p) {
      OneNeeded(x, p);
    }
  }

  lemma OneNeeded(x: Ctx, p: nat)
    requires ValidAlts(Last(Cons(ANY_ONE, Nil))) && MLook(x, OP_ASSERT_NOT, Last(Cons(ANY_ONE, Nil)), p)
    ensures p < |x.subject|
  {
    var q := MLookElim(x, OP_ASSERT_NOT, Last(Cons(ANY_ONE, Nil)), p);
    var k := MOpsElim(x.(som := p), Cons(ANY_ONE, Nil), p, q);
  }

  lemma {:induction false} ToEndExactly(x: Ctx, m: nat, i: nat, j: nat)
    requires i <= |x.subject|
    ensures ValidOps(ToEnd(m)) && (MOps(x, ToEnd(m), i, j) <==> i + m == j == |x.subject|)
    decreases m
  {
    if m == 0 {
      NothingMore(x, i);
      assert ValidOps(Nil) && (MOps(x, Nil, i, j) <==> i == j);
      if i == j == |x.subject| {
        MOpsCons(x, ToEnd(0).head, Nil, i, i, i);
      }
    } else {
      ToEndExactly(x, m - 1, 0, 0);
      if i < |x.subject| {
        ToEndExactly(x, m - 1, i + 1, j);
        if i + m == j == |x.subject| {
          MOpsCons(x, ANY_ONE, ToEnd(m - 1), i, i + 1, j);
        }
      }
      if MOps(x, ToEnd(m), i, j) {
        var k := MOpsElim(x, ToEnd(m), i, j);
      }
    }
  }

  /** A lookahead that holds at `s`, and a tail with which the branch matches from there alone. */
  lemma OnlyFrom(x: Ctx, look: Op, p: nat, s: nat) returns (tail: Ops)
    requires ValidOp(look) && look.Look? && p < s <= |x.subject| && MOp(x, look, s, s)
    ensures ValidOps(tail) && MOps(x, Cons(look, tail), s, |x.subject|) && !MatchesFrom(x, Cons(look, tail), p)
  {
    hide MOp, MLook;
    var n := |x.subject|;
    tail := ToEnd(n - s);
    ToEndExactly(x, n - s, s, n);
    MOpsCons(x, look, tail, s, s, n);
    forall j: nat
      ensures !MOps(x, Cons(look, tail), p, j)
    {
      if MOps(x, Cons(look, tail), p, j) {
        var k := MOpsElim(x, Cons(look, tail), p, j);
        assert k == p by { LookStays(x, look, p, k); }
        ToEndExactly(x, n - s, p, j);
        assert false;
      }
    }
  }

  lemma LookStays(x: Ctx, look: Op, i: nat, k: nat)
    requires ValidOp(look) && look.Look? && MOp(x, look, i, k)
    ensures i == k
  {
  }

  /** A leading lookahead is sound for the anchoring check, whatever follows it, exactly if it never
      holds past the start offset. */
  lemma AnchoredAheadExactly(t: CharTables, body: Alts)
    requires ValidAlts(body)
    ensures ValidOp(Look(OP_ASSERT, body)) && (AnchorKept(t, Look(OP_ASSERT, body)) <==> NeverPast(t, body))
  {
    hide MOps;
    var look := Look(OP_ASSERT, body);
    if NeverPast(t, body) {
      forall x: Ctx, tail: Ops, s: nat, j: nat
        | x.tables == t && ValidOps(tail) && 0 <= x.som <= s <= |x.subject| && MOps(x, Cons(look, tail), s, j)
        ensures MatchesFrom(x, Cons(look, tail), x.som)
      {
        var k := MOpsElim(x, Cons(look, tail), s, j);
      }
    } else {
      var x: Ctx, s: nat :| x.tables == t && 0 <= x.som < s <= |x.subject| && MLook(x, OP_ASSERT, body, s);
      var tail := OnlyFrom(x, look, x.som, s);
    }
  }

  /** And for the check of line starts exactly if it never holds inside a line. */
  lemma StartlineAheadExactly(t: CharTables, body: Alts)
    requires ValidAlts(body)
    ensures ValidOp(Look(OP_ASSERT, body)) && (LineKept(t, Look(OP_ASSERT, body)) <==> NeverInside(t, body))
  {
    hide MOps, LineStart;
    var look := Look(OP_ASSERT, body);
    if NeverInside(t, body) {
      forall x: Ctx, tail: Ops, s0: nat, s: nat, j: nat
        | x.tables == t && ValidOps(tail) && s0 <= s <= |x.subject| && MOps(x, Cons(look, tail), s, j)
        ensures MatchesFrom(x, Cons(look, tail), LineStart(x.subject, s0, s))
      {
        var k := MOpsElim(x, Cons(look, tail), s, j);
        LineAt(x.subject, s0, s);
      }
    } else {
      var x: Ctx, s0: nat, s: nat :|
        x.tables == t && s0 <= s <= |x.subject| && LineStart(x.subject, s0, s) < s && MLook(x, OP_ASSERT, body, s);
      var tail := OnlyFrom(x, look, LineStart(x.subject, s0, s), s);
    }
  }

  lemma LineAt(subject: seq<Byte>, s0: nat, s: nat)
    requires s0 <= s <= |subject|
    ensures LineStart(subject, s0, s) <= s
  {
  }

  // ----- the scans -----

  /** What the first units of an item tell these scans. */
  lemma StarUnits(code: seq<Byte>, o: nat, op: Op)
    requires ValidOp(op) && Placed(code, o, EncOp(op)) && At(code, o) == Lead(op)
    ensures var u := Lead(op);
            (u == OP_TYPESTAR || u == OP_TYPESTAR + 1 || u == OP_TYPESTAR + POSSTAR)
            <==> op.Rep? && op.atom.Kind? && (op.form == STAR || op.form == STAR + 1 || op.form == POSSTAR)
    ensures op.Rep? && op.atom.Kind? && (op.form == STAR || op.form == STAR + 1 || op.form == POSSTAR) ==>
      At(code, o + 1) == op.atom.op
    ensures (IsTest(Lead(op)) <==> op.Test?) && (op.Test? ==> Lead(op) == op.op)
  {
    if op.Rep? && !op.atom.Class? {
      var u := Lead(op);
      assert (u - OP_STAR) % 13 == op.form && (u - OP_STAR) / 13 == Family(op.atom);
      DecodeCharRepeat(code, o, op.atom, op.form, op.n, op.m);
      if op.atom.Kind? && !Counted(op.form) {
        HoldsAt(code, o, EncOp(op), 1);
      }
    }
  }

  /** The branch at hand begins with an item, or ends at once. */
  lemma BranchUnits(code: seq<Byte>, h: nat, ops: Ops, f: nat)
    requires Remains(code, h, ops, f)
    ensures ops.Nil? ==> At(code, h) == OP_ALT || IsKet(At(code, h))
    ensures ops.Cons? ==>
      && ValidOp(ops.head) && Placed(code, h, EncOp(ops.head)) && At(code, h) == Lead(ops.head)
      && (ops.head.Look? <==> IsLook(At(code, h))) && (ops.head.Bra? <==> IsGroup(At(code, h)))
      && (ops.head.Look? || ops.head.Bra? ==> At(code, h) == ops.head.op)
      && At(code, h) != OP_ALT && !IsKet(At(code, h))
  {
    hide Remains, EncOp;
    Head(code, h, ops, f);
    if ops.Cons? {
      LeadLook(ops.head);
    }
  }

  lemma LookHeading(code: seq<Byte>, o: nat, l: Op)
    requires ValidOp(l) && l.Look? && l.op == OP_ASSERT && Placed(code, o, EncOp(l))
    ensures At(code, o) == l.op && Heading(code, o, l.body, false, o + 1 + LINK_SIZE) && OpLengths(l.op) == 1 + LINK_SIZE
  {
    hide Entries, Decode, EncAlts, EncBranch, Offsets, ToKet, EncOpen;
    var h, k := Bracket(code, o, l.op, 0, l.body, OP_KET, false);
  }

  /** Do all branches from `start` on begin in a way that anchors them? */
  method IsAnchored(code: seq<Byte>, start: nat, ghost al: Alts, ghost h0: nat) returns (r: bool)
    requires ValidAlts(al) && Heading(code, start, al, false, h0) && h0 == start + OpLengths(At(code, start))
    ensures r == AnchoredAlts(al)
    decreases al
  {
    hide EncAlts, EncBranch, EncOp, Heading, ToKet, Remains, EncOps, Lead, OpLengths, Placed, Get;
    var k: nat := start;
    ghost var rest := al;
    ghost var h: nat := h0;
    while true
      invariant (rest == al || rest < al) && ValidAlts(rest) && Heading(code, k, rest, false, h) && h == k + OpLengths(At(code, k))
      invariant AnchoredAlts(al) == AnchoredAlts(rest)
      decreases rest
    {
      ghost var f := h + |EncBranch(rest.branch, false)|;
      BranchRemains(code, k, rest, h, f);
      var scode := k + OpLengths(At(code, k));
      var op := At(code, scode);
      BranchUnits(code, h, rest.branch, f);
      if rest.branch.Cons? { StarUnits(code, h, rest.branch.head); }
      if IsGroup(op) {
        GroupHeading(code, scode, rest.branch.head);
        var inner := IsAnchored(code, scode, rest.branch.head.body, scode + HeaderLen(op));
        if !inner { return false; }
      } else if op == OP_ASSERT {
        LookHeading(code, scode, rest.branch.head);
        var inner := IsAnchored(code, scode, rest.branch.head.body, scode + 1 + LINK_SIZE);
        if !inner { return false; }
      } else if op == OP_TYPESTAR || op == OP_TYPESTAR + 1 || op == OP_TYPESTAR + POSSTAR {
        if At(code, scode + 1) != OP_ALLANY { return false; }
      } else if op != OP_SOD && op != OP_SOM && op != OP_CIRC {
        return false;
      }
      k := k + Get(code, k + 1);
      if At(code, k) != OP_ALT { return true; }
      AltLength(code, k);
      rest, h := rest.rest, f + 1 + LINK_SIZE;
    }
  }

  /** Do all branches begin with ^ or with .* ? */
  method IsStartline(code: seq<Byte>, start: nat, ghost al: Alts, ghost h0: nat) returns (r: bool)
    requires ValidAlts(al) && Heading(code, start, al, false, h0) && h0 == start + OpLengths(At(code, start))
    ensures r == StartlineAlts(al)
    decreases al
  {
    hide EncAlts, EncBranch, EncOp, Heading, ToKet, Remains, EncOps, Lead, OpLengths, Placed, Get;
    var k: nat := start;
    ghost var rest := al;
    ghost var h: nat := h0;
    while true
      invariant (rest == al || rest < al) && ValidAlts(rest) && Heading(code, k, rest, false, h) && h == k + OpLengths(At(code, k))
      invariant StartlineAlts(al) == StartlineAlts(rest)
      decreases rest
    {
      ghost var f := h + |EncBranch(rest.branch, false)|;
      BranchRemains(code, k, rest, h, f);
      var scode := k + OpLengths(At(code, k));
      var op := At(code, scode);
      BranchUnits(code, h, rest.branch, f);
      if rest.branch.Cons? { StarUnits(code, h, rest.branch.head); }
      if IsGroup(op) {
        GroupHeading(code, scode, rest.branch.head);
        var inner := IsStartline(code, scode, rest.branch.head.body, scode + HeaderLen(op));
        if !inner { return false; }
      } else if op == OP_ASSERT {
        LookHeading(code, scode, rest.branch.head);
        var inner := IsStartline(code, scode, rest.branch.head.body, scode + 1 + LINK_SIZE);
        if !inner { return false; }
      } else if op == OP_TYPESTAR || op == OP_TYPESTAR + 1 || op == OP_TYPESTAR + POSSTAR {
        if At(code, scode + 1) != OP_ANY { return false; }
      } else if op != OP_CIRC && op != OP_CIRCM {
        return false;
      }
      k := k + Get(code, k + 1);
      if At(code, k) != OP_ALT { return true; }
      AltLength(code, k);
      rest, h := rest.rest, f + 1 + LINK_SIZE;
    }
  }

  lemma AltLength(code: seq<Byte>, k: nat)
    requires At(code, k) == OP_ALT
    ensures OpLengths(At(code, k)) == 1 + LINK_SIZE
  {
  }
}
