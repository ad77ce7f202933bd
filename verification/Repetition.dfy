/** The real pass over the quantifier of a character or class: the item already in the buffer is
    overwritten by the repeat, which may afterwards be made possessive in place. */
module Repetition {
  import opened Bytecode
  import opened Tree
  import opened Subject
  import opened Pattern
  import opened Expansion
  import opened Estimate
  import opened EmptyScan
  import opened Replication
  import opened Buffer

  /** First opcode of the family of repeats that an atom belongs to. */
  function FamilyStar(a: Atom): nat { OP_STAR + 13 * Family(a) }

  lemma RepUnits(a: Atom, form: nat, n: nat)
    requires ValidRep(a, form, n, 0) && !a.Class?
    ensures FamilyStar(a) + form < OP_CRSTAR
    ensures EncOp(Rep(a, form, n, 0)) == [FamilyStar(a) + form] + (if Counted(form) then Two(n) else []) + [Payload(a)]
  {
    hide Two;
  }

  lemma PairUnits(x: Op, y: Op)
    requires ValidOp(x) && ValidOp(y)
    ensures ValidOps(Cons(x, Cons(y, Nil))) && EncOps(Cons(x, Cons(y, Nil))) == EncOp(x) + EncOp(y)
  {
    hide EncOp;
    OneUnits(y);
    var ops := Cons(y, Nil);
    assert EncOps(Cons(x, ops)) == EncOp(x) + EncOps(ops);
  }

  /** The repeat opcode of `form` and its count, without the character. */
  function RepHead(a: Atom, form: nat, n: nat): (s: seq<Byte>)
    requires form < 13
    ensures s != []
  {
    [(FamilyStar(a) + form) % 256] + if Counted(form) then Two(n) else []
  }

  lemma RepParts(a: Atom, form: nat, n: nat)
    requires ValidRep(a, form, n, 0) && !a.Class?
    ensures EncOp(Rep(a, form, n, 0)) == RepHead(a, form, n) + [Payload(a)]
  {
    hide Two, EncOp;
    RepUnits(a, form, n);
  }

  /** The open part of a repeat: its form, and its count if it carries one. */
  function OpenForm(hi: int): nat { if hi < 0 then STAR else if hi == 1 then QUERY else UPTO }

  function OpenCount(hi: int): nat { if hi > 1 then hi else 0 }

  /** Emit a quantified character over the character at `previous`. */
  method EmitChar(buf: array<Byte>, previous: nat, code0: nat, a: Atom, q: Quant, ghost base: seq<Byte>) returns (code: nat)
    requires ValidAtom(a) && !a.Class? && ValidQuant(q)
    requires previous == |base| && code0 <= buf.Length && buf[..code0] == base + EncAtom(a)
    requires |base| + RepeatUnits(a, q) <= buf.Length
    modifies buf
    ensures ValidOps(ExpandChar(a, q, false)) && code <= buf.Length && buf[..code] == base + EncOps(ExpandChar(a, q, false))
  {
    hide EncOp, EncOps, Two, Payload, RepHead;
    var z := if q.greed == Lazy then 1 else 0;
    var c := [Payload(a)];
    code := previous;
    assert buf[..previous] == buf[..code0][..previous] == base;
    if q.max == 0 {
      EmptyUnits(base);
      return;
    }
    if q.min == 1 && q.max >= 0 {
      // The item stays in place.
      code := code0;
      OneIs(a);
      if q.max == 1 {
        OneUnits(One(a));
        return;
      }
      RepParts(a, UPTO + z, q.max - 1);
      HeadSize(a, UPTO + z, q.max - 1);
      PairUnits(One(a), Rep(a, UPTO + z, q.max - 1, 0));
      code := Emit(buf, code, RepHead(a, UPTO + z, q.max - 1) + c);
      Assoc(base, EncAtom(a), RepHead(a, UPTO + z, q.max - 1) + c);
    } else if q.min < 2 {
      var form := (if q.min == 1 then PLUS else OpenForm(q.max)) + z;
      var n := OpenCount(q.max);
      RepParts(a, form, n);
      HeadSize(a, form, n);
      OneUnits(Rep(a, form, n, 0));
      code := Emit(buf, code, RepHead(a, form, n) + c);
    } else {
      code := EmitExact(buf, previous, a, q, z, base);
    }
  }

  /** A minimum of two or more: an EXACT, and an open part when there is more. */
  method EmitExact(buf: array<Byte>, previous: nat, a: Atom, q: Quant, z: nat, ghost base: seq<Byte>) returns (code: nat)
    requires ValidAtom(a) && !a.Class? && ValidQuant(q) && q.min >= 2 && q.max != 0 && z == Lazier(q, false)
    requires previous == |base| && previous <= buf.Length && buf[..previous] == base
    requires |base| + RepeatUnits(a, q) <= buf.Length
    modifies buf
    ensures ValidOps(ExpandChar(a, q, false)) && code <= buf.Length && buf[..code] == base + EncOps(ExpandChar(a, q, false))
  {
    hide EncOp, EncOps, Two, Payload, RepHead;
    var c := [Payload(a)];
    RepParts(a, EXACT, q.min);
    HeadSize(a, EXACT, q.min);
    code := Emit(buf, previous, RepHead(a, EXACT, q.min));
    Assoc(base, RepHead(a, EXACT, q.min), c);
    if q.max == q.min {
      OneUnits(Rep(a, EXACT, q.min, 0));
      code := Emit(buf, code, c);
    } else {
      var hi := if q.max < 0 then q.max else q.max - q.min;
      var form, n := OpenForm(hi) + z, OpenCount(hi);
      RepParts(a, form, n);
      HeadSize(a, form, n);
      PairUnits(Rep(a, EXACT, q.min, 0), Rep(a, form, n, 0));
      code := Emit(buf, code, c);
      code := Emit(buf, code, RepHead(a, form, n));
      code := Emit(buf, code, c);
      ghost var head, exact := RepHead(a, form, n), RepHead(a, EXACT, q.min) + c;
      Assoc(base + exact, head, c);
      Assoc(base, exact, head + c);
    }
  }

  lemma EmptyUnits(base: seq<Byte>)
    ensures EncOps(Nil) == [] && base + [] == base
  {
  }

  lemma OneIs(a: Atom)
    requires ValidAtom(a)
    ensures ValidOp(One(a)) && EncOp(One(a)) == EncAtom(a) && |EncAtom(a)| == AtomUnits(a)
  {
  }

  lemma HeadSize(a: Atom, form: nat, n: nat)
    requires form < 13
    ensures |RepHead(a, form, n)| == if Counted(form) then 3 else 1
  {
  }

  /** The possessive opcode for a greedy one, in every family. */
  function PossessiveForm(form: nat): (f: nat)
    ensures f < 13
  {
    if form == STAR then POSSTAR else if form == PLUS then POSPLUS else if form == QUERY then POSQUERY else POSUPTO
  }

  function PossessiveUnit(u: Byte): Byte
    requires OP_STAR <= u < OP_CRSTAR
  {
    var f := (u - OP_STAR) % 13;
    if f == STAR || f == PLUS || f == QUERY || f == UPTO then (u - f + PossessiveForm(f)) % 256 else u
  }

  /** Exact repeats that are passed over before a repeat is made possessive; the caseless
      families are missing. */
  predicate PassedExact(u: Byte) { u == OP_STAR + EXACT || u == OP_NOTSTAR + EXACT || u == OP_TYPESTAR + EXACT }

  lemma HeadHardened(a: Atom, form: nat, n: nat)
    requires form == STAR || form == PLUS || form == QUERY || form == UPTO
    ensures OP_STAR <= RepHead(a, form, n)[0] < OP_CRSTAR && !PassedExact(RepHead(a, form, n)[0])
    ensures RepHead(a, form, n)[0] == FamilyStar(a) + form
    ensures RepHead(a, PossessiveForm(form), n) == [PossessiveUnit(RepHead(a, form, n)[0])] + RepHead(a, form, n)[1..]
  {
    hide Two;
    var u: Byte := FamilyStar(a) + form;
    FamilyForm(a, form);
    assert RepHead(a, form, n)[1..] == RepHead(a, PossessiveForm(form), n)[1..];
  }

  lemma FamilyForm(a: Atom, form: nat)
    requires form < 13
    ensures OP_STAR <= FamilyStar(a) + form < OP_CRSTAR && (FamilyStar(a) + form - OP_STAR) % 13 == form
    ensures form != EXACT ==> !PassedExact(FamilyStar(a) + form)
  {
    var f := Family(a);
    assert f == 0 || f == 1 || f == 2 || f == 3 || f == 4;
  }

  lemma ExactUnit(a: Atom, n: nat)
    requires !a.Class? && ((a.Lit? || a.NotLit?) ==> !a.nocase)
    ensures RepHead(a, EXACT, n)[0] == FamilyStar(a) + EXACT && PassedExact(RepHead(a, EXACT, n)[0])
    ensures |RepHead(a, EXACT, n)| + 1 == OpLengths(RepHead(a, EXACT, n)[0])
  {
    assert (FamilyStar(a) + EXACT - OP_STAR) % 13 == EXACT;
  }

  /** The units of a greedy repeat, split where the opcode that becomes possessive stands. */
  ghost predicate SplitAt(a: Atom, q: Quant, front: seq<Byte>, form: nat, n: nat)
    requires ValidQuant(q)
  {
    && (form == STAR || form == PLUS || form == QUERY || form == UPTO)
    && ValidOps(ExpandChar(a, q.(greed := Greedy), false)) && ValidOps(ExpandChar(a, q, true))
    && EncOps(ExpandChar(a, q.(greed := Greedy), false)) == front + (RepHead(a, form, n) + [Payload(a)])
    && EncOps(ExpandChar(a, q, true)) == front + (RepHead(a, PossessiveForm(form), n) + [Payload(a)])
  }

  lemma OpenSplit(a: Atom, q: Quant) returns (form: nat, n: nat)
    requires ValidAtom(a) && !a.Class? && ValidQuant(q) && q.max != 0 && q.min < 2 && !(q.min == 1 && q.max >= 0)
    ensures SplitAt(a, q, [], form, n)
  {
    hide EncOp, EncOps, Two, Payload, RepHead;
    form := if q.min == 1 then PLUS else OpenForm(q.max);
    n := OpenCount(q.max);
    var p := PossessiveForm(form);
    RepParts(a, form, n);
    RepParts(a, p, n);
    OneUnits(Rep(a, form, n, 0));
    OneUnits(Rep(a, p, n, 0));
    assert forall s: seq<Byte> :: [] + s == s;
  }

  lemma ExactSplit(a: Atom, q: Quant) returns (form: nat, n: nat)
    requires ValidAtom(a) && !a.Class? && ValidQuant(q) && q.max != 0 && q.min >= 2 && q.max != q.min
    ensures SplitAt(a, q, RepHead(a, EXACT, q.min) + [Payload(a)], form, n)
  {
    hide EncOp, EncOps, Two, Payload, RepHead;
    var hi := if q.max < 0 then q.max else q.max - q.min;
    form, n := OpenForm(hi), OpenCount(hi);
    var p := PossessiveForm(form);
    RepParts(a, EXACT, q.min);
    RepParts(a, form, n);
    RepParts(a, p, n);
    PairUnits(Rep(a, EXACT, q.min, 0), Rep(a, form, n, 0));
    PairUnits(Rep(a, EXACT, q.min, 0), Rep(a, p, n, 0));
  }

  /** {n}: there is nothing to make possessive. */
  lemma SameExact(a: Atom, q: Quant)
    requires ValidAtom(a) && !a.Class? && ValidQuant(q) && q.min >= 2 && q.max == q.min
    ensures ExpandChar(a, q, true) == ExpandChar(a, q.(greed := Greedy), false) && ValidOps(ExpandChar(a, q, true))
    ensures EncOps(ExpandChar(a, q, true)) == RepHead(a, EXACT, q.min) + [Payload(a)]
  {
    hide EncOp, EncOps, Two, Payload, RepHead;
    RepParts(a, EXACT, q.min);
    OneUnits(Rep(a, EXACT, q.min, 0));
  }

  method HardenUnit(buf: array<Byte>, tempcode: nat, code: nat, ghost front: seq<Byte>, ghost head: seq<Byte>, ghost rest: seq<Byte>)
    requires tempcode == |front| && code <= buf.Length && head != [] && buf[..code] == front + (head + rest)
    requires OP_STAR <= head[0] < OP_CRSTAR
    modifies buf
    ensures buf[..code] == front + ([PossessiveUnit(head[0])] + head[1..] + rest)
  {
    hide PossessiveUnit;
    ghost var units := buf[..code];
    assert units[tempcode] == head[0] && units[..tempcode] == front && units[tempcode + 1..] == head[1..] + rest;
    buf[tempcode] := PossessiveUnit(buf[tempcode]);
    assert buf[..code] == units[..tempcode] + ([buf[tempcode]] + units[tempcode + 1..]);
    assert [buf[tempcode]] + (head[1..] + rest) == [buf[tempcode]] + head[1..] + rest;
  }

  lemma FirstOf(units: seq<Byte>, front: seq<Byte>, head: seq<Byte>, rest: seq<Byte>)
    requires units == front + (head + rest) && head != []
    ensures |front| < |units| && units[|front|] == head[0]
  {
  }

  lemma NoFront(s: seq<Byte>)
    ensures [] + s == s && s + [] == s
  {
  }

  /** Make the repeat at `previous` possessive. */
  method Harden(buf: array<Byte>, previous: nat, code: nat, ghost a: Atom, ghost q: Quant, ghost base: seq<Byte>)
    requires ValidAtom(a) && !a.Class? && ValidQuant(q) && q.max != 0 && !(q.min == 1 && q.max >= 0)
    requires q.min >= 2 && (a.Lit? || a.NotLit?) ==> !a.nocase
    requires previous == |base| && code <= buf.Length && ValidOps(ExpandChar(a, q.(greed := Greedy), false))
    requires buf[..code] == base + EncOps(ExpandChar(a, q.(greed := Greedy), false))
    modifies buf
    ensures ValidOps(ExpandChar(a, q, true)) && buf[..code] == base + EncOps(ExpandChar(a, q, true))
  {
    hide EncOp, EncOps, Two, Payload, RepHead, PassedExact, OpLengths, PossessiveUnit, ExpandChar, FamilyStar, PossessiveForm;
    var tempcode := previous;
    ghost var c := [Payload(a)];
    ghost var form, n, exact, head := STAR, 0, [], [];
    if q.min < 2 {
      form, n := OpenSplit(a, q);
      HeadHardened(a, form, n);
      head := RepHead(a, form, n);
      NoFront(head + c);
      NoFront(RepHead(a, PossessiveForm(form), n) + c);
      NoFront(base);
      FirstOf(buf[..code], base, head, c);
    } else {
      head := RepHead(a, EXACT, q.min);
      exact := head + c;
      ExactUnit(a, q.min);
      if q.max == q.min {
        SameExact(a, q);
        FirstOf(buf[..code], base, head, c);
      } else {
        form, n := ExactSplit(a, q);
        HeadHardened(a, form, n);
        ExactPlace(buf[..code], base, head, c, RepHead(a, form, n) + c);
        head := RepHead(a, form, n);
        FirstOf(buf[..code], base + exact, head, c);
        Assoc(base, exact, RepHead(a, PossessiveForm(form), n) + c);
      }
    }
    if PassedExact(buf[tempcode]) {
      tempcode := tempcode + OpLengths(buf[tempcode]);
    }
    if code > tempcode {
      HardenUnit(buf, tempcode, code, base + exact, head, c);
    }
  }

  lemma ExactPlace(units: seq<Byte>, base: seq<Byte>, head: seq<Byte>, c: seq<Byte>, rest: seq<Byte>)
    requires units == base + (head + c + rest) && head != []
    ensures |base| < |units| && units[|base|] == head[0] && units == base + (head + c) + rest
  {
  }
}
