/** The real pass of the compiler: a pattern is written into a buffer of the size that the
    pre-compile pass measured, links are patched as brackets close, and what is in the buffer at
    the end is exactly the encoding of the pattern's code tree. */
module Compiler {
  import opened Bytecode
  import opened Tree
  import opened Subject
  import opened Graph
  import opened Layout
  import opened Pattern
  import opened Expansion
  import opened Estimate
  import opened EmptyScan
  import opened FixedLength
  import opened Buffer
  import opened Replication
  import opened Repetition
  import opened Brackets

  /** The part of the compile data that the passes update: the number of capturing groups so far. */
  class CompileData {
    var bracount: nat

    constructor ()
      ensures bracount == 0
    {
      bracount := 0;
    }
  }

  // ----- numbers of capturing groups -----

  function Captures(al: PAlts): nat { BranchCaptures(al.branch) + if al.PMore? then Captures(al.rest) else 0 }

  function BranchCaptures(b: Branch): nat { if b.BNil? then 0 else ItemCaptures(b.head) + BranchCaptures(b.tail) }

  function ItemCaptures(item: Item): nat {
    match item
    case PGroup(cap, body) => (if cap == 0 then 0 else 1) + Captures(body)
    case PGroupRep(cap, body, _) => (if cap == 0 then 0 else 1) + Captures(body)
    case PLook(_, body) => Captures(body)
    case _ => 0
  }

  /** Capturing groups carry the numbers `n` + 1, `n` + 2, and so on, in the order in which they open. */
  predicate Numbered(al: PAlts, n: nat) {
    NumberedBranch(al.branch, n) && (al.PMore? ==> Numbered(al.rest, n + BranchCaptures(al.branch)))
  }

  predicate NumberedBranch(b: Branch, n: nat) {
    b.BCons? ==> NumberedItem(b.head, n) && NumberedBranch(b.tail, n + ItemCaptures(b.head))
  }

  predicate NumberedItem(item: Item, n: nat) {
    match item
    case PGroup(cap, body) => (cap == 0 || cap == n + 1) && Numbered(body, if cap == 0 then n else n + 1)
    case PGroupRep(cap, body, _) => (cap == 0 || cap == n + 1) && Numbered(body, if cap == 0 then n else n + 1)
    case PLook(_, body) => Numbered(body, n)
    case _ => true
  }

  /** What the compiler is given: well-formed, numbered in order, nothing that needs an atomic group. */
  predicate Given(t: CharTables, al: PAlts, n: nat) {
    ValidPAlts(al) && Unwrapped(t, al) && Numbered(al, n)
  }

  predicate GivenBranch(t: CharTables, b: Branch, n: nat) {
    ValidBranch(b) && UnwrappedBranch(t, b) && NumberedBranch(b, n)
  }

  predicate GivenItem(t: CharTables, item: Item, rest: Branch, n: nat) {
    ValidItem(item) && UnwrappedItem(t, item, rest) && NumberedItem(item, n)
  }

  /** The compiler accepts it: lookbehinds have fixed lengths. */
  predicate Good(t: CharTables, al: PAlts, back: bool)
    requires ValidPAlts(al)
  {
    FixedBehind(t, al) && (back ==> FixedAlts(TreeOf(t, al)))
  }

  predicate GoodBranch(t: CharTables, b: Branch, back: bool)
    requires ValidBranch(b)
  {
    FixedBehindBranch(t, b) && (back ==> 0 <= OpsLength(ExpandBranch(t, b)))
  }

  lemma GoodParts(t: CharTables, al: PAlts, back: bool)
    requires ValidPAlts(al)
    ensures Good(t, al, back) <==> GoodBranch(t, al.branch, back) && (al.PMore? ==> Good(t, al.rest, back))
  {
  }

  /** The branch is accepted, and `s` is its code. */
  ghost predicate BranchIs(t: CharTables, b: Branch, back: bool, s: seq<Byte>)
    requires ValidBranch(b)
  {
    && GoodBranch(t, b, back) && ValidOps(ExpandBranch(t, b))
    && s == EncBranch(ExpandBranch(t, b), back)
  }

  /** `bs` are the codes of the branches of `al` before `rest`. */
  ghost predicate Upto(t: CharTables, al: PAlts, back: bool, bs: seq<seq<Byte>>, rest: PAlts)
    requires ValidPAlts(al)
    decreases al
  {
    if bs == [] then al == rest
    else al.PMore? && BranchIs(t, al.branch, back, bs[0]) && Upto(t, al.rest, back, bs[1..], rest)
  }

  lemma {:induction false} UptoStep(t: CharTables, al: PAlts, back: bool, bs: seq<seq<Byte>>, rest: PAlts, b: seq<Byte>)
    requires ValidPAlts(al) && Upto(t, al, back, bs, rest) && rest.PMore? && ValidBranch(rest.branch)
    requires BranchIs(t, rest.branch, back, b)
    ensures Upto(t, al, back, bs + [b], rest.rest)
    decreases al
  {
    hide BranchIs;
    if bs == [] {
      assert ([] + [b])[1..] == [];
    } else {
      UptoStep(t, al.rest, back, bs[1..], rest, b);
      assert (bs + [b])[1..] == bs[1..] + [b];
    }
  }

  /** After the last branch, the codes are those of the whole tree. */
  lemma {:induction false} UptoEnd(t: CharTables, al: PAlts, back: bool, bs: seq<seq<Byte>>, rest: PAlts, b: seq<Byte>)
    requires ValidPAlts(al) && Unwrapped(t, al) && Upto(t, al, back, bs, rest) && rest.PLast? && ValidBranch(rest.branch)
    requires BranchIs(t, rest.branch, back, b)
    ensures Good(t, al, back) && ValidAlts(TreeOf(t, al)) && Encodings(TreeOf(t, al), back, bs + [b])
    decreases al
  {
    hide EncBranch, GoodBranch;
    GoodParts(t, al, back);
    if bs == [] {
      ValidTree(t, al);
    } else {
      UptoEnd(t, al.rest, back, bs[1..], rest, b);
      assert (bs + [b])[1..] == bs[1..] + [b];
      ValidTree(t, al);
    }
  }

  lemma {:induction false} UptoGood(t: CharTables, al: PAlts, back: bool, bs: seq<seq<Byte>>, rest: PAlts)
    requires ValidPAlts(al) && ValidPAlts(rest) && Upto(t, al, back, bs, rest)
    ensures Good(t, al, back) <==> Good(t, rest, back)
    decreases al
  {
    hide GoodBranch, Good;
    if bs != [] {
      GoodParts(t, al, back);
      UptoGood(t, al.rest, back, bs[1..], rest);
    }
  }

  // ----- quantified characters and classes -----

  /** The quantifier of a character or of a class that is the last thing in the buffer. */
  method RepeatSingle(t: CharTables, buf: array<Byte>, previous: nat, code0: nat, a: Atom, q: Quant, rest: Branch, ghost base: seq<Byte>)
    returns (code: nat)
    requires ValidItem(PRep(a, q)) && UnwrappedItem(t, PRep(a, q), rest)
    requires previous == |base| && code0 <= buf.Length && buf[..code0] == base + EncAtom(a)
    requires |base| + ItemCost(PRep(a, q)) <= buf.Length
    modifies buf
    ensures ValidOps(ExpandItem(t, PRep(a, q), rest))
    ensures code <= buf.Length && buf[..code] == base + EncOps(ExpandItem(t, PRep(a, q), rest))
  {
    hide EncAtom, EncOps, ExpandChar, ExpandClass, MadePossessive;
    if a.Class? {
      code := RepeatClass(buf, previous, code0, a, q, base);
    } else {
      var possessive := MadePossessive(t, a, q, rest);
      var plain := if possessive then q.(greed := Greedy) else q;
      code := EmitChar(buf, previous, code0, a, plain, base);
      if possessive {
        if q.max == 0 || (q.min == 1 && q.max == 1) {
          NothingToHarden(a, q);
        } else {
          NotWrapped(t, a, q, rest);
          Harden(buf, previous, code, a, q, base);
        }
      }
    }
  }

  lemma NothingToHarden(a: Atom, q: Quant)
    requires ValidAtom(a) && ValidQuant(q) && (q.max == 0 || (q.min == 1 && q.max == 1))
    ensures ExpandChar(a, q, true) == ExpandChar(a, q.(greed := Greedy), false)
  {
  }

  lemma NotWrapped(t: CharTables, a: Atom, q: Quant, rest: Branch)
    requires ValidItem(PRep(a, q)) && UnwrappedItem(t, PRep(a, q), rest) && MadePossessive(t, a, q, rest)
    requires !a.Class? && q.max != 0 && !(q.min == 1 && q.max == 1)
    ensures !(q.min == 1 && q.max >= 0) && (q.min >= 2 && (a.Lit? || a.NotLit?) ==> !a.nocase)
  {
  }

  /** The repeat of a class comes after it; a class repeated no times is dropped. */
  method RepeatClass(buf: array<Byte>, previous: nat, code0: nat, a: Atom, q: Quant, ghost base: seq<Byte>) returns (code: nat)
    requires ValidAtom(a) && a.Class? && ValidQuant(q)
    requires previous == |base| && code0 <= buf.Length && buf[..code0] == base + EncAtom(a)
    requires |base| + RepeatUnits(a, q) <= buf.Length
    modifies buf
    ensures ValidOps(ExpandClass(a, q)) && code <= buf.Length && buf[..code] == base + EncOps(ExpandClass(a, q))
  {
    hide EncOps, Two;
    if q.max == 0 {
      EmptyUnits(base);
      assert buf[..previous] == buf[..code0][..previous] == base;
      return previous;
    }
    var z := if q.greed == Lazy then 1 else 0;
    ghost var op := ExpandClass(a, q).head;
    ClassRepUnits(op);
    assert |EncAtom(a)| == 33;
    ghost var units := buf[..code0];
    if q.min == 0 && q.max == -1 {
      code := Emit(buf, code0, [OP_CRSTAR + STAR + z]);
    } else if q.min == 1 && q.max == -1 {
      code := Emit(buf, code0, [OP_CRSTAR + PLUS + z]);
    } else if q.min == 0 && q.max == 1 {
      code := Emit(buf, code0, [OP_CRSTAR + QUERY + z]);
    } else {
      code := Emit(buf, code0, [OP_CRSTAR + UPTO + z] + (Two(q.min) + Two(if q.max == -1 then 0 else q.max)));
    }
    Assoc(base, EncAtom(a), EncClassRepeat(op.form, op.n, op.m));
  }

  lemma ClassRepUnits(op: Op)
    requires ValidOp(op) && op.Rep? && op.atom.Class?
    ensures ValidOps(Cons(op, Nil)) && EncOps(Cons(op, Nil)) == EncAtom(op.atom) + EncClassRepeat(op.form, op.n, op.m)
  {
    hide EncAtom, EncClassRepeat;
    OneUnits(op);
  }

  // ----- brackets -----

  /** An item: its code, then its quantifier over it. */
  method CompileItem(cd: CompileData, t: CharTables, buf: array<Byte>, code0: nat, item: Item, rest: Branch)
    returns (ok: bool, code: nat)
    requires GivenItem(t, item, rest, cd.bracount)
    requires code0 + ItemCost(item) <= buf.Length <= MAX_PATTERN_SIZE
    modifies cd, buf
    ensures ok <==> FixedBehindItem(t, item)
    ensures ok ==> cd.bracount == old(cd.bracount) + ItemCaptures(item) && ValidOps(ExpandItem(t, item, rest))
    ensures ok ==> code <= buf.Length && buf[..code] == old(buf[..code0]) + EncOps(ExpandItem(t, item, rest))
    decreases item, 1
  {
    hide EncAtom, EncOps, EncOp, ExpandChar, ExpandClass, ExpandGroup, RepeatUnits, GroupExtra, GroupSeq;
    ghost var base := buf[..code0];
    ok, code := true, code0;
    match item
    case PTest(o) =>
      TestUnits(o);
      code := Emit(buf, code, [o]);
    case PAtom(a, _) =>
      AtomIs(a);
      code := Emit(buf, code, EncAtom(a));
    case PRep(a, q) =>
      AtomIs(a);
      code := Emit(buf, code, EncAtom(a));
      code := RepeatSingle(t, buf, code0, code, a, q, rest, base);
    case PGroup(cap, body) =>
      ok, code := CompileGroup(cd, t, buf, code, if cap == 0 then OP_BRA else OP_CBRA, cap != 0, body, false, cap);
      if ok { GroupIs(t, cap, body); }
    case PGroupRep(cap, body, q) =>
      ExtraRange(GroupCost(cap, body), q);
      ok, code := CompileGroup(cd, t, buf, code, if cap == 0 then OP_BRA else OP_CBRA, cap != 0, body, false, cap);
      if ok {
        ghost var g := Group(cap, TreeOf(t, body));
        GroupIs(t, cap, body);
        GroupBound(t, cap, body);
        GroupSize(g, q, GroupCost(cap, body));
        code := RepeatGroup(buf, code0, code, q, g, base);
        GroupSeqIs(g, q);
      }
    case PLook(o, body) =>
      ok, code := CompileGroup(cd, t, buf, code, o, false, body, IsBack(o), 0);
      if ok { LookIs(t, o, body); }
  }

  lemma TestUnits(o: Byte)
    requires IsTest(o)
    ensures ValidOps(Cons(Test(o), Nil)) && EncOps(Cons(Test(o), Nil)) == [o]
  {
    OneUnits(Test(o));
  }

  lemma AtomIs(a: Atom)
    requires ValidAtom(a)
    ensures ValidOps(Cons(One(a), Nil)) && EncOps(Cons(One(a), Nil)) == EncAtom(a) && |EncAtom(a)| == AtomUnits(a)
  {
    OneUnits(One(a));
  }

  lemma GroupIs(t: CharTables, cap: nat, body: PAlts)
    requires cap < 0x10000 && ValidPAlts(body) && ValidAlts(TreeOf(t, body))
    ensures var g := Group(cap, TreeOf(t, body));
            && ValidOp(g) && g.Bra? && (g.op == OP_BRA || g.op == OP_CBRA) && g.ket == OP_KET
            && g.op == (if cap == 0 then OP_BRA else OP_CBRA)
            && EncOp(g) == EncBracket(g.op, cap, TreeOf(t, body), OP_KET, false)
            && ValidOps(Cons(g, Nil)) && EncOps(Cons(g, Nil)) == EncOp(g)
  {
    hide EncBracket;
    OneUnits(Group(cap, TreeOf(t, body)));
  }

  lemma LookIs(t: CharTables, o: Byte, body: PAlts)
    requires IsLook(o) && ValidPAlts(body) && ValidAlts(TreeOf(t, body)) && (IsBack(o) ==> FixedAlts(TreeOf(t, body)))
    ensures var l := Look(o, TreeOf(t, body));
            && ValidOps(Cons(l, Nil))
            && EncOps(Cons(l, Nil)) == EncBracket(o, 0, TreeOf(t, body), OP_KET, IsBack(o))
  {
    hide EncBracket;
    OneUnits(Look(o, TreeOf(t, body)));
  }

  lemma GroupSeqIs(g: Op, q: Quant)
    requires ValidOp(g) && g.Bra? && (g.op == OP_BRA || g.op == OP_CBRA) && ValidQuant(q)
    ensures ValidOps(ExpandGroup(g, q)) && GroupSeq(g, q) == EncOps(ExpandGroup(g, q))
  {
    ValidGroup(g, q);
  }

  /** A bracket: its opcode, the number of a capturing group, and its branches. */
  method CompileGroup(cd: CompileData, t: CharTables, buf: array<Byte>, code0: nat, op: Byte, capturing: bool, body: PAlts,
                      back: bool, ghost cap: nat)
    returns (ok: bool, code: nat)
    requires (IsGroup(op) || IsLook(op)) && (back ==> IsBack(op))
    requires capturing == (HeaderLen(op) == 5) && (if capturing then cap == cd.bracount + 1 else cap == 0)
    requires Given(t, body, if capturing then cd.bracount + 1 else cd.bracount)
    requires code0 + 2 + 2 * LINK_SIZE + (if capturing then IMM2_SIZE else 0) + AltsCost(body, back) <= buf.Length <= MAX_PATTERN_SIZE
    modifies cd, buf
    ensures ok <==> Good(t, body, back)
    ensures ok ==> cd.bracount == old(cd.bracount) + (if capturing then 1 else 0) + Captures(body) && ValidAlts(TreeOf(t, body))
    ensures ok ==> code <= buf.Length && buf[..code] == old(buf[..code0]) + EncBracket(op, cap, TreeOf(t, body), OP_KET, back)
    decreases body, 3
  {
    ghost var base := buf[..code0];
    var skipbytes := 0;
    if capturing {
      cd.bracount := cd.bracount + 1;
      buf[code0 + 3] := (cd.bracount / 256) % 256;
      buf[code0 + 4] := cd.bracount % 256;
      skipbytes := IMM2_SIZE;
    }
    buf[code0] := op;
    assert buf[..code0] == base;
    ok, code := CompileRegex(cd, t, buf, code0, back, skipbytes, body, op, if capturing then Two(cap) else []);
    if ok {
      BracketIs(op, cap, TreeOf(t, body), back);
    }
  }

  /** The encoding of a bracket in the order in which it is written. */
  ghost function BracketSeq(op: Byte, num: seq<Byte>, body: Alts, back: bool): seq<Byte>
    requires ValidAlts(body) && (back ==> FixedAlts(body))
  {
    [op] + Two(1 + LINK_SIZE + |num| + |EncBranch(body.branch, back)|) + (num + EncAlts(body, back))
    + ([OP_KET] + Two(1 + LINK_SIZE + |num| + |EncAlts(body, back)|))
  }

  lemma BracketIs(op: Byte, cap: nat, body: Alts, back: bool)
    requires ValidAlts(body) && (back ==> FixedAlts(body))
    ensures BracketSeq(op, if HeaderLen(op) == 5 then Two(cap) else [], body, back) == EncBracket(op, cap, body, OP_KET, back)
  {
    hide Two, EncBranch, EncAlts;
    var num := if HeaderLen(op) == 5 then Two(cap) else [];
    var s := EncAlts(body, back);
    Regroup([op], Two(HeaderLen(op) + |EncBranch(body.branch, back)|), num, s, [OP_KET], Two(HeaderLen(op) + |s|));
  }

  lemma Regroup(a: seq<Byte>, b: seq<Byte>, c: seq<Byte>, d: seq<Byte>, e: seq<Byte>, f: seq<Byte>)
    ensures a + b + (c + d) + (e + f) == a + b + c + d + e + f
  {
  }

  lemma AppendNil(a: Ops)
    ensures Append(a, Nil) == a
  {
  }

  lemma AppendAssoc(a: Ops, b: Ops, c: Ops)
    ensures Append(Append(a, b), c) == Append(a, Append(b, c))
  {
  }

  /** A branch, item by item. */
  method CompileBranch(cd: CompileData, t: CharTables, buf: array<Byte>, code0: nat, b: Branch) returns (ok: bool, code: nat)
    requires GivenBranch(t, b, cd.bracount)
    requires code0 + BranchCost(b) <= buf.Length <= MAX_PATTERN_SIZE
    modifies cd, buf
    ensures ok <==> FixedBehindBranch(t, b)
    ensures ok ==> cd.bracount == old(cd.bracount) + BranchCaptures(b) && ValidOps(ExpandBranch(t, b))
    ensures ok ==> code <= buf.Length && buf[..code] == old(buf[..code0]) + EncOps(ExpandBranch(t, b))
    decreases b, 0
  {
    hide EncOps, ItemCost, ExpandItem, UnwrappedItem, NumberedItem, ItemCaptures, ValidItem, FixedBehindItem;
    ghost var base := buf[..code0];
    ghost var n := cd.bracount + BranchCaptures(b);
    ok, code := true, code0;
    var rest := b;
    ghost var ops := Nil;
    EmptyUnits(base);
    while rest.BCons?
      invariant (rest == b || rest < b) && ok && GivenBranch(t, rest, cd.bracount) && cd.bracount + BranchCaptures(rest) == n
      invariant FixedBehindBranch(t, b) <==> FixedBehindBranch(t, rest)
      invariant ValidOps(ops) && Append(ops, ExpandBranch(t, rest)) == ExpandBranch(t, b)
      invariant code + BranchCost(rest) <= buf.Length && buf[..code] == base + EncOps(ops)
      decreases rest
    {
      ghost var was := buf[..code];
      ok, code := CompileItem(cd, t, buf, code, rest.head, rest.tail);
      if !ok { return; }
      ghost var item := ExpandItem(t, rest.head, rest.tail);
      ItemBound(t, rest.head, rest.tail);
      AppendSize(ops, item);
      AppendAssoc(ops, item, ExpandBranch(t, rest.tail));
      Assoc(base, EncOps(ops), EncOps(item));
      ops := Append(ops, item);
      rest := rest.tail;
    }
    AppendNil(ops);
  }

  /** One alternative of a bracket; in a lookbehind its fixed length is found and put in front. */
  method CompileAlternative(cd: CompileData, t: CharTables, buf: array<Byte>, code0: nat, last: nat, b: Branch, back: bool)
    returns (ok: bool, code: nat)
    requires GivenBranch(t, b, cd.bracount) && (back ==> code0 == last + 1 + LINK_SIZE)
    requires code0 + (if back then 1 + LINK_SIZE else 0) + BranchCost(b) < buf.Length <= MAX_PATTERN_SIZE
    modifies cd, buf
    ensures ok <==> GoodBranch(t, b, back)
    ensures ok ==> cd.bracount == old(cd.bracount) + BranchCaptures(b) && ValidOps(ExpandBranch(t, b))
    ensures ok && back ==> OpsLength(ExpandBranch(t, b)) >= 0
    ensures ok ==> code <= buf.Length && buf[..code] == old(buf[..code0]) + EncBranch(ExpandBranch(t, b), back)
    decreases b, 1
  {
    hide EncOps, FixedBehindBranch, ExpandBranch, Two, UnwrappedItem, NumberedItem, ItemCaptures, ValidItem;
    ghost var base := buf[..code0];
    code := code0;
    var reverseCount := code + 1;
    if back {
      code := Emit(buf, code, [OP_REVERSE] + Two(0));
    }
    ok, code := CompileBranch(cd, t, buf, code, b);
    if ok && back {
      BranchFits(t, b);
      ok := SetReverse(t, buf, reverseCount, last, code, b, base);
    }
  }

  /** The length of the branch goes into its OP_REVERSE. */
  method SetReverse(t: CharTables, buf: array<Byte>, reverseCount: nat, last: nat, code: nat, b: Branch, ghost base: seq<Byte>)
    returns (ok: bool)
    requires ValidBranch(b) && UnwrappedBranch(t, b) && FixedBehindBranch(t, b) && ValidOps(ExpandBranch(t, b))
    requires reverseCount == |base| + 1 && |base| == last + 1 + LINK_SIZE && code < buf.Length <= MAX_PATTERN_SIZE
    requires buf[..code] == base + ([OP_REVERSE] + Two(0)) + EncOps(ExpandBranch(t, b))
    modifies buf
    ensures ok <==> 0 <= OpsLength(ExpandBranch(t, b))
    ensures ok ==> buf[..code] == base + EncBranch(ExpandBranch(t, b), true)
  {
    hide EncOps, FixedBehindBranch, ExpandBranch, Two;
    ghost var ops := ExpandBranch(t, b);
    ghost var front := base + [OP_REVERSE];
    ReverseParts(base, Two(0), EncOps(ops));
    buf[code] := OP_END;
    var units := buf[..code + 1];
    assert buf[..code] == units[..code] == front + Two(0) + EncOps(ops);
    ReversedAhead(units, last, code, base, ops);
    var fixedLength := FindFixedLength(units, last, Last(ops), code, true, true);
    assert fixedLength == OpsLength(ops);
    if fixedLength < 0 { return false; }
    Put(buf, reverseCount, fixedLength, front, Two(0), EncOps(ops));
    ReverseParts(base, Two(fixedLength), EncOps(ops));
    ok := true;
  }

  lemma BranchFits(t: CharTables, b: Branch)
    requires ValidBranch(b) && UnwrappedBranch(t, b) && FixedBehindBranch(t, b)
    ensures ValidOps(ExpandBranch(t, b)) && |EncOps(ExpandBranch(t, b))| <= BranchCost(b)
  {
    BranchBound(t, b);
  }

  lemma ReverseParts(base: seq<Byte>, link: seq<Byte>, s: seq<Byte>)
    ensures base + ([OP_REVERSE] + link) + s == (base + [OP_REVERSE]) + link + s == base + ([OP_REVERSE] + link + s)
  {
  }

  /** The terminated branch of a lookbehind, as the scan for its length finds it. */
  lemma ReversedAhead(units: seq<Byte>, last: nat, code: nat, base: seq<Byte>, ops: Ops)
    requires ValidOps(ops) && |base| == last + 1 + LINK_SIZE && |units| == code + 1 <= MAX_PATTERN_SIZE
    requires units[..code] == base + [OP_REVERSE] + Two(0) + EncOps(ops) && units[code] == OP_END
    ensures At(units, last + 1 + LINK_SIZE) == OP_REVERSE
    ensures Ahead(units, last + 2 * (1 + LINK_SIZE), Last(ops), code, true) && last <= code
  {
    hide EncOps;
    var a := |base| + 3;
    var s := EncOps(ops);
    assert units[|base|] == units[..code][|base|] == OP_REVERSE;
    forall k | 0 <= k < |s|
      ensures At(units, a + k) == s[k]
    {
      assert units[..code][a + k] == s[k];
    }
    assert Placed(units, a, s);
    assert ValidAlts(Last(ops));
  }

  /** A bracket that is open, before the branch that `rest` begins with: the codes `bs` of the
      earlier branches lie in it, and `last` is where the link of the next one leads back to. */
  ghost predicate Open(t: CharTables, al: PAlts, back: bool, bs: seq<seq<Byte>>, rest: PAlts,
                       units: seq<Byte>, front: seq<Byte>, num: seq<Byte>, last: nat) {
    && ValidPAlts(al) && ValidPAlts(rest) && Upto(t, al, back, bs, rest) && |front| > 0
    && units == front + Two(0) + (num + Opening(1 + LINK_SIZE + |num|, bs))
    && last == |front| - 1 + HeadOf(1 + LINK_SIZE + |num|, bs)
  }

  /** The same after that branch, whose code is `b`. */
  ghost predicate Grown(t: CharTables, al: PAlts, back: bool, bs: seq<seq<Byte>>, rest: PAlts,
                        units: seq<Byte>, front: seq<Byte>, num: seq<Byte>, last: nat, b: seq<Byte>) {
    && ValidPAlts(al) && ValidPAlts(rest) && Upto(t, al, back, bs, rest) && BranchIs(t, rest.branch, back, b) && |front| > 0
    && units == front + Two(0) + (num + OpenBytes(1 + LINK_SIZE + |num|, bs + [b]))
    && last == |front| - 1 + HeadOf(1 + LINK_SIZE + |num|, bs)
  }

  lemma Grow(t: CharTables, al: PAlts, back: bool, bs: seq<seq<Byte>>, rest: PAlts,
             units: seq<Byte>, front: seq<Byte>, num: seq<Byte>, last: nat, b: seq<Byte>)
    requires Open(t, al, back, bs, rest, units, front, num, last) && BranchIs(t, rest.branch, back, b)
    ensures Grown(t, al, back, bs, rest, units + b, front, num, last, b)
  {
    hide Upto, BranchIs, Opening, OpenBytes, HeadOf, Two;
    OpeningStep(1 + LINK_SIZE + |num|, bs, b);
    Nested(front + Two(0), num, Opening(1 + LINK_SIZE + |num|, bs), b);
  }

  /** Whether the bracket as a whole is accepted hangs on the branches still to come. */
  lemma OpenGood(t: CharTables, al: PAlts, back: bool, bs: seq<seq<Byte>>, rest: PAlts,
                 units: seq<Byte>, front: seq<Byte>, num: seq<Byte>, last: nat)
    requires Open(t, al, back, bs, rest, units, front, num, last)
    ensures ValidPAlts(al) && ValidPAlts(rest)
    ensures Good(t, al, back) <==> GoodBranch(t, rest.branch, back) && (rest.PMore? ==> Good(t, rest.rest, back))
  {
    hide Good, GoodBranch, Upto, Opening, HeadOf, Two;
    UptoGood(t, al, back, bs, rest);
    GoodParts(t, rest, back);
  }

  /** An ALT, its link leading back, introduces the next branch. */
  method AddAlt(t: CharTables, buf: array<Byte>, code0: nat, lastBranch: nat, ghost al: PAlts, ghost back: bool,
                ghost bs: seq<seq<Byte>>, ghost rest: PAlts, ghost front: seq<Byte>, ghost num: seq<Byte>, ghost b: seq<Byte>)
    returns (code: nat)
    requires code0 + 1 + LINK_SIZE <= buf.Length && lastBranch <= code0 && rest.PMore?
    requires Grown(t, al, back, bs, rest, buf[..code0], front, num, lastBranch, b)
    modifies buf
    ensures code == code0 + 1 + LINK_SIZE && Open(t, al, back, bs + [b], rest.rest, buf[..code], front, num, code0)
  {
    hide Upto, BranchIs, Opening, OpenBytes, HeadOf, Two;
    UptoStep(t, al, back, bs, rest, b);
    LinkDistance(buf[..code0], front, num, bs, b, lastBranch);
    code := Emit(buf, code0, [OP_ALT] + Two(code0 - lastBranch));
    OpeningMore(1 + LINK_SIZE + |num|, bs, b);
    Nested(front + Two(0), num, OpenBytes(1 + LINK_SIZE + |num|, bs + [b]), [OP_ALT] + Two(code0 - lastBranch));
  }

  lemma GrownLast(t: CharTables, al: PAlts, back: bool, bs: seq<seq<Byte>>, rest: PAlts,
                  units: seq<Byte>, front: seq<Byte>, num: seq<Byte>, last: nat, b: seq<Byte>)
    requires Grown(t, al, back, bs, rest, units, front, num, last, b) && rest.PLast? && ValidPAlts(al) && Unwrapped(t, al)
    ensures ValidAlts(TreeOf(t, al)) && (back ==> FixedAlts(TreeOf(t, al))) && Encodings(TreeOf(t, al), back, bs + [b])
    ensures units == front + Two(0) + (num + OpenBytes(1 + LINK_SIZE + |num|, bs + [b]))
    ensures |front| > 0 && last == |front| - 1 + HeadOf(1 + LINK_SIZE + |num|, bs)
  {
    hide Upto, BranchIs, Opening, OpenBytes, HeadOf, Two, Encodings;
    UptoEnd(t, al, back, bs, rest, b);
  }

  /** Where the next branch goes. */
  lemma OpenPlace(t: CharTables, al: PAlts, back: bool, bs: seq<seq<Byte>>, rest: PAlts,
                  units: seq<Byte>, front: seq<Byte>, num: seq<Byte>, last: nat)
    requires Open(t, al, back, bs, rest, units, front, num, last)
    ensures last + 1 + LINK_SIZE + (if bs == [] then |num| else 0) == |units|
  {
    hide Upto, OpenBytes, Two;
  }

  /** All branches of a bracket whose opcode and number are in place, its link and its ket. */
  method CompileRegex(cd: CompileData, t: CharTables, buf: array<Byte>, start: nat, back: bool, skipbytes: nat, al: PAlts,
                      ghost op: Byte, ghost num: seq<Byte>)
    returns (ok: bool, code: nat)
    requires Given(t, al, cd.bracount) && skipbytes == |num| && (back ==> skipbytes == 0)
    requires start + 2 + 2 * LINK_SIZE + skipbytes + AltsCost(al, back) <= buf.Length <= MAX_PATTERN_SIZE
    requires buf[start] == op && buf[start + 1 + LINK_SIZE..start + 1 + LINK_SIZE + skipbytes] == num
    modifies cd, buf
    ensures ok <==> Good(t, al, back)
    ensures ok ==> cd.bracount == old(cd.bracount) + Captures(al) && ValidAlts(TreeOf(t, al))
    ensures ok ==> code <= buf.Length && buf[..code] == old(buf[..start]) + BracketSeq(op, num, TreeOf(t, al), back)
    decreases al, 2
  {
    hide Good, GoodBranch, BranchIs, Two, EncBranch, Open, Grown, OpenBytes, HeadOf, Given, GivenBranch, Encodings;
    hide AltsCost, Captures, BranchCost, BranchCaptures, TreeOf, ExpandBranch, BracketSeq, Unwrapped, UnwrappedBranch;
    assert ValidPAlts(al) && Unwrapped(t, al) by { GivenParts(t, al, back, cd.bracount); }
    ghost var front := buf[..start] + [op];
    ghost var n := cd.bracount + Captures(al);
    buf[start + 1], buf[start + 2] := 0, 0;
    code := start + 1 + LINK_SIZE + skipbytes;
    var lastBranch := start;
    var rest := al;
    ghost var bs: seq<seq<Byte>> := [];
    OpenHeader(buf, start, skipbytes, buf[..start], op, num);
    OpeningNone(t, al, back, buf[..code], front, num, start);
    while true
      invariant (rest == al || rest < al) && ValidPAlts(rest) && Given(t, rest, cd.bracount) && cd.bracount + Captures(rest) == n
      invariant code + AltsCost(rest, back) + 1 + LINK_SIZE <= buf.Length
      invariant Open(t, al, back, bs, rest, buf[..code], front, num, lastBranch)
      decreases rest
    {
      GivenParts(t, rest, back, cd.bracount);
      OpenPlace(t, al, back, bs, rest, buf[..code], front, num, lastBranch);
      OpenGood(t, al, back, bs, rest, buf[..code], front, num, lastBranch);
      ghost var was := buf[..code];
      ok, code := CompileAlternative(cd, t, buf, code, lastBranch, rest.branch, back);
      if !ok { return; }
      ghost var b := EncBranch(ExpandBranch(t, rest.branch), back);
      BranchEnd(t, rest.branch, back, b);
      Grow(t, al, back, bs, rest, was, front, num, lastBranch, b);
      if rest.PLast? {
        GrownLast(t, al, back, bs, rest, buf[..code], front, num, lastBranch, b);
        code := CloseBracket(buf, start, lastBranch, code, TreeOf(t, al), back, old(buf[..start]), op, num, bs, b);
        return;
      }
      var alt := code;
      code := AddAlt(t, buf, code, lastBranch, al, back, bs, rest, front, num, b);
      lastBranch, bs, rest := alt, bs + [b], rest.rest;
    }
  }

  /** Offset, from the bracket, of the ALT or opcode that the next branch follows. */
  function HeadOf(header: nat, bs: seq<seq<Byte>>): nat {
    if bs == [] then 0 else header + |OpenBytes(header, bs)|
  }

  lemma OpenHeader(buf: array<Byte>, start: nat, skipbytes: nat, base: seq<Byte>, op: Byte, num: seq<Byte>)
    requires start + 1 + LINK_SIZE + skipbytes <= buf.Length && |num| == skipbytes
    requires buf[..start] == base && buf[start] == op && buf[start + 1] == 0 && buf[start + 2] == 0
    requires buf[start + 1 + LINK_SIZE..start + 1 + LINK_SIZE + skipbytes] == num
    ensures buf[..start + 1 + LINK_SIZE + skipbytes] == base + [op] + Two(0) + num
  {
    assert buf[..start + 3 + skipbytes]
        == buf[..start] + [buf[start]] + [buf[start + 1], buf[start + 2]] + buf[start + 3..start + 3 + skipbytes];
  }

  lemma OpeningNone(t: CharTables, al: PAlts, back: bool, units: seq<Byte>, front: seq<Byte>, num: seq<Byte>, start: nat)
    requires ValidPAlts(al) && |front| == start + 1 && units == front + Two(0) + num
    ensures Open(t, al, back, [], al, units, front, num, start)
  {
    hide Two;
    assert num + [] == num;
  }

  lemma Nested(a: seq<Byte>, num: seq<Byte>, o: seq<Byte>, b: seq<Byte>)
    ensures a + (num + o) + b == a + (num + (o + b))
  {
  }

  lemma LinkDistance(units: seq<Byte>, front: seq<Byte>, num: seq<Byte>, bs: seq<seq<Byte>>, b: seq<Byte>, last: nat)
    requires var h := 1 + LINK_SIZE + |num|;
             && |front| > 0 && last == |front| - 1 + HeadOf(h, bs)
             && units == front + Two(0) + (num + OpenBytes(h, bs + [b]))
    ensures |units| - last == (if bs == [] then 1 + LINK_SIZE + |num| else 1 + LINK_SIZE) + |b|
    ensures |units| == |front| - 1 + HeadOf(1 + LINK_SIZE + |num|, bs + [b])
  {
    hide OpenBytes, Two;
    OpeningStep(1 + LINK_SIZE + |num|, bs, b);
  }

  lemma OpeningMore(header: nat, bs: seq<seq<Byte>>, b: seq<Byte>)
    ensures Opening(header, bs + [b])
         == OpenBytes(header, bs + [b]) + ([OP_ALT] + Two((if bs == [] then header else 1 + LINK_SIZE) + |b|))
  {
  }

  lemma GivenParts(t: CharTables, al: PAlts, back: bool, n: nat)
    requires Given(t, al, n)
    ensures ValidPAlts(al) && Unwrapped(t, al) && ValidBranch(al.branch) && UnwrappedBranch(t, al.branch)
    ensures GivenBranch(t, al.branch, n)
    ensures al.PMore? ==> ValidPAlts(al.rest) && Given(t, al.rest, n + BranchCaptures(al.branch))
    ensures AltsCost(al, back)
         == (if back then 1 + LINK_SIZE else 0) + BranchCost(al.branch) + if al.PMore? then 1 + LINK_SIZE + AltsCost(al.rest, back) else 0
    ensures Captures(al) == BranchCaptures(al.branch) + if al.PMore? then Captures(al.rest) else 0
  {
  }

  lemma BranchEnd(t: CharTables, b: Branch, back: bool, s: seq<Byte>)
    requires ValidBranch(b) && UnwrappedBranch(t, b) && GoodBranch(t, b, back) && ValidOps(ExpandBranch(t, b))
    requires s == EncBranch(ExpandBranch(t, b), back)
    ensures BranchIs(t, b, back, s) && |s| <= BranchCost(b) + if back then 1 + LINK_SIZE else 0
  {
    hide EncOps;
    BranchFits(t, b);
  }

  lemma LastBranch(units: seq<Byte>, front: seq<Byte>, num: seq<Byte>, bs: seq<seq<Byte>>)
    requires |bs| > 0 && units == front + Two(0) + (num + OpenBytes(1 + LINK_SIZE + |num|, bs))
    ensures Halfway(units, front, num, bs, |bs| - 1)
  {
    hide OpenBytes, Two;
    assert bs[..|bs|] == bs && Following(bs[|bs| - 1..]) == [];
    var s := OpenBytes(1 + LINK_SIZE + |num|, bs);
    assert s + [] == s;
  }

  /** The end of a bracket: reverse the chain of its branches, and add the ket. */
  method CloseBracket(buf: array<Byte>, start: nat, lastBranch: nat, code0: nat, ghost al: Alts, ghost back: bool,
                      ghost base: seq<Byte>, ghost op: Byte, ghost num: seq<Byte>, ghost bs: seq<seq<Byte>>, ghost b: seq<Byte>)
    returns (code: nat)
    requires ValidAlts(al) && (back ==> FixedAlts(al)) && Encodings(al, back, bs + [b]) && start == |base|
    requires code0 + 1 + LINK_SIZE <= buf.Length <= MAX_PATTERN_SIZE
    requires buf[..code0] == base + [op] + Two(0) + (num + OpenBytes(1 + LINK_SIZE + |num|, bs + [b]))
    requires lastBranch == |base| + HeadOf(1 + LINK_SIZE + |num|, bs)
    modifies buf
    ensures code <= buf.Length && buf[..code] == base + BracketSeq(op, num, al, back)
  {
    hide OpenBytes, Two, EncBranch, EncAlts, Encodings, ClosedBytes, Halfway, Following, HeadAt, ValidAlts, FixedAlts;
    ghost var all := bs + [b];
    LastBranch(buf[..code0], base + [op], num, all);
    OpeningStep(1 + LINK_SIZE + |num|, bs, b);
    ReverseChain(buf, lastBranch, code0, base + [op], num, all);
    ClosedIsEncoded(al, back, all);
    FirstEncoded(al, back, all);
    ghost var s := [op] + Two(1 + LINK_SIZE + |num| + |all[0]|) + (num + EncAlts(al, back));
    OpenSize(base, op, Two(1 + LINK_SIZE + |num| + |all[0]|), num + EncAlts(al, back));
    code := Emit(buf, code0, [OP_KET] + Two(code0 - start));
    Assoc(base, s, [OP_KET] + Two(code0 - start));
  }

  lemma OpenSize(base: seq<Byte>, op: Byte, link: seq<Byte>, rest: seq<Byte>)
    ensures base + [op] + link + rest == base + ([op] + link + rest)
  {
  }

  lemma FirstEncoded(al: Alts, back: bool, bs: seq<seq<Byte>>)
    requires ValidAlts(al) && (back ==> FixedAlts(al)) && Encodings(al, back, bs)
    ensures |bs| > 0 && bs[0] == EncBranch(al.branch, back)
  {
  }

  // ----- both passes -----

  const ERR20 := 20   // regular expression is too large
  const ERR25 := 25   // lookbehind assertion is not fixed length

  datatype Result = Code(code: seq<Byte>) | Error(number: nat)

  /** Measure, allocate, compile. The code fits into what was measured, so that the final check
      for code overflow never fires. */
  method Compile(t: CharTables, p: PAlts) returns (r: Result)
    requires Given(t, p, 0)
    ensures 1 + 2 + 2 * LINK_SIZE + AltsCost(p, false) > MAX_PATTERN_SIZE ==> r == Error(ERR20)
    ensures 1 + 2 + 2 * LINK_SIZE + AltsCost(p, false) <= MAX_PATTERN_SIZE && !FixedBehind(t, p) ==> r == Error(ERR25)
    ensures 1 + 2 + 2 * LINK_SIZE + AltsCost(p, false) <= MAX_PATTERN_SIZE && FixedBehind(t, p) ==>
      ValidAlts(TreeOf(t, p)) && r == Code(EncPattern(TreeOf(t, p))) && |r.code| <= 1 + 2 + 2 * LINK_SIZE + AltsCost(p, false)
    ensures FixedBehind(t, p) ==>
      ValidAlts(TreeOf(t, p)) && (r == Error(ERR20) <==> |EncPattern(TreeOf(t, p))| + AltsExcess(p) > MAX_PATTERN_SIZE)
    ensures Kept(p) && FixedBehind(t, p) ==>
      ValidAlts(TreeOf(t, p)) && (r == Error(ERR20) <==> |EncPattern(TreeOf(t, p))| > MAX_PATTERN_SIZE)
  {
    hide EncPattern, AltsCost, AltsExcess, TreeOf, BracketSeq;
    KeptNone(p);
    if FixedBehind(t, p) {
      PatternExactly(t, p);
    }
    var length := 1;
    var ok;
    ok, length := PretendRegex(p, false, 0, length);
    if !ok || length > MAX_PATTERN_SIZE {
      return Error(ERR20);
    }
    var buf := new Byte[length](_ => 0);
    var cd := new CompileData();
    buf[0] := OP_BRA;
    var code;
    ok, code := CompileRegex(cd, t, buf, 0, false, 0, p, OP_BRA, []);
    if !ok {
      return Error(ERR25);
    }
    ghost var al := TreeOf(t, p);
    BracketIs(OP_BRA, 0, al, false);
    PatternSize(t, p);
    PatternIs(al);
    assert [] + BracketSeq(OP_BRA, [], al, false) == BracketSeq(OP_BRA, [], al, false);
    code := Emit(buf, code, [OP_END]);
    r := Code(buf[..code]);
  }

  lemma PatternIs(al: Alts)
    requires ValidAlts(al)
    ensures EncPattern(al) == EncBracket(OP_BRA, 0, al, OP_KET, false) + [OP_END]
  {
    hide EncBracket;
  }

  lemma PatternExactly(t: CharTables, p: PAlts)
    requires ValidPAlts(p) && Unwrapped(t, p) && FixedBehind(t, p)
    ensures ValidAlts(TreeOf(t, p))
    ensures |EncPattern(TreeOf(t, p))| + AltsExcess(p) == 1 + 2 + 2 * LINK_SIZE + AltsCost(p, false)
  {
    hide EncAlts;
    Estimate.AltsExactly(t, p, false);
  }

  lemma PatternSize(t: CharTables, p: PAlts)
    requires ValidPAlts(p) && Unwrapped(t, p) && FixedBehind(t, p)
    ensures ValidAlts(TreeOf(t, p)) && |EncPattern(TreeOf(t, p))| <= 1 + 2 + 2 * LINK_SIZE + AltsCost(p, false)
  {
    hide EncAlts;
    AltsBound(t, p, false);
  }
}
