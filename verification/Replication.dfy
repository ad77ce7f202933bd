/** The real pass over the quantifier of a group: the group already in the buffer is moved,
    copied and wrapped in place until it spells out the repetition. */
module Replication {
  import opened Bytecode
  import opened Tree
  import opened Pattern
  import opened Empty
  import opened Expansion
  import opened Layout
  import opened EmptyScan
  import opened Buffer

  function ZeroUnit(lazy: bool): Byte { if lazy then OP_BRAMINZERO else OP_BRAZERO }

  /** `k` optional copies, each opening a bracket that is still pending: its link leads back to
      the link of the one before it, and is 0 in the first. */
  function Pending(z: Byte, g: seq<Byte>, k: nat): seq<Byte> {
    if k == 0 then [] else Pending(z, g, k - 1) + [z, OP_BRA] + Two(if k == 1 then 0 else 4 + |g|) + g
  }

  lemma PendingLength(z: Byte, g: seq<Byte>, k: nat)
    ensures |Pending(z, g, k)| == k * (4 + |g|)
  {
    if k > 0 {
      PendingLength(z, g, k - 1);
    }
  }

  /** A bracket around a group and what may follow it. */
  function NestOf(g: Op, rest: Ops): Op { Bra(OP_BRA, 0, Last(Cons(g, rest)), OP_KET) }

  lemma NestUnits(g: Op, rest: Ops, n: nat)
    requires ValidOp(g) && ValidOps(rest) && n == 3 + |EncOp(g) + EncOps(rest)|
    ensures ValidOp(NestOf(g, rest))
    ensures EncOp(NestOf(g, rest)) == [OP_BRA] + Two(n) + (EncOp(g) + EncOps(rest)) + ([OP_KET] + Two(n))
  {
    hide Two, EncOp, EncOps;
    var b := Cons(g, rest);
    assert ValidOps(b) && ValidAlts(Last(b));
    BranchUnits(g, rest);
    BracketUnits(Last(b), n);
    OpUnits(Last(b));
  }

  lemma OpUnits(body: Alts)
    requires ValidAlts(body)
    ensures EncOp(Bra(OP_BRA, 0, body, OP_KET)) == EncBracket(OP_BRA, 0, body, OP_KET, false)
  {
    hide EncBracket;
  }

  lemma BranchUnits(g: Op, rest: Ops)
    requires ValidOp(g) && ValidOps(rest)
    ensures ValidAlts(Last(Cons(g, rest)))
    ensures EncAlts(Last(Cons(g, rest)), false) == EncBranch(Cons(g, rest), false) == EncOp(g) + EncOps(rest)
  {
  }

  lemma BracketUnits(body: Alts, n: nat)
    requires ValidAlts(body) && EncAlts(body, false) == EncBranch(body.branch, false) && n == 3 + |EncAlts(body, false)|
    ensures EncBracket(OP_BRA, 0, body, OP_KET, false) == [OP_BRA] + Two(n) + EncAlts(body, false) + ([OP_KET] + Two(n))
  {
    hide Two, EncAlts, EncBranch;
    var s := EncAlts(body, false);
    assert EncHeader(OP_BRA, n, 0) == [OP_BRA] + Two(n);
    assert EncOpen(OP_BRA, 0, body, false) == [OP_BRA] + Two(n) + s;
    assert [OP_BRA] + Two(n) + s + [OP_KET] + Two(n) == [OP_BRA] + Two(n) + s + ([OP_KET] + Two(n));
  }

  /** The units of `m` nested optional copies. */
  ghost function NestSeq(g: Op, m: nat, lazy: bool): seq<Byte>
    requires ValidOp(g) && g.Bra?
  {
    ValidOptional(g, m, lazy);
    EncOps(Optional(g, m, lazy))
  }

  lemma ZeroUnits(g: Op, lazy: bool)
    requires ValidOp(g) && g.Bra?
    ensures EncOps(Cons(Zero(lazy, g), Nil)) == [ZeroUnit(lazy)] + EncOp(g)
  {
    hide EncBracket;
    assert EncOps(Cons(Zero(lazy, g), Nil)) == EncOp(Zero(lazy, g)) + EncOps(Nil);
  }

  /** The units of a nest, from the inside out. */
  lemma NestStep(g: Op, m: nat, lazy: bool, n: nat)
    requires ValidOp(g) && g.Bra? && n == 3 + |EncOp(g) + NestSeq(g, m, lazy)| && m > 0
    ensures NestSeq(g, m + 1, lazy)
         == [ZeroUnit(lazy)] + ([OP_BRA] + Two(n) + (EncOp(g) + NestSeq(g, m, lazy)) + ([OP_KET] + Two(n)))
  {
    hide Two, EncOp, EncOps;
    ValidOptional(g, m, lazy);
    ValidOptional(g, m + 1, lazy);
    var rest := Optional(g, m, lazy);
    NestUnits(g, rest, n);
    ZeroUnits(NestOf(g, rest), lazy);
  }

  lemma NestFirst(g: Op, lazy: bool)
    requires ValidOp(g) && g.Bra?
    ensures NestSeq(g, 1, lazy) == [ZeroUnit(lazy)] + EncOp(g)
  {
    hide EncOp, EncOps;
    ZeroUnits(g, lazy);
  }

  /** Where the link of the innermost pending bracket is. */
  function LinkOf(base: seq<Byte>, z: Byte, u: seq<Byte>, k: nat): int {
    if k == 0 then -1 else |base| + |Pending(z, u, k)| - |u| - 2
  }

  lemma Unfold(base: seq<Byte>, p: seq<Byte>, head: seq<Byte>, link: seq<Byte>, u: seq<Byte>, inner: seq<Byte>)
    ensures base + (p + head + link + u) + inner == base + p + head + link + (u + inner)
  {
  }

  lemma AppendTo(front: seq<Byte>, link: seq<Byte>, s: seq<Byte>, ket: seq<Byte>)
    ensures front + link + s + ket == front + link + (s + ket)
  {
  }

  lemma Fold(base: seq<Byte>, p: seq<Byte>, z: Byte, link: seq<Byte>, s: seq<Byte>, ket: seq<Byte>)
    ensures base + p + [z, OP_BRA] + link + (s + ket) == base + p + ([z] + ([OP_BRA] + link + s + ket))
  {
    var q := base + p;
    assert [z, OP_BRA] == [z] + [OP_BRA];
    assert q + ([z] + [OP_BRA]) + link + (s + ket) == q + ([z] + ([OP_BRA] + link + s + ket));
  }

  lemma PendingStep(z: Byte, u: seq<Byte>, k: nat)
    requires k > 0
    ensures Pending(z, u, k) == Pending(z, u, k - 1) + [z, OP_BRA] + Two(if k == 1 then 0 else 4 + |u|) + u
    ensures |Pending(z, u, k)| == |Pending(z, u, k - 1)| + 4 + |u|
    ensures k > 1 ==> |Pending(z, u, k - 1)| >= 4 + |u|
  {
    PendingLength(z, u, k);
    PendingLength(z, u, k - 1);
  }

  /** While `k` brackets are pending, what is still to come fits into the finished nest. */
  lemma {:induction false} NestFits(g: Op, m: nat, k: nat, lazy: bool)
    requires ValidOp(g) && g.Bra? && k < m
    ensures |Pending(ZeroUnit(lazy), EncOp(g), k)| + |NestSeq(g, m - k, lazy)| + 3 * k == |NestSeq(g, m, lazy)|
    decreases k
  {
    hide NestSeq, EncOp, Two;
    if k > 0 {
      NestFits(g, m, k - 1, lazy);
      NestStep(g, m - k, lazy, 3 + |EncOp(g) + NestSeq(g, m - k, lazy)|);
      PendingStep(ZeroUnit(lazy), EncOp(g), k);
    }
  }

  /** Close the innermost pending bracket: it gets its ket, and both links become the distance
      between the two. */
  method CloseOne(buf: array<Byte>, code0: nat, link: nat, ghost base: seq<Byte>, ghost z: Byte, ghost u: seq<Byte>,
                  ghost k: nat, ghost inner: seq<Byte>)
    returns (code: nat, bralink: int)
    requires k > 0 && |base| + |Pending(z, u, k)| + |inner| + 3 <= buf.Length <= MAX_PATTERN_SIZE
    requires code0 <= buf.Length && buf[..code0] == base + Pending(z, u, k) + inner
    requires link == LinkOf(base, z, u, k)
    modifies buf
    ensures var n := 3 + |u + inner|;
            && code <= buf.Length && bralink == LinkOf(base, z, u, k - 1)
            && buf[..code] == base + Pending(z, u, k - 1) + ([z] + ([OP_BRA] + Two(n) + (u + inner) + ([OP_KET] + Two(n))))
  {
    hide Pending, Two;
    ghost var front := base + Pending(z, u, k - 1) + [z, OP_BRA];
    ghost var back := if k == 1 then 0 else 4 + |u|;
    PendingStep(z, u, k);
    Unfold(base, Pending(z, u, k - 1), [z, OP_BRA], Two(back), u, inner);
    var offset := code0 - link + 1;
    var bra := code0 - offset;
    ReadBack(buf, code0, front, back, u + inner);
    var old1 := GetIn(buf, bra + 1);
    bralink := if old1 == 0 then -1 else link - old1;
    code := Emit(buf, code0, [OP_KET] + Two(offset));
    AppendTo(front, Two(back), u + inner, [OP_KET] + Two(offset));
    Put(buf, bra + 1, offset, front, Two(back), u + inner + ([OP_KET] + Two(offset)));
    Fold(base, Pending(z, u, k - 1), z, Two(offset), u + inner, [OP_KET] + Two(offset));
  }

  /** Close the pending brackets from the innermost outwards. */
  method CloseNest(buf: array<Byte>, code0: nat, link: int, ghost g: Op, ghost m: nat, ghost lazy: bool, ghost base: seq<Byte>)
    returns (code: nat)
    requires ValidOp(g) && g.Bra? && m > 0
    requires |base + NestSeq(g, m, lazy)| <= buf.Length <= MAX_PATTERN_SIZE
    requires code0 <= buf.Length && buf[..code0] == base + Pending(ZeroUnit(lazy), EncOp(g), m - 1) + NestSeq(g, 1, lazy)
    requires link == LinkOf(base, ZeroUnit(lazy), EncOp(g), m - 1)
    modifies buf
    ensures code <= buf.Length && buf[..code] == base + NestSeq(g, m, lazy)
  {
    hide NestSeq, EncOp, ValidOp, Pending, Two;
    code := code0;
    var bralink := link;
    ghost var k := m - 1;
    ghost var z, u := ZeroUnit(lazy), EncOp(g);
    while bralink >= 0
      invariant 0 <= k < m && code <= buf.Length
      invariant buf[..code] == base + Pending(z, u, k) + NestSeq(g, m - k, lazy)
      invariant bralink == LinkOf(base, z, u, k)
      decreases k
    {
      ghost var inner := NestSeq(g, m - k, lazy);
      NestFits(g, m, k, lazy);
      code, bralink := CloseOne(buf, code, bralink, base, z, u, k, inner);
      NestStep(g, m - k, lazy, 3 + |u + inner|);
      k := k - 1;
    }
    PendingLength(z, u, k);
    assert k == 0;
    assert base + [] == base;
  }

  // ----- unlimited repeats -----

  /** What lies between the first unit of a group and its ket. */
  ghost function Middle(g: Op): seq<Byte>
    requires ValidOp(g) && g.Bra?
  {
    assert ValidAlts(g.body);
    Two(HeaderLen(g.op) + |EncBranch(g.body.branch, false)|)
    + (if HeaderLen(g.op) == 5 then Two(g.cap) else []) + EncAlts(g.body, false)
  }

  lemma GroupUnits(g: Op, o: Byte, k: Byte)
    requires ValidOp(g) && g.Bra? && HeaderLen(o) == HeaderLen(g.op) && IsGroup(o) && IsKet(k)
    ensures EncOp(Bra(o, g.cap, g.body, k)) == [o] + Middle(g) + [k] + Two(|Middle(g)| + 1)
  {
    hide EncAlts, EncBranch, Two;
    WithEnds(o, g.cap, g.body, k, Middle(g), HeaderLen(g.op) + |EncBranch(g.body.branch, false)|);
  }

  lemma WithEnds(o: Byte, cap: nat, body: Alts, ket: Byte, s: seq<Byte>, l: nat)
    requires ValidAlts(body) && l == HeaderLen(o) + |EncBranch(body.branch, false)| && IsGroup(o) && IsKet(ket) && cap < 0x10000
    requires s == Two(l) + (if HeaderLen(o) == 5 then Two(cap) else []) + EncAlts(body, false)
    ensures EncOp(Bra(o, cap, body, ket)) == [o] + s + [ket] + Two(|s| + 1)
  {
    hide EncAlts, EncBranch, Two, HeaderLen;
    var c := if HeaderLen(o) == 5 then Two(cap) else [];
    assert EncOpen(o, cap, body, false) == [o] + Two(l) + c + EncAlts(body, false);
    assert [o] + Two(l) + c + EncAlts(body, false) == [o] + s;
  }

  /** Can some branch of the closed group at `bra` match the empty string? */
  method CouldBeEmptyGroup(code: seq<Byte>, bra: nat, ket: nat, ghost g: Op) returns (empty: bool)
    requires ValidOp(g) && g.Bra? && Placed(code, bra, EncOp(g)) && ket == ToKet(code, bra)
    ensures empty == CanBeEmptyAlts(g.body)
  {
    hide EncAlts, EncBranch, Heading, ToKet, Remains, EncOp, EncOps;
    GroupHeading(code, bra, g);
    var scode: nat := bra;
    ghost var al := g.body;
    ghost var h: nat := bra + HeaderLen(g.op);
    while true
      invariant ValidAlts(al) && Heading(code, scode, al, false, h) && h == scode + OpLengths(At(code, scode)) && scode < h
      invariant h + |EncAlts(al, false)| == ket
      invariant CanBeEmptyAlts(al) == CanBeEmptyAlts(g.body)
      decreases al
    {
      ghost var f := h + |EncBranch(al.branch, false)|;
      BranchRemains(code, scode, al, h, f);
      empty := CouldBeEmptyBranch(code, scode, ket, al.branch, f);
      if empty { return; }
      scode := scode + Get(code, scode + 1);
      if At(code, scode) != OP_ALT { return; }
      al, h := al.rest, f + 1 + LINK_SIZE;
    }
  }

  /** Change the first unit of the last group and its ket. */
  method SetEnds(buf: array<Byte>, bra: nat, ket: nat, mark: Byte, close: Byte,
                 ghost base: seq<Byte>, ghost o: Byte, ghost s: seq<Byte>, ghost k: Byte, ghost link: seq<Byte>)
    requires bra == |base| && ket == bra + 1 + |s| && ket + 1 + |link| <= buf.Length
    requires buf[..ket + 1 + |link|] == base + ([o] + s + [k] + link)
    modifies buf
    ensures buf[..ket + 1 + |link|] == base + ([mark] + s + [close] + link)
  {
    ghost var units := buf[..ket + 1 + |link|];
    buf[bra] := mark;
    buf[ket] := close;
    assert units[..bra] == base && units[bra + 1..ket] == s && units[ket + 1..] == link;
    assert buf[..ket + 1 + |link|] == units[..bra] + ([mark] + units[bra + 1..ket] + [close] + units[ket + 1..]);
  }

  lemma KetLink(units: seq<Byte>, base: seq<Byte>, o: Byte, s: seq<Byte>, k: Byte, link: seq<Byte>)
    requires units == base + ([o] + s + [k] + link)
    ensures units == base + ([o] + s + [k]) + link + [] && |base| < |units| && units[|base|] == o
  {
  }

  /** Set a repeater in the ket of the last copy, and mark its bracket when it could be empty. */
  method SetRepeater(buf: array<Byte>, code: nat, lazy: bool, ghost g: Op, ghost base: seq<Byte>)
    requires ValidOp(g) && g.Bra? && (g.op == OP_BRA || g.op == OP_CBRA)
    requires code <= buf.Length <= MAX_PATTERN_SIZE && buf[..code] == base + EncOp(g)
    modifies buf
    ensures ValidOp(Looped(g, lazy)) && |EncOp(Looped(g, lazy))| == |EncOp(g)| && buf[..code] == base + EncOp(Looped(g, lazy))
  {
    hide EncOp, Two, Middle, CanBeEmptyAlts, Placed, ToKet;
    ghost var s := Middle(g);
    GroupUnits(g, g.op, g.ket);
    var units := buf[..code];
    KetLink(units, base, g.op, s, g.ket, Two(|s| + 1));
    ReadBack(buf, code, base + ([g.op] + s + [g.ket]), |s| + 1, []);
    var ketcode := code - 1 - LINK_SIZE;
    var bracode := ketcode - GetIn(buf, ketcode + 1);
    LastPlaced(units, base, g);
    var empty := CouldBeEmptyGroup(units, bracode, ketcode, g);
    var mark := if empty then buf[bracode] + (OP_SBRA - OP_BRA) else buf[bracode];
    var close := if lazy then OP_KETRMIN else OP_KETRMAX;
    SetEnds(buf, bracode, ketcode, mark, close, base, g.op, s, g.ket, Two(|s| + 1));
    GroupUnits(g, mark, close);
    LoopedIs(g, lazy);
  }

  lemma LoopedIs(g: Op, lazy: bool)
    requires ValidOp(g) && g.Bra? && (g.op == OP_BRA || g.op == OP_CBRA)
    ensures ValidOp(Looped(g, lazy))
    ensures Looped(g, lazy) == Bra(if CanBeEmptyAlts(g.body) then g.op + (OP_SBRA - OP_BRA) else g.op, g.cap, g.body,
                                   if lazy then OP_KETRMIN else OP_KETRMAX)
  {
  }

  lemma LastPlaced(units: seq<Byte>, base: seq<Byte>, g: Op)
    requires ValidOp(g) && g.Bra? && units == base + EncOp(g) && |units| <= MAX_PATTERN_SIZE
    ensures Placed(units, |base|, EncOp(g)) && ToKet(units, |base|) == |units| - 1 - LINK_SIZE
  {
    hide EncOp, ToKet;
    var u := EncOp(g);
    forall k | 0 <= k < |u|
      ensures At(units, |base| + k) == u[k]
    {
      assert units[|base| + k] == u[k];
    }
    GroupEnd(units, |base|, g);
  }

  // ----- the whole quantifier -----

  function CopySeq(u: seq<Byte>, n: nat): seq<Byte> { if n == 0 then [] else CopySeq(u, n - 1) + u }

  lemma CopyLength(u: seq<Byte>, n: nat)
    ensures |CopySeq(u, n)| == n * |u|
  {
    if n > 0 {
      CopyLength(u, n - 1);
    }
  }

  /** Replicate the group until it is there `n` times. */
  method Replicate(buf: array<Byte>, start: nat, end: nat, n: nat, ghost base: seq<Byte>, ghost u: seq<Byte>) returns (code: nat)
    requires start == |base| && n > 0 && end <= buf.Length && buf[..end] == base + u
    requires |base| + n * |u| <= buf.Length
    modifies buf
    ensures code <= buf.Length && buf[..code] == base + CopySeq(u, n)
  {
    hide CopySeq;
    code := end;
    var i := 1;
    CopyMore(base, u, 0);
    assert CopySeq(u, 0) == [] by { CopyLength(u, 0); }
    assert base + [] + u == base + u;
    while i < n
      invariant 1 <= i <= n && code <= buf.Length && code == |base| + i * |u|
      invariant buf[..code] == base + CopySeq(u, i)
    {
      CopyMore(base, u, i - 1);
      CopyLength(u, i - 1);
      FirstCopy(buf[..code], base, u, i);
      assert (i + 1) * |u| == i * |u| + |u| <= n * |u| by { Multiple(i + 1, n, |u|); }
      code := CopyUp(buf, code, start, end - start);
      CopyMore(base, u, i);
      i := i + 1;
    }
  }

  lemma Multiple(a: nat, b: nat, c: nat)
    requires a <= b
    ensures a * c <= b * c && (a > 0 ==> a * c == (a - 1) * c + c)
  {
  }

  lemma CopyMore(base: seq<Byte>, u: seq<Byte>, i: nat)
    ensures base + CopySeq(u, i + 1) == base + CopySeq(u, i) + u
  {
  }

  lemma FirstCopy(units: seq<Byte>, base: seq<Byte>, u: seq<Byte>, i: nat)
    requires i > 0 && units == base + CopySeq(u, i)
    ensures |base| + |u| <= |units| && units[|base|..|base| + |u|] == u
    decreases i
  {
    if i == 1 {
      assert CopySeq(u, 1) == [] + u;
    } else {
      FirstCopy(base + CopySeq(u, i - 1), base, u, i - 1);
      assert units == base + CopySeq(u, i - 1) + u;
    }
  }

  /** Append `count` optional copies, all but the last opening a further bracket. */
  method AddOptional(buf: array<Byte>, code0: nat, previous: nat, len: nat, count: nat, zero: Byte, link: int,
                     ghost base: seq<Byte>, ghost u: seq<Byte>, ghost k0: nat)
    returns (code: nat, bralink: int)
    requires count > 0 && |u| == len && previous + len <= code0 <= buf.Length && buf[previous..previous + len] == u
    requires buf[..code0] == base + Pending(zero, u, k0) && link == LinkOf(base, zero, u, k0)
    requires |base| + (k0 + count - 1) * (4 + len) + 1 + len <= buf.Length <= MAX_PATTERN_SIZE
    modifies buf
    ensures code <= buf.Length && buf[..code] == base + Pending(zero, u, k0 + count - 1) + ([zero] + u)
    ensures bralink == LinkOf(base, zero, u, k0 + count - 1)
  {
    hide Pending, Two;
    code, bralink := code0, link;
    var i := count - 1;
    ghost var k := k0;
    PendingLength(zero, u, k);
    while i > 0
      invariant i >= 0 && k == k0 + count - 1 - i && previous + len <= code <= buf.Length
      invariant code == |base| + k * (4 + len) && buf[previous..previous + len] == u
      invariant buf[..code] == base + Pending(zero, u, k) && bralink == LinkOf(base, zero, u, k)
    {
      Multiple(k + 1, k0 + count - 1, 4 + len);
      code, bralink := OneOptional(buf, code, previous, len, zero, bralink, base, u, k);
      k := k + 1;
      i := i - 1;
    }
    code := EmitCopy(buf, code, [zero], previous, len, u);
  }

  method OneOptional(buf: array<Byte>, code0: nat, previous: nat, len: nat, zero: Byte, link: int,
                     ghost base: seq<Byte>, ghost u: seq<Byte>, ghost k: nat)
    returns (code: nat, bralink: int)
    requires |u| == len && previous + len <= code0 && code0 + 4 + len <= buf.Length <= MAX_PATTERN_SIZE
    requires buf[previous..previous + len] == u
    requires buf[..code0] == base + Pending(zero, u, k) && link == LinkOf(base, zero, u, k)
    modifies buf
    ensures code == code0 + 4 + len && buf[..code] == base + Pending(zero, u, k + 1)
    ensures bralink == LinkOf(base, zero, u, k + 1) && buf[previous..previous + len] == u
  {
    hide Pending, Two;
    PendingStep(zero, u, k + 1);
    if k > 0 { PendingStep(zero, u, k); } else { PendingLength(zero, u, k); }
    var next := code0 + 2;
    var offset := if link < 0 then 0 else next - link;
    bralink := next;
    code := EmitCopy(buf, code0, [zero, OP_BRA] + Two(offset), previous, len, u);
    Regroup(base, Pending(zero, u, k), [zero, OP_BRA], Two(offset), u);
  }

  lemma Regroup(base: seq<Byte>, p: seq<Byte>, head: seq<Byte>, link: seq<Byte>, u: seq<Byte>)
    ensures base + p + (head + link + u) == base + (p + head + link + u)
  {
  }

  /** The units of a quantified group. */
  ghost function GroupSeq(g: Op, q: Quant): seq<Byte>
    requires ValidOp(g) && g.Bra? && (g.op == OP_BRA || g.op == OP_CBRA) && ValidQuant(q)
  {
    ValidGroup(g, q);
    EncOps(ExpandGroup(g, q))
  }

  lemma {:induction false} CopiesUnits(g: Op, n: nat, rest: Ops)
    requires ValidOp(g) && ValidOps(rest)
    ensures ValidOps(Copies(g, n, rest)) && EncOps(Copies(g, n, rest)) == CopySeq(EncOp(g), n) + EncOps(rest)
    decreases n
  {
    hide EncOp;
    ValidCopies(g, n, rest);
    if n > 0 {
      CopiesUnits(g, n - 1, rest);
      CopyFront(EncOp(g), n - 1);
      assert EncOp(g) + (CopySeq(EncOp(g), n - 1) + EncOps(rest)) == EncOp(g) + CopySeq(EncOp(g), n - 1) + EncOps(rest);
    }
  }

  lemma {:induction false} CopyFront(u: seq<Byte>, n: nat)
    ensures CopySeq(u, n + 1) == u + CopySeq(u, n)
    decreases n
  {
    if n > 0 {
      CopyFront(u, n - 1);
      assert u + CopySeq(u, n - 1) + u == u + (CopySeq(u, n - 1) + u);
    } else {
      assert CopySeq(u, 1) == CopySeq(u, 0) + u;
      assert [] + u == u + [];
    }
  }

  lemma OneUnits(op: Op)
    requires ValidOp(op)
    ensures ValidOps(Cons(op, Nil)) && EncOps(Cons(op, Nil)) == EncOp(op)
  {
    hide EncOp;
    assert EncOps(Cons(op, Nil)) == EncOp(op) + EncOps(Nil);
  }

  lemma SkipUnits(g: Op, q: Quant)
    requires ValidOp(g) && g.Bra? && (g.op == OP_BRA || g.op == OP_CBRA) && ValidQuant(q) && q.max == 0
    ensures GroupSeq(g, q) == [OP_SKIPZERO] + EncOp(g)
  {
    hide EncBracket;
    OneUnits(Skip(g));
  }

  /** {n,}: copies and a loop. */
  lemma LoopUnits(g: Op, q: Quant)
    requires ValidOp(g) && g.Bra? && (g.op == OP_BRA || g.op == OP_CBRA) && ValidQuant(q) && q.max < 0
    ensures ValidOp(Looped(g, q.greed == Lazy))
    ensures GroupSeq(g, q)
         == (if q.min == 0 then [ZeroUnit(q.greed == Lazy)] else CopySeq(EncOp(g), q.min - 1)) + EncOp(Looped(g, q.greed == Lazy))
  {
    hide EncOp, EncOps, CanBeEmptyAlts;
    var loop := Looped(g, q.greed == Lazy);
    LoopedIs(g, q.greed == Lazy);
    if q.min == 0 {
      ZeroUnits(loop, q.greed == Lazy);
    } else {
      OneUnits(loop);
      CopiesUnits(g, q.min - 1, Cons(loop, Nil));
    }
  }

  lemma GroupIsCopies(g: Op, q: Quant)
    requires ValidOp(g) && g.Bra? && (g.op == OP_BRA || g.op == OP_CBRA) && ValidQuant(q) && q.max > 0
    ensures ExpandGroup(g, q) == Copies(g, q.min, Optional(g, q.max - q.min, q.greed == Lazy))
  {
    hide Optional;
  }

  /** {n,m}: copies and a nest. */
  lemma CountUnits(g: Op, q: Quant)
    requires ValidOp(g) && g.Bra? && (g.op == OP_BRA || g.op == OP_CBRA) && ValidQuant(q) && q.max > 0
    ensures GroupSeq(g, q) == CopySeq(EncOp(g), q.min) + NestSeq(g, q.max - q.min, q.greed == Lazy)
  {
    hide EncOp, EncOps, CopySeq, Optional, Copies, ValidOp, ValidOps;
    ValidOptional(g, q.max - q.min, q.greed == Lazy);
    GroupIsCopies(g, q);
    CopiesUnits(g, q.min, Optional(g, q.max - q.min, q.greed == Lazy));
    if q.min == 0 {
      assert [] + NestSeq(g, q.max, q.greed == Lazy) == NestSeq(g, q.max, q.greed == Lazy);
    }
  }

  /** The optional part {0,m} after `base`; `k0` brackets of the nest are open already. */
  method OptionalPart(buf: array<Byte>, code0: nat, previous: nat, len: nat, count: nat, link: int, lazy: bool,
                      ghost g: Op, ghost base: seq<Byte>, ghost k0: nat)
    returns (code: nat)
    requires ValidOp(g) && g.Bra? && count > 0 && |EncOp(g)| == len
    requires previous + len <= code0 <= buf.Length && buf[previous..previous + len] == EncOp(g)
    requires buf[..code0] == base + Pending(ZeroUnit(lazy), EncOp(g), k0) && link == LinkOf(base, ZeroUnit(lazy), EncOp(g), k0)
    requires |base| + |NestSeq(g, k0 + count, lazy)| <= buf.Length <= MAX_PATTERN_SIZE
    modifies buf
    ensures code <= buf.Length && buf[..code] == base + NestSeq(g, k0 + count, lazy)
  {
    hide EncOp, Pending, NestSeq, ValidOp;
    var zero := ZeroUnit(lazy);
    NestFits(g, k0 + count, k0 + count - 1, lazy);
    PendingLength(zero, EncOp(g), k0 + count - 1);
    NestFirst(g, lazy);
    var bralink;
    code, bralink := AddOptional(buf, code0, previous, len, count, zero, link, base, EncOp(g), k0);
    code := CloseNest(buf, code, bralink, g, k0 + count, lazy, base);
  }

  /** A quantified group: on entry the group is the last thing in the buffer; on return what the
      quantifier makes of it is. */
  method RepeatGroup(buf: array<Byte>, previous: nat, code0: nat, q: Quant, ghost g: Op, ghost base: seq<Byte>)
    returns (code: nat)
    requires ValidOp(g) && g.Bra? && (g.op == OP_BRA || g.op == OP_CBRA) && g.ket == OP_KET && ValidQuant(q)
    requires previous == |base| && code0 <= buf.Length && buf[..code0] == base + EncOp(g)
    requires |base| + |GroupSeq(g, q)| <= buf.Length <= MAX_PATTERN_SIZE
    modifies buf
    ensures code <= buf.Length && buf[..code] == base + GroupSeq(g, q)
  {
    hide EncOp, GroupSeq, NestSeq, Looped, ValidOp, Pending, CopySeq;
    if q.min == 0 {
      code := ZeroMinimum(buf, previous, code0, q, g, base);
    } else if q.max < 0 {
      LoopUnits(g, q);
      LoopLength(g, q);
      code := Replicate(buf, previous, code0, q.min, base, EncOp(g));
      CopyMore(base, EncOp(g), q.min - 1);
      SetRepeater(buf, code, q.greed == Lazy, g, base + CopySeq(EncOp(g), q.min - 1));
      Assoc(base, CopySeq(EncOp(g), q.min - 1), EncOp(Looped(g, q.greed == Lazy)));
    } else {
      code := CountedGroup(buf, previous, code0, q, g, base);
    }
  }

  lemma Assoc(a: seq<Byte>, b: seq<Byte>, c: seq<Byte>)
    ensures a + b + c == a + (b + c)
  {
  }

  lemma LoopLength(g: Op, q: Quant)
    requires ValidOp(g) && g.Bra? && (g.op == OP_BRA || g.op == OP_CBRA) && ValidQuant(q) && q.max < 0 && q.min > 0
    ensures |GroupSeq(g, q)| == q.min * |EncOp(g)|
  {
    hide EncOp, GroupSeq, CanBeEmptyAlts;
    LoopUnits(g, q);
    CopyLength(EncOp(g), q.min - 1);
    LoopedIs(g, q.greed == Lazy);
    GroupUnits(g, g.op, g.ket);
    var loop := Looped(g, q.greed == Lazy);
    GroupUnits(g, loop.op, loop.ket);
    Multiple(q.min, q.min, |EncOp(g)|);
  }

  /** {n,m} with 0 < n: copies, and the rest of them optional. */
  method CountedGroup(buf: array<Byte>, previous: nat, code0: nat, q: Quant, ghost g: Op, ghost base: seq<Byte>)
    returns (code: nat)
    requires ValidOp(g) && g.Bra? && (g.op == OP_BRA || g.op == OP_CBRA) && ValidQuant(q) && q.min > 0 && q.max > 0
    requires previous == |base| && code0 <= buf.Length && buf[..code0] == base + EncOp(g)
    requires |base| + |GroupSeq(g, q)| <= buf.Length <= MAX_PATTERN_SIZE
    modifies buf
    ensures code <= buf.Length && buf[..code] == base + GroupSeq(g, q)
  {
    hide EncOp, GroupSeq, NestSeq, ValidOp, Pending, CopySeq;
    CountUnits(g, q);
    CopyLength(EncOp(g), q.min);
    var len := code0 - previous;
    code := Replicate(buf, previous, code0, q.min, base, EncOp(g));
    FirstCopy(buf[..code], base, EncOp(g), q.min);
    ghost var front := base + CopySeq(EncOp(g), q.min);
    var lazy := q.greed == Lazy;
    if q.max > q.min {
      assert Pending(ZeroUnit(lazy), EncOp(g), 0) == [] by { PendingLength(ZeroUnit(lazy), EncOp(g), 0); }
      assert front + [] == front;
      code := OptionalPart(buf, code, previous, len, q.max - q.min, -1, lazy, g, front, 0);
    } else {
      NoNest(g, lazy);
    }
    Assoc(base, CopySeq(EncOp(g), q.min), NestSeq(g, q.max - q.min, lazy));
  }

  lemma NoNest(g: Op, lazy: bool)
    requires ValidOp(g) && g.Bra?
    ensures NestSeq(g, 0, lazy) == []
    ensures forall s: seq<Byte> :: s + [] == s
  {
  }

  /** {0}, {0,1}, {0,m} and {0,}: an opcode before the group says that it may be passed over. */
  method ZeroMinimum(buf: array<Byte>, previous: nat, code0: nat, q: Quant, ghost g: Op, ghost base: seq<Byte>)
    returns (code: nat)
    requires ValidOp(g) && g.Bra? && (g.op == OP_BRA || g.op == OP_CBRA) && ValidQuant(q) && q.min == 0
    requires previous == |base| && code0 <= buf.Length && buf[..code0] == base + EncOp(g)
    requires |base| + |GroupSeq(g, q)| <= buf.Length <= MAX_PATTERN_SIZE
    modifies buf
    ensures code <= buf.Length && buf[..code] == base + GroupSeq(g, q)
  {
    hide EncOp, GroupSeq, NestSeq, ValidOp, Looped, Pending, CopySeq;
    var lazy := q.greed == Lazy;
    var len := code0 - previous;
    ghost var u := EncOp(g);
    if q.max == 0 {
      SkipUnits(g, q);
      Insert(buf, previous, code0, [OP_SKIPZERO], base, u);
      code := code0 + 1;
    } else if q.max < 0 {
      LoopUnits(g, q);
      LoopedSize(g, lazy);
      Insert(buf, previous, code0, [ZeroUnit(lazy)], base, u);
      code := code0 + 1;
      Assoc(base, [ZeroUnit(lazy)], u);
      SetRepeater(buf, code, lazy, g, base + [ZeroUnit(lazy)]);
      Assoc(base, [ZeroUnit(lazy)], EncOp(Looped(g, lazy)));
    } else {
      CountUnits(g, q);
      CopyLength(u, 0);
      Assoc(base, [], NestSeq(g, q.max, lazy));
      assert [] + NestSeq(g, q.max, lazy) == NestSeq(g, q.max, lazy);
      if q.max == 1 {
        NestFirst(g, lazy);
        Insert(buf, previous, code0, [ZeroUnit(lazy)], base, u);
        code := code0 + 1;
      } else {
        NestFits(g, q.max, 1, lazy);
        PendingLength(ZeroUnit(lazy), u, 1);
        FirstPending(ZeroUnit(lazy), u);
        Insert(buf, previous, code0, [ZeroUnit(lazy), OP_BRA] + Two(0), base, u);
        code := code0 + 2 + LINK_SIZE;
        assert buf[previous + 4..code] == buf[..code][previous + 4..] == u;
        code := OptionalPart(buf, code, previous + 2 + LINK_SIZE, len, q.max - 1, previous + 2, lazy, g, base, 1);
      }
    }
  }

  lemma FirstPending(z: Byte, u: seq<Byte>)
    ensures Pending(z, u, 1) == [z, OP_BRA] + Two(0) + u
  {
    assert Pending(z, u, 0) == [];
  }

  lemma LoopedSize(g: Op, lazy: bool)
    requires ValidOp(g) && g.Bra? && (g.op == OP_BRA || g.op == OP_CBRA)
    ensures ValidOp(Looped(g, lazy)) && |EncOp(Looped(g, lazy))| == |EncOp(g)|
  {
    hide EncOp, CanBeEmptyAlts;
    LoopedIs(g, lazy);
    GroupUnits(g, g.op, g.ket);
    GroupUnits(g, Looped(g, lazy).op, Looped(g, lazy).ket);
  }
}
