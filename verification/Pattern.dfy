/** Patterns: what the text says, item by item, with its quantifiers, and what it means. */
module Pattern {
  import opened Bytecode
  import opened Tree
  import opened Subject
  import opened Semantics

  datatype Greed = Greedy | Lazy | Possessive

  /** {min,max}; `max` is -1 when there is no limit. `shown` says that the text starts with
      '*', '?' or "{0,", which is all that the compiler looks for when it asks whether an item
      is optional: "{0}" and "{00,3}" are optional but do not show it. */
  datatype Quant = Quant(min: nat, max: int, greed: Greed, shown: bool)

  /** `shown` of an unquantified atom: literal text after it happens to start with "{0,". */
  datatype Item =
    | PTest(op: Byte)
    | PAtom(atom: Atom, shown: bool)
    | PRep(atom: Atom, q: Quant)
    | PGroup(cap: nat, body: PAlts)
    | PGroupRep(cap: nat, body: PAlts, q: Quant)
    | PLook(op: Byte, body: PAlts)

  datatype Branch = BNil | BCons(head: Item, tail: Branch)

  datatype PAlts = PLast(branch: Branch) | PMore(branch: Branch, rest: PAlts)

  predicate ValidQuant(q: Quant) {
    && q.min < 0x10000 && q.max < 0x10000
    && (q.max < 0 ==> q.max == -1)
    && (q.max >= 0 ==> q.min <= q.max)
    && (q.shown ==> q.min == 0)
  }

  // ----- meaning -----

  ghost predicate MItem(x: Ctx, item: Item, i: nat, j: nat)
    requires ValidItem(item)
    decreases item, 0
  {
    match item
    case PTest(o) => i == j && TestHolds(x, o, i)
    case PAtom(a, _) => j == i + 1 && MatchesHere(x, a, i)
    case PRep(a, q) => RepSpan(x, a, Bounds(q.min, q.max, false, q.greed == Possessive, true), 0, i, j)
    case PGroup(_, body) => MPAlts(x, body, i, j)
    case PGroupRep(_, body, q) =>
      exists n: nat :: q.min <= n && (q.max >= 0 ==> n <= q.max) && Times(x, body, n, i, j)
    case PLook(o, body) => i == j && (MPLook(x, o, body, i) <==> (o == OP_ASSERT || o == OP_ASSERTBACK))
  }

  ghost predicate MBranch(x: Ctx, b: Branch, i: nat, j: nat)
    requires ValidBranch(b)
    decreases b, 0
  {
    match b
    case BNil => i == j
    case BCons(item, rest) => exists k: nat :: MItem(x, item, i, k) && MBranch(x, rest, k, j)
  }

  ghost predicate MPAlts(x: Ctx, al: PAlts, i: nat, j: nat)
    requires ValidPAlts(al)
    decreases al, 0
  {
    MBranch(x, al.branch, i, j) || (al.PMore? && MPAlts(x, al.rest, i, j))
  }

  /** The group matches `n` times in succession. */
  ghost predicate Times(x: Ctx, al: PAlts, n: nat, i: nat, j: nat)
    requires ValidPAlts(al)
    decreases al, n + 1
  {
    if n == 0 then i == j else exists k: nat :: MPAlts(x, al, i, k) && Times(x, al, n - 1, k, j)
  }

  ghost predicate MPLook(x: Ctx, op: Byte, body: PAlts, p: nat)
    requires ValidPAlts(body)
    decreases body, 1
  {
    var y := x.(som := p);
    if IsBack(op) then exists s: nat :: MPAlts(y, body, s, p) else exists j: nat :: MPAlts(y, body, p, j)
  }

  lemma MBranchCons(x: Ctx, item: Item, rest: Branch, i: nat, k: nat, j: nat)
    requires ValidItem(item) && ValidBranch(rest) && MItem(x, item, i, k) && MBranch(x, rest, k, j)
    ensures MBranch(x, BCons(item, rest), i, j)
  {
  }

  lemma MBranchElim(x: Ctx, b: Branch, i: nat, j: nat) returns (k: nat)
    requires ValidBranch(b) && b.BCons? && MBranch(x, b, i, j)
    ensures MItem(x, b.head, i, k) && MBranch(x, b.tail, k, j)
  {
    k :| MItem(x, b.head, i, k) && MBranch(x, b.tail, k, j);
  }

  lemma TimesCons(x: Ctx, al: PAlts, n: nat, i: nat, k: nat, j: nat)
    requires ValidPAlts(al) && MPAlts(x, al, i, k) && Times(x, al, n, k, j)
    ensures Times(x, al, n + 1, i, j)
  {
  }

  lemma TimesElim(x: Ctx, al: PAlts, n: nat, i: nat, j: nat) returns (k: nat)
    requires ValidPAlts(al) && n > 0 && Times(x, al, n, i, j)
    ensures MPAlts(x, al, i, k) && Times(x, al, n - 1, k, j)
  {
    k :| MPAlts(x, al, i, k) && Times(x, al, n - 1, k, j);
  }

  lemma RepeatElim(x: Ctx, item: Item, i: nat, j: nat) returns (n: nat)
    requires ValidItem(item) && item.PGroupRep? && MItem(x, item, i, j)
    ensures item.q.min <= n && (item.q.max >= 0 ==> n <= item.q.max) && Times(x, item.body, n, i, j)
  {
    n :| item.q.min <= n && (item.q.max >= 0 ==> n <= item.q.max) && Times(x, item.body, n, i, j);
  }

  lemma MPLookElim(x: Ctx, op: Byte, body: PAlts, p: nat) returns (q: nat)
    requires ValidPAlts(body) && MPLook(x, op, body, p)
    ensures if IsBack(op) then MPAlts(x.(som := p), body, q, p) else MPAlts(x.(som := p), body, p, q)
  {
    if IsBack(op) {
      q :| MPAlts(x.(som := p), body, q, p);
    } else {
      q :| MPAlts(x.(som := p), body, p, q);
    }
  }

  lemma MPLookIntro(x: Ctx, op: Byte, body: PAlts, p: nat, q: nat)
    requires ValidPAlts(body)
    requires if IsBack(op) then MPAlts(x.(som := p), body, q, p) else MPAlts(x.(som := p), body, p, q)
    ensures MPLook(x, op, body, p)
  {
  }

  // ----- spans go forward and stay inside the subject -----

  lemma {:induction false} SpanItem(x: Ctx, item: Item, i: nat, j: nat)
    requires ValidItem(item) && MItem(x, item, i, j)
    ensures i <= j && (i <= |x.subject| ==> j <= |x.subject|)
    decreases item, 0
  {
    match item
    case PGroup(_, body) => SpanPAlts(x, body, i, j);
    case PGroupRep(_, body, q) =>
      var n := RepeatElim(x, item, i, j);
      SpanTimes(x, body, n, i, j);
    case _ =>
  }

  lemma {:induction false} SpanBranch(x: Ctx, b: Branch, i: nat, j: nat)
    requires ValidBranch(b) && MBranch(x, b, i, j)
    ensures i <= j && (i <= |x.subject| ==> j <= |x.subject|)
    decreases b, 0
  {
    if b.BCons? {
      var k := MBranchElim(x, b, i, j);
      SpanItem(x, b.head, i, k);
      SpanBranch(x, b.tail, k, j);
    }
  }

  lemma {:induction false} SpanPAlts(x: Ctx, al: PAlts, i: nat, j: nat)
    requires ValidPAlts(al) && MPAlts(x, al, i, j)
    ensures i <= j && (i <= |x.subject| ==> j <= |x.subject|)
    decreases al, 0
  {
    if MBranch(x, al.branch, i, j) {
      SpanBranch(x, al.branch, i, j);
    } else {
      SpanPAlts(x, al.rest, i, j);
    }
  }

  lemma {:induction false} SpanTimes(x: Ctx, al: PAlts, n: nat, i: nat, j: nat)
    requires ValidPAlts(al) && Times(x, al, n, i, j)
    ensures i <= j && (i <= |x.subject| ==> j <= |x.subject|)
    decreases al, n + 1
  {
    if n > 0 {
      var k := TimesElim(x, al, n, i, j);
      SpanPAlts(x, al, i, k);
      SpanTimes(x, al, n - 1, k, j);
    }
  }

  // ----- what is in scope -----

  predicate ValidItem(item: Item) {
    match item
    case PTest(o) => IsTest(o)
    case PAtom(a, _) => ValidAtom(a)
    case PRep(a, q) => ValidAtom(a) && ValidQuant(q)
    case PGroup(cap, body) => cap < 0x10000 && ValidPAlts(body)
    case PGroupRep(cap, body, q) => cap < 0x10000 && ValidPAlts(body) && ValidQuant(q) && q.greed != Possessive
    case PLook(o, body) => IsLook(o) && ValidPAlts(body)
  }

  predicate ValidBranch(b: Branch) { b.BCons? ==> ValidItem(b.head) && ValidBranch(b.tail) }

  predicate ValidPAlts(al: PAlts) { ValidBranch(al.branch) && (al.PMore? ==> ValidPAlts(al.rest)) }

  // ----- automatic possessification -----

  predicate IsType(op: Byte) { OP_NOT_DIGIT <= op <= OP_WORDCHAR }

  /** The repeated item is of class `op`; can the character `c` not match it? */
  predicate TypeExcludes(t: CharTables, op: Byte, c: Byte) { IsType(op) && !KindAt(t, op, c) }

  /** The repeated item is of class `op` and the next one of class `next`: the rows of the table. */
  predicate TypesExclude(op: Byte, next: Byte) {
    if op == OP_DIGIT then next == OP_NOT_DIGIT || next == OP_WHITESPACE || next == OP_NOT_WORDCHAR
    else if op == OP_NOT_DIGIT then next == OP_DIGIT
    else if op == OP_WHITESPACE then next == OP_NOT_WHITESPACE || next == OP_DIGIT || next == OP_WORDCHAR
    else if op == OP_NOT_WHITESPACE then next == OP_WHITESPACE
    else if op == OP_WORDCHAR then next == OP_NOT_WORDCHAR || next == OP_WHITESPACE
    else if op == OP_NOT_WORDCHAR then next == OP_WORDCHAR || next == OP_DIGIT
    else false
  }

  /** The comparison of the repeated item with the next one. */
  predicate Excludes(t: CharTables, a: Atom, next: Atom) {
    match next
    case Lit(d, _) =>
      (match a
       case Lit(c, nocase) => c != d && (nocase ==> c != t.flip[d])
       case NotLit(c, nocase) => c == d || (nocase && c == t.flip[d])
       case Kind(op) => TypeExcludes(t, op, d)
       case Class(_, _) => false)
    case Kind(op) =>
      IsType(op) &&
      (match a
       case Lit(c, _) => !KindAt(t, op, c)
       case Kind(k) => TypesExclude(k, op)
       case _ => false)
    case _ => false
  }

  /** Should an unlimited repeat of `a` that is followed by `rest` be made possessive? */
  predicate AutoPossessive(t: CharTables, a: Atom, rest: Branch) {
    match rest
    case BCons(PAtom(b, shown), _) => !shown && Excludes(t, a, b)
    case BCons(PRep(b, q), _) => !q.shown && Excludes(t, a, b)
    case _ => false
  }

  predicate MadePossessive(t: CharTables, a: Atom, q: Quant, rest: Branch) {
    q.greed == Possessive || (q.max < 0 && !a.Class? && AutoPossessive(t, a, rest))
  }

  /** A possessive repeat for which there is no possessive opcode; the compiler then wraps the
      item in an atomic group, which is outside this model. */
  predicate Wrapped(t: CharTables, a: Atom, q: Quant, rest: Branch) {
    MadePossessive(t, a, q, rest) && q.max != 0
    && (a.Class? || (q.min == 1 && q.max > 1) || (q.min >= 2 && (a.Lit? || a.NotLit?) && a.nocase))
  }

  predicate Unwrapped(t: CharTables, al: PAlts) {
    UnwrappedBranch(t, al.branch) && (al.PMore? ==> Unwrapped(t, al.rest))
  }

  predicate UnwrappedBranch(t: CharTables, b: Branch) {
    b.BCons? ==> UnwrappedItem(t, b.head, b.tail) && UnwrappedBranch(t, b.tail)
  }

  predicate UnwrappedItem(t: CharTables, item: Item, rest: Branch) {
    match item
    case PRep(a, q) => !Wrapped(t, a, q, rest)
    case PGroup(_, body) => Unwrapped(t, body)
    case PGroupRep(_, body, _) => Unwrapped(t, body)
    case PLook(_, body) => Unwrapped(t, body)
    case _ => true
  }

  /** A repeat and a literal right behind it are compiled under the same caseless option: a change of
      options between them would be text that the comparison does not look past. */
  predicate Settled(al: PAlts) { SettledBranch(al.branch) && (al.PMore? ==> Settled(al.rest)) }

  predicate SettledBranch(b: Branch) {
    b.BCons? ==> SettledItem(b.head) && (b.head.PRep? ==> SameSetting(b.head.atom, b.tail)) && SettledBranch(b.tail)
  }

  predicate SettledItem(item: Item) {
    match item
    case PGroup(_, body) => Settled(body)
    case PGroupRep(_, body, _) => Settled(body)
    case PLook(_, body) => Settled(body)
    case _ => true
  }

  predicate SameSetting(a: Atom, rest: Branch) {
    match rest
    case BCons(PAtom(b, _), _) => SameCase(a, b)
    case BCons(PRep(b, _), _) => SameCase(a, b)
    case _ => true
  }

  predicate SameCase(a: Atom, b: Atom) { (a.Lit? || a.NotLit?) && b.Lit? ==> a.nocase == b.nocase }
}
