/** The first and the required character of a pattern: what the compiler collects while it
    compiles, that every match has them, and which lookaheads spoil this. */
module FirstReq {
  import opened Bytecode
  import opened Tree
  import opened Subject
  import opened Pattern
  import opened Lookahead

  datatype Start = Start(first: Req, req: Req)

  /** After a single item, and what a zero repeat of that item falls back to. */
  datatype Step = Step(after: Start, zero: Start)

  function AtomStep(a: Atom, s: Start, vary: bool): Step {
    if a.Lit? then
      if s.first.Unset? then Step(Start(Char(a.ch, a.nocase, false), s.req), Start(NoChar, s.req))
      else Step(Start(s.first, Char(a.ch, a.nocase, vary)), s)
    else
      var t := Start(if s.first.Unset? then NoChar else s.first, s.req);
      Step(t, t)
  }

  /** A group, whose own values are `sub`; `vary` is the flag from before the group. */
  function GroupStep(s: Start, sub: Start, vary: bool): Step {
    if s.first.Unset? then
      var f := if sub.first.Char? then sub.first else NoChar;
      Step(Start(f, if sub.req.Char? then sub.req else s.req), Start(NoChar, s.req))
    else
      var r := if sub.req.Char? then sub.req
               else if sub.first.Char? then sub.first.(vary := sub.first.vary || vary) else s.req;
      Step(Start(s.first, r), s)
  }

  function ItemStart(item: Item, s: Start, vary: bool): Start {
    match item
    case PTest(o) => if o == OP_CIRCM && s.first.Unset? then Start(NoChar, s.req) else s
    case PAtom(a, _) => AtomStep(a, s, vary).after
    case PRep(a, q) =>
      var t := AtomStep(a, s, vary);
      if q.min == 0 then t.zero
      else if a.Lit? && q.min > 1 then Start(t.after.first, Char(a.ch, a.nocase, vary))
      else t.after
    case PGroup(_, body) => GroupStep(s, AltsStart(body, vary), vary).after
    case PGroupRep(_, body, q) =>
      var t := GroupStep(s, AltsStart(body, vary), vary);
      if q.min == 0 then t.zero
      else if q.min > 1 && s.first.Unset? && t.after.first.Char? && !t.after.req.Char? then Start(t.after.first, t.after.first)
      else t.after
    case PLook(o, body) =>
      var sub := AltsStart(body, vary);
      if o == OP_ASSERT && sub.req.Char? then Start(s.first, sub.req) else s
  }

  function BranchStart(b: Branch, s: Start, vary: bool): Start {
    match b
    case BNil => s
    case BCons(item, rest) => BranchStart(rest, ItemStart(item, s, vary), vary || Varies(item))
  }

  /** The values of the alternatives so far, `s`, and of one more branch, `b`. */
  function Merge(s: Start, b: Start): Start {
    var lost := s.first.Char? && s.first != b.first;
    var first := if lost then NoChar else s.first;
    var req := if lost && !s.req.Char? then s.first else s.req;
    var other := if !first.Char? && b.first.Char? && !b.req.Char? then b.first else b.req;
    Start(first,
          match (req, other)
          case (Char(c, n, v), Char(d, m, w)) => if c == d && n == m then Char(c, n, v || w) else NoChar
          case _ => if req == other then req else NoChar)
  }

  function AltsStart(al: PAlts, vary: bool): Start {
    var s := BranchStart(al.branch, Start(Unset, Unset), vary);
    if al.PLast? then s else MoreStart(al.rest, s, vary || VariesBranch(al.branch))
  }

  function MoreStart(al: PAlts, s: Start, vary: bool): Start {
    var t := Merge(s, BranchStart(al.branch, Start(Unset, Unset), vary));
    if al.PLast? then t else MoreStart(al.rest, t, vary || VariesBranch(al.branch))
  }

  /** Is there a repeat of varying length? Once there was one, later required characters say so. */
  predicate Varies(item: Item) {
    match item
    case PRep(_, q) => q.min != q.max
    case PGroup(_, body) => VariesAlts(body)
    case PGroupRep(_, body, q) => VariesAlts(body) || q.min != q.max
    case PLook(_, body) => VariesAlts(body)
    case _ => false
  }

  predicate VariesBranch(b: Branch) { b.BCons? && (Varies(b.head) || VariesBranch(b.tail)) }

  predicate VariesAlts(al: PAlts) { VariesBranch(al.branch) || (al.PMore? && VariesAlts(al.rest)) }

  // ----- what the values mean -----

  /** Where the required character is promised to be: in the match and after its first character; in
      the subject and after the first character; or just in the subject, from the match's start on. */
  datatype Scope = Within | After | Anywhere

  function Low(s: Start, i: nat, g: Scope): nat { if s.first.Char? && g != Anywhere then i + 1 else i }

  function High(x: Ctx, k: nat, g: Scope): nat { if g == Within then k else |x.subject| }

  /** The first character is at the start of the span, and the required one is where it should be. */
  ghost predicate Explains(x: Ctx, s: Start, i: nat, k: nat, g: Scope) {
    && (s.first.Char? ==> i < k && i < |x.subject| && CharIs(x.tables, s.first, x.subject[i]))
    && (s.req.Char? ==> Found(x, s.req, Low(s, i, g), High(x, k, g)))
  }

  /** Within a branch: as long as no first character is settled, nothing has been matched, and only a
      lookahead can have set the required one. */
  ghost predicate Sofar(x: Ctx, s: Start, i: nat, k: nat, g: Scope) {
    && Explains(x, s, i, k, g)
    && (s.first.Unset? ==> i == k && (s.req.Char? ==> g != Within && (g == After ==> Found(x, s.req, i + 1, |x.subject|))))
  }

  /** What a group must promise when the values before it are `s`. */
  function Inner(g: Scope, s: Start): Scope { if g == After && !s.first.Unset? then Anywhere else g }

  /** No lookahead spoils the promise. The one that could is a positive one that sets the required
      character while no first character is settled, unless its character must come later, or is what
      is required already. */
  ghost predicate FineItem(t: CharTables, item: Item, s: Start, vary: bool, g: Scope)
    requires ValidItem(item)
    decreases item, 0
  {
    match item
    case PGroup(_, body) => Fine(t, body, vary, Inner(g, s))
    case PGroupRep(_, body, q) => q.min == 0 || Fine(t, body, vary, Inner(g, s))
    case PLook(o, body) =>
      var req := AltsStart(body, vary).req;
      o == OP_ASSERT && req.Char? ==>
        g == Anywhere || (g == After && (!s.first.Unset? || Late(t, req, body) || Covers(t, s.req, req)))
    case _ => true
  }

  ghost predicate FineBranch(t: CharTables, b: Branch, s: Start, vary: bool, g: Scope)
    requires ValidBranch(b)
    decreases b, 0
  {
    b.BCons? ==>
      FineItem(t, b.head, s, vary, g) && FineBranch(t, b.tail, ItemStart(b.head, s, vary), vary || Varies(b.head), g)
  }

  ghost predicate Fine(t: CharTables, al: PAlts, vary: bool, g: Scope)
    requires ValidPAlts(al)
    decreases al, 1
  {
    g == Anywhere
    || (FineBranch(t, al.branch, Start(Unset, Unset), vary, g)
        && (al.PMore? ==> Fine(t, al.rest, vary || VariesBranch(al.branch), g)))
  }

  /** No positive lookahead outside other assertions. */
  predicate NoLookahead(al: PAlts) {
    NoLookaheadBranch(al.branch) && (al.PMore? ==> NoLookahead(al.rest))
  }

  predicate NoLookaheadBranch(b: Branch) { b.BCons? ==> NoLookaheadItem(b.head) && NoLookaheadBranch(b.tail) }

  predicate NoLookaheadItem(item: Item) {
    match item
    case PGroup(_, body) => NoLookahead(body)
    case PGroupRep(_, body, _) => NoLookahead(body)
    case PLook(o, _) => o != OP_ASSERT
    case _ => true
  }

  lemma NoneFineBranch(t: CharTables, b: Branch, s: Start, vary: bool, g: Scope)
    requires ValidBranch(b) && NoLookaheadBranch(b)
    ensures FineBranch(t, b, s, vary, g)
    decreases b, 0
  {
    hide ItemStart, Varies;
    if b.BCons? {
      match b.head {
        case PGroup(_, body) => NoneFine(t, body, vary, Inner(g, s));
        case PGroupRep(_, body, _) => NoneFine(t, body, vary, Inner(g, s));
        case _ =>
      }
      NoneFineBranch(t, b.tail, ItemStart(b.head, s, vary), vary || Varies(b.head), g);
    }
  }

  /** Without positive lookaheads there is nothing to spoil. */
  lemma NoneFine(t: CharTables, al: PAlts, vary: bool, g: Scope)
    requires ValidPAlts(al) && NoLookahead(al)
    ensures Fine(t, al, vary, g)
    decreases al, 1
  {
    hide Varies;
    NoneFineBranch(t, al.branch, Start(Unset, Unset), vary, g);
    if al.PMore? {
      NoneFine(t, al.rest, vary || VariesBranch(al.branch), g);
    }
  }

  lemma FoundLater(x: Ctx, r: Req, lo: nat, hi: nat, lo2: nat, hi2: nat)
    requires Found(x, r, lo, hi) && lo2 <= lo && hi <= hi2
    ensures Found(x, r, lo2, hi2)
  {
  }

  lemma FoundAt(x: Ctx, r: Req, lo: nat, hi: nat, m: nat)
    requires lo <= m < hi && m < |x.subject| && CharIs(x.tables, r, x.subject[m])
    ensures Found(x, r, lo, hi)
  {
  }

  lemma SofarGrows(x: Ctx, s: Start, i: nat, h: nat, k: nat, g: Scope)
    requires Sofar(x, s, i, h, g) && !s.first.Unset? && i <= h <= k
    ensures Sofar(x, s, i, k, g)
  {
    hide Found;
    if s.req.Char? {
      FoundLater(x, s.req, Low(s, i, g), High(x, h, g), Low(s, i, g), High(x, k, g));
    }
  }

  /** The first character is settled now: what lookaheads set before stays right. */
  lemma FirstSettles(x: Ctx, s: Start, first: Req, i: nat, k: nat, g: Scope)
    requires Sofar(x, s, i, i, g) && s.first.Unset? && !first.Unset?
    requires first.Char? ==> i < k && i < |x.subject| && CharIs(x.tables, first, x.subject[i])
    ensures Sofar(x, Start(first, s.req), i, k, g)
  {
    hide Found;
    if s.req.Char? && g == After {
      FoundLater(x, s.req, i + 1, |x.subject|, i, |x.subject|);
    }
  }

  lemma AtomSound(x: Ctx, a: Atom, s: Start, vary: bool, i: nat, h: nat, k: nat, g: Scope)
    requires ValidAtom(a) && Sofar(x, s, i, h, g) && i <= h < k && MatchesHere(x, a, h)
    ensures Sofar(x, AtomStep(a, s, vary).after, i, k, g)
  {
    hide Found, Sofar;
    var t := AtomStep(a, s, vary).after;
    if s.first.Unset? {
      assert i == h by { SofarUnset(x, s, i, h, g); }
      FirstSettles(x, s, t.first, i, k, g);
    } else if a.Lit? {
      AtomRequired(x, a, s, vary, i, h, k, g);
    } else {
      SofarGrows(x, s, i, h, k, g);
    }
  }

  lemma SofarUnset(x: Ctx, s: Start, i: nat, k: nat, g: Scope)
    requires Sofar(x, s, i, k, g)
    ensures s.first.Unset? ==> i == k && (s.req.Char? && g == After ==> Found(x, s.req, i + 1, |x.subject|))
    ensures s.first.Char? ==> i < k
  {
  }

  lemma AtomRequired(x: Ctx, a: Atom, s: Start, vary: bool, i: nat, h: nat, k: nat, g: Scope)
    requires ValidAtom(a) && a.Lit? && Sofar(x, s, i, h, g) && !s.first.Unset? && i <= h < k && MatchesHere(x, a, h)
    ensures Sofar(x, Start(s.first, Char(a.ch, a.nocase, vary)), i, k, g)
  {
    hide Found;
    var r := Char(a.ch, a.nocase, vary);
    assert CharIs(x.tables, r, x.subject[h]);
    FoundAt(x, r, Low(s, i, g), High(x, k, g), h);
  }

  lemma ZeroSound(x: Ctx, s: Start, zero: Start, i: nat, h: nat, k: nat, g: Scope)
    requires Sofar(x, s, i, h, g) && i <= h <= k && zero == if s.first.Unset? then Start(NoChar, s.req) else s
    ensures Sofar(x, zero, i, k, g)
  {
    hide Sofar;
    if s.first.Unset? {
      SofarUnset(x, s, i, h, g);
      FirstSettles(x, s, NoChar, i, k, g);
    } else {
      SofarGrows(x, s, i, h, k, g);
    }
  }

  lemma RepSound(x: Ctx, a: Atom, q: Quant, s: Start, vary: bool, i: nat, h: nat, k: nat, g: Scope)
    requires ValidItem(PRep(a, q)) && Sofar(x, s, i, h, g) && i <= h && MItem(x, PRep(a, q), h, k)
    ensures Sofar(x, ItemStart(PRep(a, q), s, vary), i, k, g)
  {
    hide Found, Sofar;
    if q.min == 0 {
      ZeroSound(x, s, AtomStep(a, s, vary).zero, i, h, k, g);
    } else {
      assert MatchesHere(x, a, h);
      AtomSound(x, a, s, vary, i, h, k, g);
      if a.Lit? && q.min > 1 {
        assert MatchesHere(x, a, h + 1);
        RepRequired(x, a, AtomStep(a, s, vary).after, vary, i, h + 1, k, g);
      }
    }
  }

  lemma RepRequired(x: Ctx, a: Atom, s: Start, vary: bool, i: nat, h: nat, k: nat, g: Scope)
    requires ValidAtom(a) && a.Lit? && Sofar(x, s, i, k, g) && !s.first.Unset? && i < h < k && MatchesHere(x, a, h)
    ensures Sofar(x, Start(s.first, Char(a.ch, a.nocase, vary)), i, k, g)
  {
    hide Found;
    var r := Char(a.ch, a.nocase, vary);
    assert CharIs(x.tables, r, x.subject[h]);
    FoundAt(x, r, Low(s, i, g), High(x, k, g), h);
  }

  /** A group that matched first from `h` to `m`, as part of an item that goes on to `k`. */
  lemma GroupSound(x: Ctx, s: Start, sub: Start, vary: bool, i: nat, h: nat, m: nat, k: nat, g: Scope)
    requires Sofar(x, s, i, h, g) && i <= h <= m <= k && Explains(x, sub, h, m, Inner(g, s))
    ensures Sofar(x, GroupStep(s, sub, vary).after, i, k, g)
  {
    if s.first.Unset? {
      GroupFirst(x, s, sub, vary, i, m, k, g);
    } else {
      GroupNext(x, s, sub, vary, i, h, m, k, g);
    }
  }

  lemma GroupFirst(x: Ctx, s: Start, sub: Start, vary: bool, i: nat, m: nat, k: nat, g: Scope)
    requires Sofar(x, s, i, i, g) && s.first.Unset? && i <= m <= k && Explains(x, sub, i, m, g)
    ensures Sofar(x, GroupStep(s, sub, vary).after, i, k, g)
  {
    hide Found;
    var t := GroupStep(s, sub, vary).after;
    if sub.req.Char? {
      FoundLater(x, sub.req, Low(sub, i, g), High(x, m, g), Low(t, i, g), High(x, k, g));
    } else {
      FirstSettles(x, s, t.first, i, k, g);
    }
  }

  lemma GroupNext(x: Ctx, s: Start, sub: Start, vary: bool, i: nat, h: nat, m: nat, k: nat, g: Scope)
    requires Sofar(x, s, i, h, g) && !s.first.Unset? && i <= h <= m <= k && Explains(x, sub, h, m, Inner(g, s))
    ensures Sofar(x, GroupStep(s, sub, vary).after, i, k, g)
  {
    hide Found;
    if sub.req.Char? {
      FoundLater(x, sub.req, Low(sub, h, Inner(g, s)), High(x, m, g), Low(s, i, g), High(x, k, g));
    } else if sub.first.Char? {
      FoundAt(x, sub.first.(vary := sub.first.vary || vary), Low(s, i, g), High(x, k, g), h);
    } else {
      SofarGrows(x, s, i, h, k, g);
    }
  }

  lemma MergeLeft(x: Ctx, s: Start, b: Start, i: nat, k: nat, g: Scope)
    requires Explains(x, s, i, k, g)
    ensures Explains(x, Merge(s, b), i, k, g)
  {
    hide Found;
    var t := Merge(s, b);
    if t.req.Char? {
      var lost := s.first.Char? && s.first != b.first;
      if lost && !s.req.Char? {
        FoundAt(x, t.req, i, High(x, k, g), i);
      } else {
        FoundSame(x, s.req, t.req, Low(s, i, g), Low(t, i, g), High(x, k, g));
      }
    }
  }

  lemma MergeRight(x: Ctx, s: Start, b: Start, i: nat, k: nat, g: Scope)
    requires Explains(x, b, i, k, g)
    ensures Explains(x, Merge(s, b), i, k, g)
  {
    hide Found;
    var t := Merge(s, b);
    if t.req.Char? {
      if b.req.Char? {
        FoundSame(x, b.req, t.req, Low(b, i, g), Low(t, i, g), High(x, k, g));
      } else {
        FoundAt(x, t.req, i, High(x, k, g), i);
      }
    }
  }

  /** The flag on a required character does not matter for where it is found. */
  lemma FoundSame(x: Ctx, r: Req, u: Req, lo: nat, lo2: nat, hi: nat)
    requires Found(x, r, lo, hi) && r.Char? && u.Char? && r.ch == u.ch && r.caseless == u.caseless && lo2 <= lo
    ensures Found(x, u, lo2, hi)
  {
    var m :| lo <= m < hi && m < |x.subject| && CharIs(x.tables, r, x.subject[m]);
    FoundAt(x, u, lo2, hi, m);
  }

  lemma {:induction false} ItemSound(x: Ctx, item: Item, s: Start, vary: bool, i: nat, h: nat, k: nat, g: Scope)
    requires ValidItem(item) && FineItem(x.tables, item, s, vary, g) && Sofar(x, s, i, h, g) && i <= h && MItem(x, item, h, k)
    ensures Sofar(x, ItemStart(item, s, vary), i, k, g)
    decreases item, 0
  {
    hide Found, Sofar, Explains, Late, Covers;
    match item
    case PTest(o) => TestSound(x, s, i, h, g);
    case PAtom(a, _) => AtomSound(x, a, s, vary, i, h, k, g);
    case PRep(a, q) => RepSound(x, a, q, s, vary, i, h, k, g);
    case PGroup(_, body) =>
      SpanPAlts(x, body, h, k);
      AltsSound(x, body, vary, h, k, Inner(g, s));
      GroupSound(x, s, AltsStart(body, vary), vary, i, h, k, k, g);
    case PGroupRep(_, body, q) => RepeatSound(x, item, s, vary, i, h, k, g);
    case PLook(o, body) =>
      if o == OP_ASSERT && AltsStart(body, vary).req.Char? {
        var j := MPLookElim(x, o, body, h);
        AltsSound(x.(som := h), body, vary, h, j, Anywhere);
        LookSound(x, body, s, vary, i, h, j, g);
      }
  }

  lemma {:induction false} RepeatSound(x: Ctx, item: Item, s: Start, vary: bool, i: nat, h: nat, k: nat, g: Scope)
    requires ValidItem(item) && item.PGroupRep? && FineItem(x.tables, item, s, vary, g)
    requires Sofar(x, s, i, h, g) && i <= h && MItem(x, item, h, k)
    ensures Sofar(x, ItemStart(item, s, vary), i, k, g)
    decreases item.body, 2
  {
    hide Found, Sofar, Explains, Late, Covers;
    var body, q := item.body, item.q;
    var n := RepeatElim(x, item, h, k);
    SpanTimes(x, body, n, h, k);
    if q.min == 0 {
      ZeroSound(x, s, GroupStep(s, AltsStart(body, vary), vary).zero, i, h, k, g);
    } else {
      var m := TimesElim(x, body, n, h, k);
      SpanPAlts(x, body, h, m);
      SpanTimes(x, body, n - 1, m, k);
      AltsSound(x, body, vary, h, m, Inner(g, s));
      GroupSound(x, s, AltsStart(body, vary), vary, i, h, m, k, g);
      if q.min > 1 {
        var m2 := TimesElim(x, body, n - 1, m, k);
        SpanPAlts(x, body, m, m2);
        SpanTimes(x, body, n - 2, m2, k);
        AltsSound(x, body, vary, m, m2, Inner(g, s));
        CopiesSound(x, s, AltsStart(body, vary), vary, i, h, m, m2, k, g);
      }
    }
  }

  /** A lookahead that sets the required character. */
  lemma LookSound(x: Ctx, body: PAlts, s: Start, vary: bool, i: nat, h: nat, j: nat, g: Scope)
    requires ValidPAlts(body) && AltsStart(body, vary).req.Char? && FineItem(x.tables, PLook(OP_ASSERT, body), s, vary, g)
    requires Sofar(x, s, i, h, g) && i <= h && MPLook(x, OP_ASSERT, body, h)
    requires Explains(x.(som := h), AltsStart(body, vary), h, j, Anywhere)
    ensures Sofar(x, Start(s.first, AltsStart(body, vary).req), i, h, g)
  {
    hide Found, AltsStart, MPLook, Late, Covers;
    var r := AltsStart(body, vary).req;
    FoundBelow(x.(som := h), x, r, h, i);
    if s.first.Char? {
      FoundBelow(x.(som := h), x, r, h, i + 1);
    }
    if g == After && s.first.Unset? {
      LaterFound(x, body, s, r, h);
    }
  }

  lemma LaterFound(x: Ctx, body: PAlts, s: Start, r: Req, h: nat)
    requires ValidPAlts(body) && MPLook(x, OP_ASSERT, body, h) && (s.req.Char? ==> Found(x, s.req, h + 1, |x.subject|))
    requires Late(x.tables, r, body) || Covers(x.tables, s.req, r)
    ensures Found(x, r, h + 1, |x.subject|)
  {
    hide Found, MPLook;
    if Late(x.tables, r, body) {
      LateFound(x, r, body, h);
    } else {
      CoversFound(x, s.req, r, h + 1, |x.subject|);
    }
  }

  lemma FoundBelow(y: Ctx, x: Ctx, r: Req, h: nat, i: nat)
    requires y.subject == x.subject && y.tables == x.tables && Found(y, r, h, |y.subject|) && i <= h
    ensures Found(x, r, i, |x.subject|)
  {
    var m :| h <= m < |y.subject| && CharIs(y.tables, r, y.subject[m]);
    FoundAt(x, r, i, |x.subject|, m);
  }

  lemma TestSound(x: Ctx, s: Start, i: nat, h: nat, g: Scope)
    requires Sofar(x, s, i, h, g)
    ensures s.first.Unset? ==> Sofar(x, Start(NoChar, s.req), i, h, g)
  {
    hide Sofar;
    if s.first.Unset? {
      SofarUnset(x, s, i, h, g);
      FirstSettles(x, s, NoChar, i, h, g);
    }
  }

  /** At least two copies: if only the first character is set, it is also required. */
  lemma CopiesSound(x: Ctx, s: Start, sub: Start, vary: bool, i: nat, h: nat, m: nat, m2: nat, k: nat, g: Scope)
    requires i <= h <= m <= m2 <= k && Sofar(x, s, i, h, g) && Sofar(x, GroupStep(s, sub, vary).after, i, k, g)
    requires Explains(x, sub, h, m, Inner(g, s)) && Explains(x, sub, m, m2, Inner(g, s))
    ensures var t := GroupStep(s, sub, vary).after;
            s.first.Unset? && t.first.Char? && !t.req.Char? ==> Sofar(x, Start(t.first, t.first), i, k, g)
  {
    hide Found;
    var t := GroupStep(s, sub, vary).after;
    if s.first.Unset? && t.first.Char? {
      FoundAt(x, t.first, Low(t, i, g), High(x, k, g), m);
    }
  }

  lemma {:induction false} BranchSound(x: Ctx, b: Branch, s: Start, vary: bool, i: nat, h: nat, k: nat, g: Scope)
    requires ValidBranch(b) && FineBranch(x.tables, b, s, vary, g) && Sofar(x, s, i, h, g) && i <= h && MBranch(x, b, h, k)
    ensures Sofar(x, BranchStart(b, s, vary), i, k, g)
    decreases b, 0
  {
    hide Sofar, FineItem, ItemStart;
    if b.BCons? {
      var m := MBranchElim(x, b, h, k);
      SpanItem(x, b.head, h, m);
      ItemSound(x, b.head, s, vary, i, h, m, g);
      BranchSound(x, b.tail, ItemStart(b.head, s, vary), vary || Varies(b.head), i, m, k, g);
    }
  }

  /** In mode `Anywhere` every branch is fine. */
  lemma AnyFine(t: CharTables, b: Branch, s: Start, vary: bool)
    requires ValidBranch(b)
    ensures FineBranch(t, b, s, vary, Anywhere)
    decreases b
  {
    hide ItemStart, Varies, AltsStart, Late;
    if b.BCons? {
      match b.head {
        case PGroup(_, body) => assert Fine(t, body, vary, Anywhere);
        case PGroupRep(_, body, _) => assert Fine(t, body, vary, Anywhere);
        case _ =>
      }
      AnyFine(t, b.tail, ItemStart(b.head, s, vary), vary || Varies(b.head));
    }
  }

  /** Every match of the alternatives starts with their first character, if that is set, and
      their required character, if that is set, is where the scope says. */
  lemma {:induction false} AltsSound(x: Ctx, al: PAlts, vary: bool, i: nat, k: nat, g: Scope)
    requires ValidPAlts(al) && Fine(x.tables, al, vary, g) && MPAlts(x, al, i, k)
    ensures Explains(x, AltsStart(al, vary), i, k, g)
    decreases al, 1
  {
    hide Explains, FineBranch;
    var none := Start(Unset, Unset);
    var s := BranchStart(al.branch, none, vary);
    if MBranch(x, al.branch, i, k) {
      if g == Anywhere { AnyFine(x.tables, al.branch, none, vary); }
      StartSofar(x, i, g);
      BranchSound(x, al.branch, none, vary, i, i, k, g);
      SofarExplains(x, s, i, k, g);
      if al.PMore? {
        MoreKeeps(x, al.rest, s, vary || VariesBranch(al.branch), i, k, g);
      }
    } else {
      MoreSound(x, al.rest, s, vary || VariesBranch(al.branch), i, k, g);
    }
  }

  lemma StartSofar(x: Ctx, i: nat, g: Scope)
    ensures Sofar(x, Start(Unset, Unset), i, i, g)
  {
  }

  lemma SofarExplains(x: Ctx, s: Start, i: nat, k: nat, g: Scope)
    requires Sofar(x, s, i, k, g)
    ensures Explains(x, s, i, k, g)
  {
  }

  /** What holds of a match of an earlier branch survives the later ones. */
  lemma {:induction false} MoreKeeps(x: Ctx, al: PAlts, s: Start, vary: bool, i: nat, k: nat, g: Scope)
    requires Explains(x, s, i, k, g)
    ensures Explains(x, MoreStart(al, s, vary), i, k, g)
    decreases al, 0
  {
    hide Explains;
    var b := BranchStart(al.branch, Start(Unset, Unset), vary);
    MergeLeft(x, s, b, i, k, g);
    if al.PMore? {
      MoreKeeps(x, al.rest, Merge(s, b), vary || VariesBranch(al.branch), i, k, g);
    }
  }

  lemma {:induction false} MoreSound(x: Ctx, al: PAlts, s: Start, vary: bool, i: nat, k: nat, g: Scope)
    requires ValidPAlts(al) && Fine(x.tables, al, vary, g) && MPAlts(x, al, i, k)
    ensures Explains(x, MoreStart(al, s, vary), i, k, g)
    decreases al, 1
  {
    hide Explains, FineBranch;
    var b := BranchStart(al.branch, Start(Unset, Unset), vary);
    if MBranch(x, al.branch, i, k) {
      if g == Anywhere { AnyFine(x.tables, al.branch, Start(Unset, Unset), vary); }
      StartSofar(x, i, g);
      BranchSound(x, al.branch, Start(Unset, Unset), vary, i, i, k, g);
      SofarExplains(x, b, i, k, g);
      MergeRight(x, s, b, i, k, g);
      if al.PMore? {
        MoreKeeps(x, al.rest, Merge(s, b), vary || VariesBranch(al.branch), i, k, g);
      }
    } else {
      MoreSound(x, al.rest, Merge(s, b), vary || VariesBranch(al.branch), i, k, g);
    }
  }

  // ----- which lookaheads spoil the search -----

  /** Whatever follows the lookahead, the search for the required character loses no match. */
  ghost predicate Harmless(t: CharTables, body: PAlts, s: Start, vary: bool)
    requires ValidPAlts(body)
  {
    var look := PLook(OP_ASSERT, body);
    forall x: Ctx, i: nat, h: nat, rest: Branch, k: nat
      | x.tables == t && i <= h && Sofar(x, s, i, h, After) && MItem(x, look, h, h)
        && ValidBranch(rest) && FineBranch(t, rest, ItemStart(look, s, vary), vary || Varies(look), After) && MBranch(x, rest, h, k) ::
      Explains(x, BranchStart(rest, ItemStart(look, s, vary), vary || Varies(look)), i, k, After)
  }

  /** A lookahead is harmless exactly if it sets no required character, or stands after a settled
      first character, or forces its character to come later, given the one that is required already. */
  lemma LookaheadExactly(t: CharTables, body: PAlts, s: Start, vary: bool)
    requires ValidPAlts(body)
    ensures Harmless(t, body, s, vary) <==>
            !AltsStart(body, vary).req.Char? || !s.first.Unset? || Forced(t, s.req, AltsStart(body, vary).req, body)
  {
    hide Harmless, Forced, AltsStart;
    var r := AltsStart(body, vary).req;
    if !r.Char? || !s.first.Unset? || Forced(t, s.req, r, body) {
      HarmlessIf(t, body, s, vary);
    } else {
      HarmfulIf(t, body, s, vary);
    }
  }

  lemma HarmlessIf(t: CharTables, body: PAlts, s: Start, vary: bool)
    requires ValidPAlts(body)
    requires !AltsStart(body, vary).req.Char? || !s.first.Unset? || Forced(t, s.req, AltsStart(body, vary).req, body)
    ensures Harmless(t, body, s, vary)
  {
    hide Sofar, Explains, AltsStart, FineBranch, BranchStart, Found, MPLook, Late;
    var look := PLook(OP_ASSERT, body);
    var s2, v2 := ItemStart(look, s, vary), vary || Varies(look);
    forall x: Ctx, i: nat, h: nat, rest: Branch, k: nat
      | x.tables == t && i <= h && Sofar(x, s, i, h, After) && MItem(x, look, h, h)
        && ValidBranch(rest) && FineBranch(t, rest, s2, v2, After) && MBranch(x, rest, h, k)
      ensures Explains(x, BranchStart(rest, s2, v2), i, k, After)
    {
      LookKeeps(x, body, s, vary, i, h);
      BranchSound(x, rest, s2, v2, i, h, k, After);
      SofarExplains(x, BranchStart(rest, s2, v2), i, k, After);
    }
  }

  lemma LookKeeps(x: Ctx, body: PAlts, s: Start, vary: bool, i: nat, h: nat)
    requires ValidPAlts(body) && i <= h && Sofar(x, s, i, h, After) && MPLook(x, OP_ASSERT, body, h)
    requires !AltsStart(body, vary).req.Char? || !s.first.Unset? || Forced(x.tables, s.req, AltsStart(body, vary).req, body)
    ensures Sofar(x, ItemStart(PLook(OP_ASSERT, body), s, vary), i, h, After)
  {
    hide Found, AltsStart, MPLook, Explains, Sofar;
    var r := AltsStart(body, vary).req;
    if r.Char? {
      var j := MPLookElim(x, OP_ASSERT, body, h);
      AltsSound(x.(som := h), body, vary, h, j, Anywhere);
      if s.first.Unset? {
        SofarUnset(x, s, i, h, After);
        ForcedSofar(x, s, r, i);
      } else {
        LookSound(x, body, s, vary, i, h, j, After);
      }
    }
  }

  lemma ForcedSofar(x: Ctx, s: Start, r: Req, i: nat)
    requires s.first.Unset? && r.Char? && Found(x, r, i + 1, |x.subject|)
    ensures Sofar(x, Start(s.first, r), i, i, After)
  {
    hide Found;
    FoundLater(x, r, i + 1, |x.subject|, i, |x.subject|);
  }

  /** Otherwise it can hold where its character is the very next one and does not come again; then a
      literal of that character is a continuation for which the search fails. */
  lemma HarmfulIf(t: CharTables, body: PAlts, s: Start, vary: bool)
    requires ValidPAlts(body) && s.first.Unset?
    requires AltsStart(body, vary).req.Char? && !Forced(t, s.req, AltsStart(body, vary).req, body)
    ensures !Harmless(t, body, s, vary)
  {
    hide AltsStart, MPLook, Explains, Sofar, BranchStart, FineBranch, Found;
    var r := AltsStart(body, vary).req;
    var x: Ctx, h: nat :| x.tables == t && MPLook(x, OP_ASSERT, body, h)
                          && (s.req.Char? ==> Found(x, s.req, h + 1, |x.subject|)) && !Found(x, r, h + 1, |x.subject|);
    var j := MPLookElim(x, OP_ASSERT, body, h);
    AltsSound(x.(som := h), body, vary, h, j, Anywhere);
    OnlyHere(x, AltsStart(body, vary), h, j);
    var look, c := PLook(OP_ASSERT, body), x.subject[h];
    var rest := BCons(PAtom(Lit(c, false), false), BNil);
    assert MItem(x, look, h, h);
    UnsetSofar(x, s, h);
    LiteralMatches(x, c, h);
    LiteralSpoils(x, c, s.first, r, vary || Varies(look), h);
    assert ItemStart(look, s, vary) == Start(s.first, r);
    LiteralFine(t, c, Start(s.first, r), vary || Varies(look));
  }

  lemma OnlyHere(x: Ctx, s: Start, h: nat, j: nat)
    requires s.req.Char? && Explains(x.(som := h), s, h, j, Anywhere) && !Found(x, s.req, h + 1, |x.subject|)
    ensures h < |x.subject|
  {
    var m :| h <= m < |x.subject| && CharIs(x.tables, s.req, x.subject[m]);
  }

  lemma UnsetSofar(x: Ctx, s: Start, h: nat)
    requires s.first.Unset? && (s.req.Char? ==> Found(x, s.req, h + 1, |x.subject|))
    ensures Sofar(x, s, h, h, After)
  {
    hide Found;
    if s.req.Char? { FoundLater(x, s.req, h + 1, |x.subject|, h, |x.subject|); }
  }

  lemma LiteralMatches(x: Ctx, c: Byte, h: nat)
    requires h < |x.subject| && x.subject[h] == c
    ensures var rest := BCons(PAtom(Lit(c, false), false), BNil); ValidBranch(rest) && MBranch(x, rest, h, h + 1)
  {
    assert MBranch(x, BNil, h + 1, h + 1) && ValidBranch(BNil);
    MBranchCons(x, PAtom(Lit(c, false), false), BNil, h, h + 1, h + 1);
  }

  lemma LiteralFine(t: CharTables, c: Byte, s: Start, vary: bool)
    ensures var rest := BCons(PAtom(Lit(c, false), false), BNil); ValidBranch(rest) && FineBranch(t, rest, s, vary, After)
  {
    assert ValidBranch(BNil) && FineBranch(t, BNil, ItemStart(PAtom(Lit(c, false), false), s, vary), vary, After);
  }

  lemma LiteralSpoils(x: Ctx, c: Byte, first: Req, r: Req, vary: bool, h: nat)
    requires first.Unset? && r.Char? && !Found(x, r, h + 1, |x.subject|)
    ensures !Explains(x, BranchStart(BCons(PAtom(Lit(c, false), false), BNil), Start(first, r), vary), h, h + 1, After)
  {
    hide Found;
    var lit := PAtom(Lit(c, false), false);
    assert BranchStart(BNil, ItemStart(lit, Start(first, r), vary), vary || Varies(lit)) == Start(Char(c, false, false), r);
  }

  /** For a lookahead of characters, repeats and groups the condition can be read off its body. */
  lemma PlainLookaheadExactly(t: CharTables, body: PAlts, s: Start, vary: bool)
    requires ValidPAlts(body) && PlainPattern(body)
    ensures var r := AltsStart(body, vary).req;
            Harmless(t, body, s, vary) <==> !r.Char? || !s.first.Unset? || Late(t, r, body) || Covers(t, s.req, r)
  {
    hide Harmless, AltsStart, Late, Covers, Forced;
    LookaheadExactly(t, body, s, vary);
    LateExactly(t, s.req, AltsStart(body, vary).req, body);
  }

  // ----- the compiler's loops -----

  /** The flag that a repeat of varying length came before. */
  class VaryState {
    var reqVaryOpt: bool

    constructor ()
      ensures !reqVaryOpt
    {
      reqVaryOpt := false;
    }
  }

  /** One branch: the variables as they are updated item by item. */
  method CollectBranch(cd: VaryState, b: Branch) returns (firstchar: Req, reqchar: Req)
    modifies cd
    ensures Start(firstchar, reqchar) == BranchStart(b, Start(Unset, Unset), old(cd.reqVaryOpt))
    ensures cd.reqVaryOpt == (old(cd.reqVaryOpt) || VariesBranch(b))
    decreases b, 1
  {
    firstchar, reqchar := Unset, Unset;
    var zerofirst, zeroreq := Unset, Unset;
    var rest := b;
    while rest.BCons?
      invariant rest == b || rest < b
      invariant BranchStart(rest, Start(firstchar, reqchar), cd.reqVaryOpt) == BranchStart(b, Start(Unset, Unset), old(cd.reqVaryOpt))
      invariant (cd.reqVaryOpt || VariesBranch(rest)) == (old(cd.reqVaryOpt) || VariesBranch(b))
      decreases rest
    {
      var tempreqvary := cd.reqVaryOpt;
      match rest.head {
        case PTest(o) =>
          if o == OP_CIRCM && firstchar.Unset? { firstchar := NoChar; }
        case PAtom(a, _) =>
          firstchar, reqchar, zerofirst, zeroreq := CollectAtom(a, firstchar, reqchar, cd.reqVaryOpt);
        case PRep(a, q) =>
          firstchar, reqchar, zerofirst, zeroreq := CollectAtom(a, firstchar, reqchar, cd.reqVaryOpt);
          if q.min == 0 {
            firstchar, reqchar := zerofirst, zeroreq;
          }
          if a.Lit? && q.min > 1 {
            reqchar := Char(a.ch, a.nocase, cd.reqVaryOpt);
          }
          cd.reqVaryOpt := cd.reqVaryOpt || q.min != q.max;
        case PGroup(_, body) =>
          var subfirst, subreq := Collect(cd, body);
          var groupset;
          firstchar, reqchar, zerofirst, zeroreq, groupset := CollectGroup(firstchar, reqchar, subfirst, subreq, tempreqvary);
        case PGroupRep(_, body, q) =>
          var subfirst, subreq := Collect(cd, body);
          var groupsetfirstchar;
          firstchar, reqchar, zerofirst, zeroreq, groupsetfirstchar :=
            CollectGroup(firstchar, reqchar, subfirst, subreq, tempreqvary);
          if q.min == 0 {
            firstchar, reqchar := zerofirst, zeroreq;
          } else if q.min > 1 && groupsetfirstchar && !reqchar.Char? {
            reqchar := firstchar;
          }
          cd.reqVaryOpt := cd.reqVaryOpt || q.min != q.max;
        case PLook(o, body) =>
          var subfirst, subreq := Collect(cd, body);
          if o == OP_ASSERT && subreq.Char? { reqchar := subreq; }
      }
      rest := rest.tail;
    }
  }

  /** A single item. */
  method CollectAtom(a: Atom, first0: Req, req0: Req, vary: bool) returns (first: Req, req: Req, zerofirst: Req, zeroreq: Req)
    ensures AtomStep(a, Start(first0, req0), vary) == Step(Start(first, req), Start(zerofirst, zeroreq))
  {
    first, req := first0, req0;
    zeroreq := req;
    if a.Lit? {
      if first.Unset? {
        zerofirst := NoChar;
        first := Char(a.ch, a.nocase, false);
      } else {
        zerofirst := first;
        req := Char(a.ch, a.nocase, vary);
      }
    } else {
      if first.Unset? { first := NoChar; }
      zerofirst := first;
    }
  }

  /** A group that has just been compiled. */
  method CollectGroup(first0: Req, req0: Req, subfirst: Req, subreq0: Req, tempreqvary: bool)
    returns (first: Req, req: Req, zerofirst: Req, zeroreq: Req, groupsetfirstchar: bool)
    ensures GroupStep(Start(first0, req0), Start(subfirst, subreq0), tempreqvary) == Step(Start(first, req), Start(zerofirst, zeroreq))
    ensures groupsetfirstchar <==> first0.Unset? && subfirst.Char?
  {
    first, req, zerofirst, zeroreq, groupsetfirstchar := first0, req0, first0, req0, false;
    var subreq := subreq0;
    if first.Unset? {
      if subfirst.Char? {
        first := subfirst;
        groupsetfirstchar := true;
      } else {
        first := NoChar;
      }
      zerofirst := NoChar;
    } else if subfirst.Char? && !subreq.Char? {
      subreq := subfirst.(vary := subfirst.vary || tempreqvary);
    }
    if subreq.Char? { req := subreq; }
  }

  /** All alternatives of a bracket. */
  method Collect(cd: VaryState, al: PAlts) returns (firstchar: Req, reqchar: Req)
    modifies cd
    ensures Start(firstchar, reqchar) == AltsStart(al, old(cd.reqVaryOpt))
    ensures cd.reqVaryOpt == (old(cd.reqVaryOpt) || VariesAlts(al))
    decreases al, 2
  {
    firstchar, reqchar := CollectBranch(cd, al.branch);
    var rest := al;
    while rest.PMore?
      invariant rest == al || rest < al
      invariant AltsStart(al, old(cd.reqVaryOpt))
             == if rest.PMore? then MoreStart(rest.rest, Start(firstchar, reqchar), cd.reqVaryOpt) else Start(firstchar, reqchar)
      invariant (cd.reqVaryOpt || (rest.PMore? && VariesAlts(rest.rest))) == (old(cd.reqVaryOpt) || VariesAlts(al))
      decreases rest
    {
      rest := rest.rest;
      ghost var before := Start(firstchar, reqchar);
      var branchfirst, branchreq := CollectBranch(cd, rest.branch);
      ghost var branch := Start(branchfirst, branchreq);
      if firstchar.Char? && firstchar != branchfirst {
        if !reqchar.Char? { reqchar := firstchar; }
        firstchar := NoChar;
      }
      if !firstchar.Char? && branchfirst.Char? && !branchreq.Char? {
        branchreq := branchfirst;
      }
      if reqchar.Char? && branchreq.Char? {
        if reqchar.ch == branchreq.ch && reqchar.caseless == branchreq.caseless {
          reqchar := reqchar.(vary := reqchar.vary || branchreq.vary);
        } else {
          reqchar := NoChar;
        }
      } else if reqchar != branchreq {
        reqchar := NoChar;
      }
      assert Start(firstchar, reqchar) == Merge(before, branch);
    }
  }

  // ----- where the values are wrong -----

  const LETTER_B: Byte := 98

  /** "(?=.*b)b": the required character taken from the lookahead need not come after the first one. */
  const LOOKAHEAD_B: PAlts :=
    PLast(BCons(PLook(OP_ASSERT,
                      PLast(BCons(PRep(Kind(OP_ANY), Quant(0, -1, Greedy, true)), BCons(PAtom(Lit(LETTER_B, false), false), BNil)))),
                BCons(PAtom(Lit(LETTER_B, false), false), BNil)))

  /** It matches "b", but its first and required characters ask for two. */
  lemma LookaheadBreaks(t: CharTables)
    ensures var x := Ctx(t, [LETTER_B], false, false, false, false, 0, false, false, 0);
            ValidPAlts(LOOKAHEAD_B) && MPAlts(x, LOOKAHEAD_B, 0, 1) && !Explains(x, AltsStart(LOOKAHEAD_B, false), 0, 1, After)
  {
    var x := Ctx(t, [LETTER_B], false, false, false, false, 0, false, false, 0);
    var b := PAtom(Lit(LETTER_B, false), false);
    var any := PRep(Kind(OP_ANY), Quant(0, -1, Greedy, true));
    var last := BCons(b, BNil);
    assert ValidBranch(BNil) && ValidBranch(last) && ValidBranch(BCons(any, last));
    var inner := PLast(BCons(any, last));
    assert ValidPAlts(inner);
    var look := PLook(OP_ASSERT, inner);
    assert ValidItem(look) && ValidBranch(BCons(look, last));
    assert MBranch(x, BNil, 1, 1);
    MBranchCons(x, b, BNil, 0, 1, 1);
    assert MItem(x, any, 0, 0);
    MBranchCons(x, any, last, 0, 0, 1);
    assert MPAlts(x, inner, 0, 1);
    MPLookIntro(x, OP_ASSERT, inner, 0, 1);
    MBranchCons(x, look, last, 0, 0, 1);
    var c := Char(LETTER_B, false, true);
    assert AltsStart(inner, false) == Start(NoChar, c);
    assert AltsStart(LOOKAHEAD_B, false) == Start(Char(LETTER_B, false, false), c);
  }
}
