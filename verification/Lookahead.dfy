/** Must a character that a lookahead requires lie after the place where the lookahead stands? The
    answer is computed from the lookahead's body; for bodies of characters, repeats and groups it is
    exact. */
module Lookahead {
  import opened Bytecode
  import opened Tree
  import opened Subject
  import opened Pattern

  /** The value of firstchar and reqchar: REQ_UNSET, REQ_NONE, or a character with its flags. */
  datatype Req = Unset | NoChar | Char(ch: Byte, caseless: bool, vary: bool)

  /** The character satisfies the requirement. */
  predicate CharIs(t: CharTables, r: Req, c: Byte) {
    r.Char? && (c == r.ch || (r.caseless && c == t.flip[r.ch]))
  }

  ghost predicate Found(x: Ctx, r: Req, lo: nat, hi: nat) {
    exists m | lo <= m < hi && m < |x.subject| :: CharIs(x.tables, r, x.subject[m])
  }

  /** No character after the one at `h` satisfies the requirement. */
  ghost predicate Lacking(x: Ctx, r: Req, h: nat) { !Found(x, r, h + 1, |x.subject|) }

  /** What may happen in a subject that lacks the character after place `h`: to match nothing at `h`,
      to match on from `h`, and to match at a later place. */
  datatype Ways = Ways(stay: bool, leave: bool, later: bool)

  ghost predicate Some(t: CharTables, a: Atom)
    requires ValidAtom(a)
  {
    exists c: Byte :: AtomAt(t, a, c)
  }

  ghost predicate Other(t: CharTables, r: Req, a: Atom)
    requires ValidAtom(a)
  {
    exists c: Byte :: AtomAt(t, a, c) && !CharIs(t, r, c)
  }

  ghost function ItemWays(t: CharTables, r: Req, item: Item): Ways
    requires ValidItem(item)
    decreases item, 0
  {
    match item
    case PAtom(a, _) => Ways(false, Some(t, a), Other(t, r, a))
    case PRep(a, q) =>
      Ways(q.min == 0, q.max != 0 && Some(t, a) && (q.min <= 1 || Other(t, r, a)), q.min == 0 || Other(t, r, a))
    case PGroup(_, body) => AltsWays(t, r, body)
    case PGroupRep(_, body, q) =>
      var w := AltsWays(t, r, body);
      Ways(q.min == 0 || w.stay, q.max != 0 && w.leave && (q.min <= 1 || w.later || w.stay), q.min == 0 || w.later)
    case PLook(o, body) =>
      if o != OP_ASSERT then Ways(true, false, true) else
        var w := AltsWays(t, r, body);
        Ways(w.stay || w.leave, false, w.later)
    case PTest(_) => Ways(true, false, true)
  }

  ghost function BranchWays(t: CharTables, r: Req, b: Branch): Ways
    requires ValidBranch(b)
    decreases b, 0
  {
    match b
    case BNil => Ways(true, false, true)
    case BCons(item, rest) =>
      var v, w := ItemWays(t, r, item), BranchWays(t, r, rest);
      Ways(v.stay && w.stay, (v.leave && w.later) || (v.stay && w.leave), v.later && w.later)
  }

  ghost function AltsWays(t: CharTables, r: Req, al: PAlts): Ways
    requires ValidPAlts(al)
    decreases al, 1
  {
    var v := BranchWays(t, r, al.branch);
    if al.PLast? then v else
      var w := AltsWays(t, r, al.rest);
      Ways(v.stay || w.stay, v.leave || w.leave, v.later || w.later)
  }

  /** A lookahead with this body cannot hold where the character is lacking afterwards. */
  ghost predicate Late(t: CharTables, r: Req, body: PAlts)
    requires ValidPAlts(body)
  {
    var w := AltsWays(t, r, body);
    !w.stay && !w.leave
  }

  // ----- what happens is among what may happen -----

  /** A match from `i` to `k` is of one of the kinds. */
  ghost predicate Allows(w: Ways, h: nat, i: nat, k: nat) {
    if i > h then w.later else if k > h then w.leave else w.stay
  }

  lemma {:induction false} ItemAllows(x: Ctx, r: Req, h: nat, item: Item, i: nat, k: nat)
    requires ValidItem(item) && Lacking(x, r, h) && h <= i && MItem(x, item, i, k)
    ensures Allows(ItemWays(x.tables, r, item), h, i, k)
    decreases item, 0
  {
    SpanItem(x, item, i, k);
    match item
    case PGroup(_, body) => AltsAllows(x, r, h, body, i, k);
    case PGroupRep(_, body, q) =>
      var n := RepeatElim(x, item, i, k);
      TimesAllows(x, r, h, body, n, i, k);
    case PLook(o, body) =>
      if o == OP_ASSERT {
        var j := MPLookElim(x, o, body, i);
        SpanPAlts(x.(som := i), body, i, j);
        AltsAllows(x.(som := i), r, h, body, i, j);
      }
    case _ => OneAllows(x, r, h, item, i, k);
  }

  lemma OneAllows(x: Ctx, r: Req, h: nat, item: Item, i: nat, k: nat)
    requires ValidItem(item) && (item.PTest? || item.PAtom? || item.PRep?)
    requires Lacking(x, r, h) && h <= i && MItem(x, item, i, k)
    ensures Allows(ItemWays(x.tables, r, item), h, i, k)
  {
    if item.PRep? && i < k {
      assert AtomAt(x.tables, item.atom, x.subject[i]);
      if item.q.min > 1 {
        assert AtomAt(x.tables, item.atom, x.subject[i + 1]);
      }
    }
  }

  lemma {:induction false} TimesAllows(x: Ctx, r: Req, h: nat, al: PAlts, n: nat, i: nat, k: nat)
    requires ValidPAlts(al) && Lacking(x, r, h) && h <= i && Times(x, al, n, i, k)
    ensures i <= k
    ensures var w := AltsWays(x.tables, r, al);
            if n == 0 then i == k
            else if i > h then w.later
            else if k > h then w.leave && (n == 1 || w.later || w.stay)
            else w.stay
    decreases al, n + 1
  {
    if n > 0 {
      var m := TimesElim(x, al, n, i, k);
      SpanPAlts(x, al, i, m);
      AltsAllows(x, r, h, al, i, m);
      TimesAllows(x, r, h, al, n - 1, m, k);
    }
  }

  lemma {:induction false} BranchAllows(x: Ctx, r: Req, h: nat, b: Branch, i: nat, k: nat)
    requires ValidBranch(b) && Lacking(x, r, h) && h <= i && MBranch(x, b, i, k)
    ensures Allows(BranchWays(x.tables, r, b), h, i, k)
    decreases b, 0
  {
    if b.BCons? {
      var m := MBranchElim(x, b, i, k);
      SpanItem(x, b.head, i, m);
      SpanBranch(x, b.tail, m, k);
      ItemAllows(x, r, h, b.head, i, m);
      BranchAllows(x, r, h, b.tail, m, k);
    }
  }

  /** Every match in a subject that lacks the character is of a kind that may happen. */
  lemma {:induction false} AltsAllows(x: Ctx, r: Req, h: nat, al: PAlts, i: nat, k: nat)
    requires ValidPAlts(al) && Lacking(x, r, h) && h <= i && MPAlts(x, al, i, k)
    ensures Allows(AltsWays(x.tables, r, al), h, i, k)
    decreases al, 1
  {
    if MBranch(x, al.branch, i, k) {
      BranchAllows(x, r, h, al.branch, i, k);
    } else {
      AltsAllows(x, r, h, al.rest, i, k);
    }
  }

  /** So where a lookahead with a late body holds, the character follows. */
  lemma LateFound(x: Ctx, r: Req, body: PAlts, h: nat)
    requires ValidPAlts(body) && Late(x.tables, r, body) && MPLook(x, OP_ASSERT, body, h)
    ensures Found(x, r, h + 1, |x.subject|)
  {
    if Lacking(x, r, h) {
      var j := MPLookElim(x, OP_ASSERT, body, h);
      SpanPAlts(x.(som := h), body, h, j);
      AltsAllows(x.(som := h), r, h, body, h, j);
      assert false;
    }
  }

  // ----- for plain bodies, what may happen does -----

  predicate PlainItem(item: Item) {
    match item
    case PAtom(_, _) => true
    case PRep(_, q) => q.greed != Possessive
    case PGroup(_, body) => PlainPattern(body)
    case PGroupRep(_, body, _) => PlainPattern(body)
    case _ => false
  }

  predicate PlainBranch(b: Branch) { b.BCons? ==> PlainItem(b.head) && PlainBranch(b.tail) }

  predicate PlainPattern(al: PAlts) { PlainBranch(al.branch) && (al.PMore? ==> PlainPattern(al.rest)) }

  datatype Way = Stay | Leave | Later

  predicate Has(w: Ways, way: Way) {
    match way case Stay => w.stay case Leave => w.leave case Later => w.later
  }

  /** A word whose match is of that kind. */
  predicate Suits(t: CharTables, r: Req, way: Way, w: seq<Byte>) {
    match way
    case Stay => w == []
    case Leave => |w| > 0 && forall m | 1 <= m < |w| :: !CharIs(t, r, w[m])
    case Later => forall m | 0 <= m < |w| :: !CharIs(t, r, w[m])
  }

  predicate Reads(x: Ctx, i: nat, w: seq<Byte>) { i + |w| <= |x.subject| && x.subject[i..i + |w|] == w }

  /** The item matches the word wherever it stands. */
  ghost predicate ItemSpells(t: CharTables, item: Item, w: seq<Byte>)
    requires ValidItem(item)
  {
    forall x: Ctx, i: nat | x.tables == t && Reads(x, i, w) :: MItem(x, item, i, i + |w|)
  }

  ghost predicate BranchSpells(t: CharTables, b: Branch, w: seq<Byte>)
    requires ValidBranch(b)
  {
    forall x: Ctx, i: nat | x.tables == t && Reads(x, i, w) :: MBranch(x, b, i, i + |w|)
  }

  ghost predicate AltsSpells(t: CharTables, al: PAlts, w: seq<Byte>)
    requires ValidPAlts(al)
  {
    forall x: Ctx, i: nat | x.tables == t && Reads(x, i, w) :: MPAlts(x, al, i, i + |w|)
  }

  ghost predicate TimesSpells(t: CharTables, al: PAlts, n: nat, w: seq<Byte>)
    requires ValidPAlts(al)
  {
    forall x: Ctx, i: nat | x.tables == t && Reads(x, i, w) :: Times(x, al, n, i, i + |w|)
  }

  lemma ReadsParts(x: Ctx, i: nat, u: seq<Byte>, v: seq<Byte>)
    requires Reads(x, i, u + v)
    ensures Reads(x, i, u) && Reads(x, i + |u|, v)
  {
    var w := x.subject[i..i + |u + v|];
    assert x.subject[i..i + |u|] == w[..|u|] && x.subject[i + |u|..i + |u| + |v|] == w[|u|..];
  }

  lemma ConsSpells(t: CharTables, item: Item, rest: Branch, u: seq<Byte>, v: seq<Byte>)
    requires ValidItem(item) && ValidBranch(rest) && ItemSpells(t, item, u) && BranchSpells(t, rest, v)
    ensures BranchSpells(t, BCons(item, rest), u + v)
  {
    hide Reads, MItem;
    forall x: Ctx, i: nat | x.tables == t && Reads(x, i, u + v)
      ensures MBranch(x, BCons(item, rest), i, i + |u + v|)
    {
      ReadsParts(x, i, u, v);
      MBranchCons(x, item, rest, i, i + |u|, i + |u| + |v|);
    }
  }

  lemma RoundSpells(t: CharTables, al: PAlts, n: nat, u: seq<Byte>, v: seq<Byte>)
    requires ValidPAlts(al) && AltsSpells(t, al, u) && TimesSpells(t, al, n, v)
    ensures TimesSpells(t, al, n + 1, u + v)
  {
    hide Reads, MPAlts;
    forall x: Ctx, i: nat | x.tables == t && Reads(x, i, u + v)
      ensures Times(x, al, n + 1, i, i + |u + v|)
    {
      ReadsParts(x, i, u, v);
      TimesCons(x, al, n, i, i + |u|, i + |u| + |v|);
    }
  }

  /** `n` rounds of a word that stays or is for later, and then what was there before. */
  lemma {:induction false} RoundsSpell(t: CharTables, r: Req, al: PAlts, way: Way, n: nat, u: seq<Byte>, m: nat, way2: Way, v: seq<Byte>)
    returns (w: seq<Byte>)
    requires ValidPAlts(al) && AltsSpells(t, al, u) && TimesSpells(t, al, m, v)
    requires Suits(t, r, way, u) && Suits(t, r, way2, v) && (way == Stay || (way == way2 == Later))
    ensures TimesSpells(t, al, n + m, w) && Suits(t, r, way2, w)
    decreases n
  {
    hide AltsSpells, TimesSpells;
    if n == 0 {
      w := v;
    } else {
      var rest := RoundsSpell(t, r, al, way, n - 1, u, m, way2, v);
      w := u + rest;
      RoundSpells(t, al, n - 1 + m, u, rest);
    }
  }

  lemma OneRound(t: CharTables, al: PAlts, w: seq<Byte>)
    requires ValidPAlts(al) && AltsSpells(t, al, w)
    ensures TimesSpells(t, al, 0, []) && TimesSpells(t, al, 1, w)
  {
    hide AltsSpells, MPAlts;
    RoundSpells(t, al, 0, w, []);
    assert w + [] == w;
  }

  lemma RepeatSpells(t: CharTables, cap: nat, body: PAlts, q: Quant, n: nat, w: seq<Byte>)
    requires ValidItem(PGroupRep(cap, body, q)) && TimesSpells(t, body, n, w)
    requires q.min <= n && (q.max >= 0 ==> n <= q.max)
    ensures ItemSpells(t, PGroupRep(cap, body, q), w)
  {
    hide Times, Reads;
  }

  lemma {:induction false} ItemWord(t: CharTables, r: Req, item: Item, way: Way) returns (w: seq<Byte>)
    requires ValidItem(item) && PlainItem(item) && Has(ItemWays(t, r, item), way)
    ensures Suits(t, r, way, w) && ItemSpells(t, item, w)
    decreases item, 0
  {
    match item
    case PGroup(_, body) => w := AltsWord(t, r, body, way);
    case PGroupRep(cap, body, q) => w := RepeatWord(t, r, cap, body, q, way);
    case _ => w := OneWord(t, r, item, way);
  }

  lemma OneWord(t: CharTables, r: Req, item: Item, way: Way) returns (w: seq<Byte>)
    requires ValidItem(item) && PlainItem(item) && (item.PAtom? || item.PRep?) && Has(ItemWays(t, r, item), way)
    ensures Suits(t, r, way, w) && ItemSpells(t, item, w)
  {
    var n := if item.PAtom? then 1 else item.q.min;
    w := [];
    if way == Leave {
      var c: Byte :| AtomAt(t, item.atom, c);
      w := [c];
      if n > 1 {
        var d: Byte :| AtomAt(t, item.atom, d) && !CharIs(t, r, d);
        w := [c] + seq(n - 1, _ => d);
      }
    } else if way == Later && n > 0 {
      var d: Byte :| AtomAt(t, item.atom, d) && !CharIs(t, r, d);
      w := seq(n, _ => d);
    }
    WordSpells(t, item, w);
  }

  lemma WordSpells(t: CharTables, item: Item, w: seq<Byte>)
    requires ValidItem(item) && PlainItem(item) && (item.PAtom? || item.PRep?)
    requires forall m | 0 <= m < |w| :: AtomAt(t, item.atom, w[m])
    requires if item.PAtom? then |w| == 1 else item.q.min <= |w| && (item.q.max >= 0 ==> |w| <= item.q.max)
    ensures ItemSpells(t, item, w)
  {
    hide AtomAt;
    forall x: Ctx, i: nat | x.tables == t && Reads(x, i, w)
      ensures MItem(x, item, i, i + |w|)
    {
      forall k | i <= k < i + |w|
        ensures AtomAt(t, item.atom, x.subject[k])
      {
        assert x.subject[k] == x.subject[i..i + |w|][k - i] == w[k - i];
      }
    }
  }

  lemma {:induction false} RepeatWord(t: CharTables, r: Req, cap: nat, body: PAlts, q: Quant, way: Way) returns (w: seq<Byte>)
    requires ValidItem(PGroupRep(cap, body, q)) && PlainPattern(body)
    requires Has(ItemWays(t, r, PGroupRep(cap, body, q)), way)
    ensures Suits(t, r, way, w) && ItemSpells(t, PGroupRep(cap, body, q), w)
    decreases body, 2
  {
    hide AltsSpells, TimesSpells, ItemSpells, MPAlts;
    var n := q.min;
    if way == Leave {
      var u := AltsWord(t, r, body, Leave);
      OneRound(t, body, u);
      if n <= 1 {
        w, n := u, 1;
      } else if AltsWays(t, r, body).stay {
        var v := AltsWord(t, r, body, Stay);
        w := RoundsSpell(t, r, body, Stay, n - 1, v, 1, Leave, u);
      } else {
        var v := AltsWord(t, r, body, Later);
        var rest := RoundsSpell(t, r, body, Later, n - 1, v, 0, Later, []);
        w := u + rest;
        RoundSpells(t, body, n - 1, u, rest);
      }
    } else if n == 0 {
      w := [];
      NoRound(t, body);
    } else {
      var v := AltsWord(t, r, body, way);
      OneRound(t, body, v);
      w := RoundsSpell(t, r, body, way, n, v, 0, way, []);
    }
    RepeatSpells(t, cap, body, q, n, w);
  }

  lemma NoRound(t: CharTables, al: PAlts)
    requires ValidPAlts(al)
    ensures TimesSpells(t, al, 0, [])
  {
  }

  lemma {:induction false} BranchWord(t: CharTables, r: Req, b: Branch, way: Way) returns (w: seq<Byte>)
    requires ValidBranch(b) && PlainBranch(b) && Has(BranchWays(t, r, b), way)
    ensures Suits(t, r, way, w) && BranchSpells(t, b, w)
    decreases b, 0
  {
    hide ItemSpells;
    match b
    case BNil => w := [];
    case BCons(item, rest) =>
      hide BranchSpells;
      var leaves := way == Leave && ItemWays(t, r, item).leave && BranchWays(t, r, rest).later;
      var u := ItemWord(t, r, item, if way == Leave && !leaves then Stay else way);
      var v := BranchWord(t, r, rest, if leaves then Later else way);
      w := u + v;
      ConsSpells(t, item, rest, u, v);
  }

  /** A word that the alternatives match in that way. */
  lemma {:induction false} AltsWord(t: CharTables, r: Req, al: PAlts, way: Way) returns (w: seq<Byte>)
    requires ValidPAlts(al) && PlainPattern(al) && Has(AltsWays(t, r, al), way)
    ensures Suits(t, r, way, w) && AltsSpells(t, al, w)
    decreases al, 1
  {
    if Has(BranchWays(t, r, al.branch), way) {
      w := BranchWord(t, r, al.branch, way);
    } else {
      w := AltsWord(t, r, al.rest, way);
    }
  }

  /** Where the lookahead holds, and behind that place the character that is required already, if there is
      one, the lookahead's own comes behind that place. */
  ghost predicate Forced(t: CharTables, already: Req, r: Req, body: PAlts)
    requires ValidPAlts(body)
  {
    forall x: Ctx, h: nat
      | x.tables == t && MPLook(x, OP_ASSERT, body, h) && (already.Char? ==> Found(x, already, h + 1, |x.subject|)) ::
      Found(x, r, h + 1, |x.subject|)
  }

  /** What satisfies the one satisfies the other. */
  ghost predicate Covers(t: CharTables, already: Req, r: Req) {
    already.Char? && forall c: Byte | CharIs(t, already, c) :: CharIs(t, r, c)
  }

  lemma CoversFound(x: Ctx, already: Req, r: Req, lo: nat, hi: nat)
    requires Covers(x.tables, already, r) && Found(x, already, lo, hi)
    ensures Found(x, r, lo, hi)
  {
  }

  /** For a plain body the test is exact: unless what is required already is enough, it fails only if
      there is a subject in which the lookahead holds and the character does not follow. */
  lemma LateExactly(t: CharTables, already: Req, r: Req, body: PAlts)
    requires ValidPAlts(body) && PlainPattern(body)
    ensures Forced(t, already, r, body) <==> Late(t, r, body) || Covers(t, already, r)
  {
    hide MPAlts, AltsWays, Found, CharIs;
    if Late(t, r, body) || Covers(t, already, r) {
      forall x: Ctx, h: nat
        | x.tables == t && MPLook(x, OP_ASSERT, body, h) && (already.Char? ==> Found(x, already, h + 1, |x.subject|))
        ensures Found(x, r, h + 1, |x.subject|)
      {
        if Late(t, r, body) {
          LateFound(x, r, body, h);
        } else {
          CoversFound(x, already, r, h + 1, |x.subject|);
        }
      }
    } else {
      var way := if AltsWays(t, r, body).stay then Stay else Leave;
      var w := AltsWord(t, r, body, way);
      var e: seq<Byte> := [];
      if already.Char? {
        var c: Byte :| CharIs(t, already, c) && !CharIs(t, r, c);
        e := [c, c];
      }
      var x := Ctx(t, w + e, false, false, false, false, 0, false, false, 0);
      assert x.(som := 0) == x && x.subject[0..0 + |w|] == w;
      assert Reads(x, 0, w);
      MPLookIntro(x, OP_ASSERT, body, 0, |w|);
      WordLacks(x, r, way, w, e);
      if already.Char? { EndFound(x, already, w, e[0]); }
      assert MPLook(x, OP_ASSERT, body, 0) && !Found(x, r, 0 + 1, |x.subject|);
    }
  }

  lemma EndFound(x: Ctx, r: Req, w: seq<Byte>, c: Byte)
    requires x.subject == w + [c, c] && CharIs(x.tables, r, c)
    ensures Found(x, r, 0 + 1, |x.subject|)
  {
    assert x.subject[|w| + 1] == c;
  }

  lemma WordLacks(x: Ctx, r: Req, way: Way, w: seq<Byte>, e: seq<Byte>)
    requires way != Later && Suits(x.tables, r, way, w) && x.subject == w + e
    requires forall m | 0 <= m < |e| :: !CharIs(x.tables, r, e[m])
    ensures Lacking(x, r, 0)
  {
    forall m | 1 <= m < |x.subject|
      ensures !CharIs(x.tables, r, x.subject[m])
    {
      assert x.subject[m] == if m < |w| then w[m] else e[m - |w|];
    }
  }
}
