/** Which patterns the compiler finds a first character for. */
module Firsts {
  import opened Bytecode
  import opened Tree
  import opened Subject
  import opened Pattern
  import opened FirstReq
  import opened Lookahead

  /** Every alternative begins with the letter `c`: behind tests other than multiline ^ and assertions comes that
      letter, or at least one of it, or at least once a group of which the same is true. */
  predicate AllBegin(al: PAlts, c: Byte, nocase: bool) {
    Begins(al.branch, c, nocase) && (al.PMore? ==> AllBegin(al.rest, c, nocase))
  }

  predicate Begins(b: Branch, c: Byte, nocase: bool) {
    b.BCons? &&
    match b.head
    case PTest(o) => o != OP_CIRCM && Begins(b.tail, c, nocase)
    case PLook(_, _) => Begins(b.tail, c, nocase)
    case PAtom(a, _) => a == Lit(c, nocase)
    case PRep(a, q) => a == Lit(c, nocase) && q.min > 0
    case PGroup(_, body) => AllBegin(body, c, nocase)
    case PGroupRep(_, body, q) => AllBegin(body, c, nocase) && q.min > 0
  }

  /** Once the first character is settled, or given up, it stays so. */
  lemma {:induction false} Stays(b: Branch, s: Start, vary: bool)
    requires !s.first.Unset?
    ensures BranchStart(b, s, vary).first == s.first
    decreases b
  {
    if b.BCons? {
      Stays(b.tail, ItemStart(b.head, s, vary), vary || Varies(b.head));
    }
  }

  /** A branch gives a first character exactly if it begins with it. */
  lemma {:induction false} BranchFirst(b: Branch, s: Start, vary: bool, r: Req)
    requires ValidBranch(b) && s.first.Unset? && r.Char?
    ensures BranchStart(b, s, vary).first == r <==> !r.vary && Begins(b, r.ch, r.caseless)
    decreases b, 1
  {
    if b.BCons? {
      var t := ItemStart(b.head, s, vary);
      match b.head {
        case PGroup(_, body) => AltsFirst(body, vary, r);
        case PGroupRep(_, body, _) => AltsFirst(body, vary, r);
        case _ =>
      }
      if t.first.Unset? {
        BranchFirst(b.tail, t, vary || Varies(b.head), r);
      } else {
        Stays(b.tail, t, vary || Varies(b.head));
      }
    }
  }

  /** The compiler finds a first character exactly if every alternative begins with it. */
  lemma {:induction false} AltsFirst(al: PAlts, vary: bool, r: Req)
    requires ValidPAlts(al) && r.Char?
    ensures AltsStart(al, vary).first == r <==> !r.vary && AllBegin(al, r.ch, r.caseless)
    decreases al, 2
  {
    BranchFirst(al.branch, Start(Unset, Unset), vary, r);
    if al.PMore? {
      MoreFirst(al.rest, BranchStart(al.branch, Start(Unset, Unset), vary), vary || VariesBranch(al.branch), r);
    }
  }

  lemma {:induction false} MoreFirst(al: PAlts, s: Start, vary: bool, r: Req)
    requires ValidPAlts(al) && r.Char?
    ensures MoreStart(al, s, vary).first == r <==> s.first == r && !r.vary && AllBegin(al, r.ch, r.caseless)
    decreases al, 2
  {
    var b := BranchStart(al.branch, Start(Unset, Unset), vary);
    BranchFirst(al.branch, Start(Unset, Unset), vary, r);
    if al.PMore? {
      MoreFirst(al.rest, Merge(s, b), vary || VariesBranch(al.branch), r);
    }
  }
}
