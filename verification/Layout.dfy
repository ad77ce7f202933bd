/** Reading back what the encoding wrote: decoding an encoded item gives the item, and
    following the links of an encoded bracket visits each alternative once and ends at the
    bracket's own ket, whose link is the distance back. */
module Layout {
  import opened Bytecode
  import opened Tree
  import opened Subject
  import opened Graph

  predicate IsClassRepeat(op: Byte) { OP_CRSTAR <= op <= OP_CRMINRANGE }

  /** `s` lies at `a` in code small enough for its links, and what follows cannot be taken
      for the repeat of a class. */
  ghost predicate Placed(code: seq<Byte>, a: nat, s: seq<Byte>) {
    |code| <= MAX_PATTERN_SIZE && Holds(code, a, s) && !IsClassRepeat(At(code, a + |s|))
  }

  lemma FirstUnit(op: Op)
    requires ValidOp(op)
    ensures var u := EncOp(op)[0]; !IsClassRepeat(u) && u != OP_ALT && u != OP_REVERSE && !IsKet(u) && u != OP_END
  {
  }

  lemma PlacedOps(code: seq<Byte>, a: nat, op: Op, rest: Ops)
    requires ValidOp(op) && ValidOps(rest) && Placed(code, a, EncOp(op) + EncOps(rest))
    ensures Placed(code, a, EncOp(op)) && Placed(code, a + |EncOp(op)|, EncOps(rest))
  {
    HoldsSplit(code, a, EncOp(op), EncOps(rest));
    if rest.Cons? {
      FirstUnit(rest.head);
      HoldsAt(code, a + |EncOp(op)|, EncOps(rest), 0);
    }
  }

  lemma DecodeTest(code: seq<Byte>, a: nat, o: Byte)
    requires IsTest(o) && Placed(code, a, EncOp(Test(o)))
    ensures Decode(code, a) == ITest(o, a + 1)
  {
    HoldsAt(code, a, EncOp(Test(o)), 0);
  }

  lemma DecodeOne(code: seq<Byte>, a: nat, atom: Atom)
    requires ValidAtom(atom) && Placed(code, a, EncAtom(atom))
    ensures Decode(code, a) == IOne(atom, a + |EncAtom(atom)|)
  {
    var s := EncAtom(atom);
    HoldsAt(code, a, s, 0);
    if !atom.Kind? {
      HoldsAt(code, a, s, 1);
    }
    if atom.Class? {
      ClassBits(code, a, atom);
    }
  }

  lemma ClassBits(code: seq<Byte>, a: nat, atom: Atom)
    requires ValidAtom(atom) && atom.Class? && Holds(code, a, EncAtom(atom))
    ensures a + 33 <= |code| && code[a + 1..a + 33] == atom.bits
  {
    forall k | 0 <= k < 32
      ensures code[a + 1 + k] == atom.bits[k]
    {
      HoldsAt(code, a, EncAtom(atom), k + 1);
    }
  }

  lemma DecodeRepeat(code: seq<Byte>, a: nat, atom: Atom, form: nat, n: nat, m: nat)
    requires ValidRep(atom, form, n, m) && Placed(code, a, EncRep(atom, form, n, m))
    ensures Decode(code, a) == IRep(atom, form, n, m, a + |EncRep(atom, form, n, m)|)
  {
    if atom.Class? {
      DecodeClassRepeat(code, a, atom, form, n, m);
    } else {
      DecodeCharRepeat(code, a, atom, form, n, m);
    }
  }

  lemma DecodeClassRepeat(code: seq<Byte>, a: nat, atom: Atom, form: nat, n: nat, m: nat)
    requires ValidRep(atom, form, n, m) && atom.Class? && Placed(code, a, EncRep(atom, form, n, m))
    ensures Decode(code, a) == IRep(atom, form, n, m, a + |EncRep(atom, form, n, m)|)
  {
    HoldsSplit(code, a, EncAtom(atom), EncClassRepeat(form, n, m));
    HoldsAt(code, a, EncAtom(atom), 0);
    ClassBits(code, a, atom);
    HoldsAt(code, a + 33, EncClassRepeat(form, n, m), 0);
    if form >= UPTO {
      HoldsSplit(code, a + 33, [OP_CRSTAR + form], Two(n) + Two(m));
      HoldsSplit(code, a + 34, Two(n), Two(m));
      GetTwo(code, a + 34, n);
      GetTwo(code, a + 36, m);
    }
  }

  lemma DecodeCharRepeat(code: seq<Byte>, a: nat, atom: Atom, form: nat, n: nat, m: nat)
    requires ValidRep(atom, form, n, m) && !atom.Class? && Placed(code, a, EncRep(atom, form, n, m))
    ensures Decode(code, a) == IRep(atom, form, n, m, a + |EncRep(atom, form, n, m)|)
  {
    var u := [OP_STAR + 13 * Family(atom) + form];
    var c := if Counted(form) then Two(n) else [];
    HoldsSplit(code, a, u + c, [Payload(atom)]);
    HoldsSplit(code, a, u, c);
    HoldsAt(code, a, u, 0);
    HoldsAt(code, a + 1 + |c|, [Payload(atom)], 0);
    if Counted(form) {
      GetTwo(code, a + 1, n);
    }
    assert (u[0] - OP_STAR) % 13 == form && (u[0] - OP_STAR) / 13 == Family(atom);
  }

  /** Offsets of the branches of an encoded bracket whose first branch is at `h`. */
  function Offsets(al: Alts, back: bool, h: nat): (r: seq<nat>)
    requires ValidAlts(al) && (back ==> FixedAlts(al))
    ensures |r| > 0 && r[0] == h
  {
    match al
    case Last(_) => [h]
    case More(b, rest) =>
      assert ValidAlts(rest) && (back ==> FixedAlts(rest));
      [h] + Offsets(rest, back, h + |EncBranch(b, back)| + 1 + LINK_SIZE)
  }

  /** A bracket's opcode or an ALT at `o` heads the alternatives at `h`: its link leads past
      the first of them, and after the last comes something that is not an ALT. */
  ghost predicate Heading(code: seq<Byte>, o: nat, al: Alts, back: bool, h: nat)
    requires ValidAlts(al) && (back ==> FixedAlts(al))
  {
    && |code| <= MAX_PATTERN_SIZE
    && o < h
    && Holds(code, h, EncAlts(al, back))
    && o + Get(code, o + 1) == h + |EncBranch(al.branch, back)|
    && h + |EncAlts(al, back)| < |code|
    && IsKet(At(code, h + |EncAlts(al, back)|))
  }

  /** The second of several branches is headed by its ALT. */
  lemma NextHeading(code: seq<Byte>, o: nat, al: Alts, back: bool, h: nat)
    requires ValidAlts(al) && (back ==> FixedAlts(al)) && al.More? && Heading(code, o, al, back, h)
    ensures var f := h + |EncBranch(al.branch, back)|;
            && At(code, f) == OP_ALT && o + Get(code, o + 1) == f
            && ValidAlts(al.rest) && (back ==> FixedAlts(al.rest))
            && Heading(code, f, al.rest, back, f + 1 + LINK_SIZE)
            && Holds(code, h, EncBranch(al.branch, back))
            && f + 1 + LINK_SIZE + |EncAlts(al.rest, back)| == h + |EncAlts(al, back)|
  {
    hide EncAlts, EncBranch, Holds, Get, Two;
    AltsUnits(al, back);
    var d := 1 + LINK_SIZE + |EncBranch(al.rest.branch, back)|;
    BranchInAlts(al.rest, back);
    AltParts(code, h, EncBranch(al.branch, back), d, EncAlts(al.rest, back));
  }

  /** The units of several branches, after the first of them. */
  lemma AltsUnits(al: Alts, back: bool)
    requires ValidAlts(al) && (back ==> FixedAlts(al)) && al.More?
    ensures ValidAlts(al.rest) && (back ==> FixedAlts(al.rest))
    ensures EncAlts(al, back)
         == EncBranch(al.branch, back) + [OP_ALT] + Two(1 + LINK_SIZE + |EncBranch(al.rest.branch, back)|) + EncAlts(al.rest, back)
    ensures |EncAlts(al, back)| == |EncBranch(al.branch, back)| + 1 + LINK_SIZE + |EncAlts(al.rest, back)|
  {
  }

  lemma AltParts(code: seq<Byte>, h: nat, s: seq<Byte>, d: nat, rest: seq<Byte>)
    requires Holds(code, h, s + [OP_ALT] + Two(d) + rest) && d < 0x10000
    ensures Holds(code, h, s) && At(code, h + |s|) == OP_ALT && Get(code, h + |s| + 1) == d
    ensures Holds(code, h + |s| + 1 + LINK_SIZE, rest)
  {
    HoldsSplit(code, h, s + [OP_ALT] + Two(d), rest);
    HoldsSplit(code, h, s + [OP_ALT], Two(d));
    HoldsSplit(code, h, s, [OP_ALT]);
    HoldsAt(code, h + |s|, [OP_ALT], 0);
    GetTwo(code, h + |s| + 1, d);
  }

  lemma BranchInAlts(al: Alts, back: bool)
    requires ValidAlts(al) && (back ==> FixedAlts(al))
    ensures |EncBranch(al.branch, back)| <= |EncAlts(al, back)|
  {
  }

  /** One link of the chain: from `o` to the ALT at `f`. */
  lemma LinkStep(code: seq<Byte>, o: nat, f: nat)
    requires o + Get(code, o + 1) == f && o < f < |code| && At(code, f) == OP_ALT && Get(code, f + 1) > 0
    ensures ToKet(code, o) == ToKet(code, f)
    ensures AltEntries(code, f) == [f + 1 + LINK_SIZE] + AltEntries(code, f + Get(code, f + 1))
  {
    hide Get;
  }

  lemma LastLink(code: seq<Byte>, o: nat, k: nat)
    requires o + Get(code, o + 1) == k && At(code, k) != OP_ALT
    ensures ToKet(code, o) == k && AltEntries(code, k) == []
  {
    hide Get;
  }

  lemma OffsetsStep(al: Alts, back: bool, h: nat, f: nat)
    requires ValidAlts(al) && (back ==> FixedAlts(al)) && al.More? && f == h + |EncBranch(al.branch, back)|
    ensures ValidAlts(al.rest) && (back ==> FixedAlts(al.rest))
    ensures Offsets(al, back, h) == [h] + Offsets(al.rest, back, f + 1 + LINK_SIZE)
  {
    hide EncBranch;
  }

  lemma HeadLink(code: seq<Byte>, o: nat, al: Alts, back: bool, h: nat)
    requires ValidAlts(al) && (back ==> FixedAlts(al)) && Heading(code, o, al, back, h)
    ensures o < h && Get(code, o + 1) > 0 && o + Get(code, o + 1) == h + |EncBranch(al.branch, back)|
    ensures h + |EncAlts(al, back)| < |code| && IsKet(At(code, h + |EncAlts(al, back)|))
    ensures al.Last? ==> |EncAlts(al, back)| == |EncBranch(al.branch, back)|
  {
    hide EncBranch, Get, Holds;
    if al.Last? {
      LastAlts(al, back);
    }
  }

  /** Link integrity: the forward links lead from the head to each later branch in turn, and
      from the last one to the ket. */
  lemma {:induction false} Chain(code: seq<Byte>, o: nat, al: Alts, back: bool, h: nat)
    requires ValidAlts(al) && (back ==> FixedAlts(al)) && Heading(code, o, al, back, h)
    ensures ToKet(code, o) == h + |EncAlts(al, back)|
    ensures [h] + AltEntries(code, o + Get(code, o + 1)) == Offsets(al, back, h)
    decreases al
  {
    hide EncAlts, EncBranch, Get, Heading, ToKet, AltEntries, At;
    HeadLink(code, o, al, back, h);
    if al.More? {
      NextHeading(code, o, al, back, h);
      var f := h + |EncBranch(al.branch, back)|;
      HeadLink(code, f, al.rest, back, f + 1 + LINK_SIZE);
      Chain(code, f, al.rest, back, f + 1 + LINK_SIZE);
      LinkStep(code, o, f);
      OffsetsStep(al, back, h, f);
    } else {
      LastLink(code, o, h + |EncAlts(al, back)|);
    }
  }

  lemma LastAlts(al: Alts, back: bool)
    requires ValidAlts(al) && (back ==> FixedAlts(al)) && al.Last?
    ensures EncAlts(al, back) == EncBranch(al.branch, back)
  {
  }

  lemma HeaderParts(code: seq<Byte>, a: nat, o: Byte, link: nat, cap: nat)
    requires Holds(code, a, EncHeader(o, link, cap)) && link < 0x10000
    ensures At(code, a) == o && Get(code, a + 1) == link
  {
    HoldsSplit(code, a, [o] + Two(link), if HeaderLen(o) == 5 then Two(cap) else []);
    HoldsSplit(code, a, [o], Two(link));
    HoldsAt(code, a, [o], 0);
    GetTwo(code, a + 1, link);
  }

  lemma OpenParts(code: seq<Byte>, a: nat, o: Byte, cap: nat, body: Alts, back: bool)
    requires ValidAlts(body) && (back ==> FixedAlts(body)) && |code| <= MAX_PATTERN_SIZE
    requires Holds(code, a, EncOpen(o, cap, body, back)) && a + |EncOpen(o, cap, body, back)| < |code|
    ensures At(code, a) == o
    ensures Holds(code, a + HeaderLen(o), EncAlts(body, back))
    ensures Get(code, a + 1) == HeaderLen(o) + |EncBranch(body.branch, back)|
  {
    var l := HeaderLen(o) + |EncBranch(body.branch, back)|;
    HoldsSplit(code, a, EncHeader(o, l, cap), EncAlts(body, back));
    BranchInAlts(body, back);
    HeaderParts(code, a, o, l, cap);
  }

  lemma KetParts(code: seq<Byte>, a: nat, s: seq<Byte>, ket: Byte)
    requires |code| <= MAX_PATTERN_SIZE && Holds(code, a, s + [ket] + Two(|s|)) && IsKet(ket)
    ensures Holds(code, a, s) && At(code, a + |s|) == ket && a + |s| < |code|
    ensures Decode(code, a + |s|) == IKet(a + |s| + 1 + LINK_SIZE, ket != OP_KET, a)
  {
    HoldsSplit(code, a, s + [ket], Two(|s|));
    HoldsSplit(code, a, s, [ket]);
    GetTwo(code, a + |s| + 1, |s|);
    HoldsAt(code, a + |s|, [ket], 0);
  }

  /** The shape of an encoded bracket in its place. */
  ghost predicate Bracketed(code: seq<Byte>, a: nat, body: Alts, ket: Byte, back: bool, h: nat, k: nat)
    requires ValidAlts(body) && (back ==> FixedAlts(body))
  {
    && h == a + HeaderLen(At(code, a)) && k == h + |EncAlts(body, back)|
    && Heading(code, a, body, back, h)
    && ToKet(code, a) == k
    && Entries(code, a) == Offsets(body, back, h)
    && Decode(code, k) == IKet(k + 1 + LINK_SIZE, ket != OP_KET, a)
    && Decode(code, a) == if IsGroup(At(code, a)) then IBra else ILook(At(code, a), k + 1 + LINK_SIZE)
  }

  lemma BracketParts(code: seq<Byte>, a: nat, o: Byte, cap: nat, body: Alts, ket: Byte, back: bool, k: nat)
    requires ValidAlts(body) && (back ==> FixedAlts(body)) && IsKet(ket)
    requires Placed(code, a, EncBracket(o, cap, body, ket, back))
    requires k == a + HeaderLen(o) + |EncAlts(body, back)|
    ensures At(code, a) == o && Heading(code, a, body, back, a + HeaderLen(o))
    ensures Decode(code, k) == IKet(k + 1 + LINK_SIZE, ket != OP_KET, a)
  {
    var s := EncOpen(o, cap, body, back);
    assert EncBracket(o, cap, body, ket, back) == s + [ket] + Two(|s|);
    KetParts(code, a, s, ket);
    OpenParts(code, a, o, cap, body, back);
  }

  lemma Bracket(code: seq<Byte>, a: nat, o: Byte, cap: nat, body: Alts, ket: Byte, back: bool) returns (h: nat, k: nat)
    requires ValidAlts(body) && (back ==> FixedAlts(body)) && IsKet(ket) && (IsGroup(o) || IsLook(o))
    requires Placed(code, a, EncBracket(o, cap, body, ket, back))
    ensures At(code, a) == o && Bracketed(code, a, body, ket, back, h, k)
    ensures k + 1 + LINK_SIZE == a + |EncBracket(o, cap, body, ket, back)|
  {
    hide EncAlts, EncBranch, EncOpen, ToKet, AltEntries, Offsets, Get, Heading, Placed, HeaderLen;
    h := a + HeaderLen(o);
    k := h + |EncAlts(body, back)|;
    BracketParts(code, a, o, cap, body, ket, back, k);
    Chain(code, a, body, back, h);
    BracketDecoded(code, a, o);
  }

  lemma BracketDecoded(code: seq<Byte>, a: nat, o: Byte)
    requires At(code, a) == o && (IsGroup(o) || IsLook(o))
    ensures Decode(code, a) == if IsGroup(o) then IBra else ILook(o, ToKet(code, a) + 1 + LINK_SIZE)
    ensures Entries(code, a) == [a + HeaderLen(o)] + AltEntries(code, a + Get(code, a + 1))
  {
    hide ToKet, AltEntries, Get;
  }

  /** Each branch in its place: what follows it is an ALT or the ket. */
  lemma BranchPlaced(code: seq<Byte>, o: nat, al: Alts, back: bool, h: nat)
    requires ValidAlts(al) && (back ==> FixedAlts(al)) && Heading(code, o, al, back, h)
    ensures Placed(code, h, EncBranch(al.branch, back))
    ensures var f := h + |EncBranch(al.branch, back)|;
            if al.Last? then f == h + |EncAlts(al, back)|
            else f < h + |EncAlts(al, back)| && Decode(code, f) == IAlt(h + |EncAlts(al, back)|)
  {
    if al.More? {
      NextHeading(code, o, al, back, h);
      var f := h + |EncBranch(al.branch, back)|;
      Chain(code, f, al.rest, back, f + 1 + LINK_SIZE);
    }
  }

  /** A branch of a lookbehind: OP_REVERSE, what PUT keeps of the branch's length, and its items. */
  lemma ReversePlaced(code: seq<Byte>, h: nat, b: Ops)
    requires ValidOps(b) && 0 <= OpsLength(b) && Placed(code, h, EncBranch(b, true))
    ensures At(code, h) == OP_REVERSE && Get(code, h + 1) == OpsLength(b) % 0x10000
    ensures Placed(code, h + 1 + LINK_SIZE, EncOps(b))
    ensures h + 1 + LINK_SIZE + |EncOps(b)| == h + |EncBranch(b, true)|
  {
    var l := Two(OpsLength(b));
    HoldsSplit(code, h, [OP_REVERSE] + l, EncOps(b));
    HoldsSplit(code, h, [OP_REVERSE], l);
    HoldsAt(code, h, [OP_REVERSE], 0);
    GetLow(code, h + 1, OpsLength(b));
  }

  /** Where the items of a branch lie. */
  lemma BranchStart(code: seq<Byte>, al: Alts, back: bool, h: nat)
    requires ValidAlts(al) && (back ==> FixedAlts(al)) && Placed(code, h, EncBranch(al.branch, back))
    ensures var a := if back then h + 1 + LINK_SIZE else h;
            Placed(code, a, EncOps(al.branch)) && a + |EncOps(al.branch)| == h + |EncBranch(al.branch, back)|
  {
    if back {
      ReversePlaced(code, h, al.branch);
    }
  }
}
