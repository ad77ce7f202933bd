/** The code tree: the structure that the compiled bytes spell out, one constructor per
    kind of compiled item, and its exact encoding as bytes. */
module Tree {
  import opened Bytecode

  /** Items that match one subject character. */
  datatype Atom =
    | Lit(ch: Byte, nocase: bool)
    | NotLit(ch: Byte, nocase: bool)
    | Kind(op: Byte)                         // \D \d \S \s \W \w . and "any at all"
    | Class(bits: seq<Byte>, nclass: bool)   // 32-byte bit map

  /** `Rep` is a repeated atom: `form` is the opcode's place in its family, `n` the count
      of UPTO and EXACT, or the minimum of a class range whose maximum is `m` (0: none). */
  datatype Op =
    | Test(op: Byte)
    | One(atom: Atom)
    | Rep(atom: Atom, form: nat, n: nat, m: nat)
    | Bra(op: Byte, cap: nat, body: Alts, ket: Byte)
    | Zero(lazy: bool, group: Op)
    | Skip(group: Op)
    | Look(op: Byte, body: Alts)

  datatype Ops = Nil | Cons(head: Op, tail: Ops)

  datatype Alts = Last(branch: Ops) | More(branch: Ops, rest: Alts)

  predicate IsTest(op: Byte) {
    op == OP_SOD || op == OP_SOM || op == OP_NOT_WORD_BOUNDARY || op == OP_WORD_BOUNDARY || OP_EODN <= op <= OP_DOLLM
  }

  predicate IsLook(op: Byte) { OP_ASSERT <= op <= OP_ASSERTBACK_NOT }

  predicate IsBack(op: Byte) { op == OP_ASSERTBACK || op == OP_ASSERTBACK_NOT }

  predicate IsGroup(op: Byte) { op == OP_BRA || op == OP_CBRA || op == OP_SBRA || op == OP_SCBRA }

  predicate IsKet(op: Byte) { OP_KET <= op <= OP_KETRMIN }

  predicate ValidAtom(a: Atom) {
    match a
    case Kind(op) => OP_NOT_DIGIT <= op <= OP_ALLANY
    case Class(bits, _) => |bits| == 32
    case _ => true
  }

  /** Forms that carry a count in a single-character repeat. */
  predicate Counted(form: nat) { form == UPTO || form == UPTO + 1 || form == EXACT || form == POSUPTO }

  predicate ValidRep(a: Atom, form: nat, n: nat, m: nat) {
    && ValidAtom(a)
    && n < 0x10000 && m < 0x10000
    && (if a.Class? then form < 8 && (form >= UPTO ==> if m == 0 then n > 0 else n <= m) else form < 13)
    && (if a.Class? then form < UPTO ==> n == m == 0 else m == 0 && (Counted(form) <==> n > 0))
  }

  predicate ValidOp(op: Op) {
    match op
    case Test(o) => IsTest(o)
    case One(a) => ValidAtom(a)
    case Rep(a, form, n, m) => ValidRep(a, form, n, m)
    case Bra(o, cap, body, ket) => IsGroup(o) && cap < 0x10000 && IsKet(ket) && ValidAlts(body)
    case Zero(_, g) => g.Bra? && ValidOp(g)
    case Skip(g) => g.Bra? && ValidOp(g)
    case Look(o, body) => IsLook(o) && ValidAlts(body) && (IsBack(o) ==> FixedAlts(body))
  }

  predicate ValidOps(ops: Ops) {
    ops.Cons? ==> ValidOp(ops.head) && ValidOps(ops.tail)
  }

  predicate ValidAlts(al: Alts) {
    ValidOps(al.branch) && (al.More? ==> ValidAlts(al.rest))
  }

  /** Every branch has some fixed length, as a lookbehind requires. */
  predicate FixedAlts(al: Alts) {
    0 <= OpsLength(al.branch) && (al.More? ==> FixedAlts(al.rest))
  }

  /** Those lengths fit into the two units that hold them. */
  predicate ShortAlts(al: Alts) {
    OpsLength(al.branch) < 0x10000 && (al.More? ==> ShortAlts(al.rest))
  }

  // ----- the fixed length of compiled items: -1 when there is none -----

  function Add(a: int, b: int): int { if a < 0 || b < 0 then -1 else a + b }

  function RepLength(a: Atom, form: nat, n: nat, m: nat): int {
    if a.Class? then (if form >= UPTO && n == m then n else -1)
    else if form == EXACT then n else -1
  }

  function OpLength(op: Op): int {
    match op
    case Test(_) => 0
    case One(_) => 1
    case Rep(a, form, n, m) => RepLength(a, form, n, m)
    case Bra(o, _, body, ket) =>
      if (o == OP_BRA || o == OP_CBRA) && ket == OP_KET then AltsLength(body) else -1
    case Zero(_, _) => -1
    case Skip(_) => -1
    case Look(_, _) => 0
  }

  function OpsLength(ops: Ops): int {
    match ops
    case Nil => 0
    case Cons(op, rest) => Add(OpLength(op), OpsLength(rest))
  }

  function AltsLength(al: Alts): int {
    match al
    case Last(b) => OpsLength(b)
    case More(b, rest) =>
      var l := OpsLength(b);
      if l == AltsLength(rest) then l else -1
  }

  // ----- nesting of lookarounds -----

  function OpDepth(op: Op): nat {
    match op
    case Bra(_, _, body, _) => AltsDepth(body)
    case Zero(_, g) => OpDepth(g)
    case Skip(g) => OpDepth(g)
    case Look(_, body) => 1 + AltsDepth(body)
    case _ => 0
  }

  function OpsDepth(ops: Ops): nat {
    match ops
    case Nil => 0
    case Cons(op, rest) => Max(OpDepth(op), OpsDepth(rest))
  }

  function AltsDepth(al: Alts): nat {
    match al
    case Last(b) => OpsDepth(b)
    case More(b, rest) => Max(OpsDepth(b), AltsDepth(rest))
  }

  function Max(a: nat, b: nat): nat { if a < b then b else a }

  // ----- encoding -----

  function Family(a: Atom): nat {
    match a
    case Lit(_, nocase) => if nocase then 1 else 0
    case NotLit(_, nocase) => if nocase then 3 else 2
    case _ => 4
  }

  function Payload(a: Atom): Byte {
    match a
    case Lit(ch, _) => ch
    case NotLit(ch, _) => ch
    case Kind(op) => op
    case Class(_, _) => 0
  }

  /** The first unit of an encoded atom. */
  function AtomLead(a: Atom): Byte {
    match a
    case Lit(_, nocase) => if nocase then OP_CHARI else OP_CHAR
    case NotLit(_, nocase) => if nocase then OP_NOTI else OP_NOT
    case Kind(op) => op
    case Class(_, nclass) => if nclass then OP_NCLASS else OP_CLASS
  }

  function EncAtom(a: Atom): (s: seq<Byte>)
    ensures |s| > 0 && s[0] == AtomLead(a)
  {
    match a
    case Lit(ch, _) => [AtomLead(a), ch]
    case NotLit(ch, _) => [AtomLead(a), ch]
    case Kind(op) => [op]
    case Class(bits, _) => [AtomLead(a)] + bits
  }

  /** The first unit of an encoded item. */
  function Lead(op: Op): Byte
    requires ValidOp(op)
  {
    match op
    case Test(o) => o
    case One(a) => AtomLead(a)
    case Rep(a, form, _, _) => if a.Class? then AtomLead(a) else OP_STAR + 13 * Family(a) + form
    case Bra(o, _, _, _) => o
    case Zero(lazy, _) => if lazy then OP_BRAMINZERO else OP_BRAZERO
    case Skip(_) => OP_SKIPZERO
    case Look(o, _) => o
  }

  /** The repeat unit after a class: one opcode, or an opcode and two counts. */
  function EncClassRepeat(form: nat, n: nat, m: nat): (s: seq<Byte>)
    requires form < 8
    ensures |s| > 0
  {
    [OP_CRSTAR + form] + if form >= UPTO then Two(n) + Two(m) else []
  }

  function EncRep(a: Atom, form: nat, n: nat, m: nat): (s: seq<Byte>)
    requires ValidRep(a, form, n, m)
    ensures |s| > 0 && s[0] == Lead(Rep(a, form, n, m))
  {
    if a.Class? then EncAtom(a) + EncClassRepeat(form, n, m)
    else [OP_STAR + 13 * Family(a) + form] + (if Counted(form) then Two(n) else []) + [Payload(a)]
  }

  function EncOp(op: Op): (s: seq<Byte>)
    requires ValidOp(op)
    ensures |s| > 0 && s[0] == Lead(op)
    decreases op, 1
  {
    match op
    case Test(o) => [o]
    case One(a) => EncAtom(a)
    case Rep(a, form, n, m) => EncRep(a, form, n, m)
    case Bra(o, cap, body, ket) => EncBracket(o, cap, body, ket, false)
    case Zero(lazy, g) => [if lazy then OP_BRAMINZERO else OP_BRAZERO] + EncOp(g)
    case Skip(g) => [OP_SKIPZERO] + EncOp(g)
    case Look(o, body) => EncBracket(o, 0, body, OP_KET, IsBack(o))
  }

  function EncOps(ops: Ops): seq<Byte>
    requires ValidOps(ops)
    decreases ops, 1
  {
    match ops
    case Nil => []
    case Cons(op, rest) => EncOp(op) + EncOps(rest)
  }

  /** A branch; in a lookbehind it starts with OP_REVERSE and its fixed length. */
  function EncBranch(b: Ops, back: bool): seq<Byte>
    requires ValidOps(b) && (back ==> OpsLength(b) >= 0)
    decreases b, 2
  {
    if back then [OP_REVERSE] + Two(OpsLength(b)) + EncOps(b) else EncOps(b)
  }

  /** All branches: each later one is introduced by an ALT whose link is the distance to
      what follows that branch. */
  function EncAlts(al: Alts, back: bool): seq<Byte>
    requires ValidAlts(al) && (back ==> FixedAlts(al))
    decreases al, 2
  {
    match al
    case Last(b) => EncBranch(b, back)
    case More(b, rest) =>
      assert ValidAlts(rest) && (back ==> FixedAlts(rest));
      EncBranch(b, back) + [OP_ALT] + Two(1 + LINK_SIZE + |EncBranch(rest.branch, back)|) + EncAlts(rest, back)
  }

  /** Opcode, link, and the number of a capturing group. */
  function EncHeader(o: Byte, link: nat, cap: nat): (s: seq<Byte>)
    ensures |s| == HeaderLen(o) && s[0] == o
  {
    [o] + Two(link) + if HeaderLen(o) == 5 then Two(cap) else []
  }

  /** A bracket up to its ket; its link leads to the end of the first branch. */
  function EncOpen(o: Byte, cap: nat, body: Alts, back: bool): (s: seq<Byte>)
    requires ValidAlts(body) && (back ==> FixedAlts(body))
    ensures |s| == HeaderLen(o) + |EncAlts(body, back)| && s[0] == o
    decreases body, 3
  {
    EncHeader(o, HeaderLen(o) + |EncBranch(body.branch, back)|, cap) + EncAlts(body, back)
  }

  function EncBracket(o: Byte, cap: nat, body: Alts, ket: Byte, back: bool): (s: seq<Byte>)
    requires ValidAlts(body) && (back ==> FixedAlts(body))
    ensures |s| == HeaderLen(o) + |EncAlts(body, back)| + 1 + LINK_SIZE && s[0] == o
    decreases body, 4
  {
    var s := EncOpen(o, cap, body, back);
    s + [ket] + Two(|s|)
  }

  /** The whole compiled pattern: a non-capturing bracket and the final END. */
  function EncPattern(al: Alts): seq<Byte>
    requires ValidAlts(al)
  {
    EncBracket(OP_BRA, 0, al, OP_KET, false) + [OP_END]
  }
}
