/** What one item of a pattern means at one place of the subject: character tables, the
    match-time context, and the tests on a character or on a position. */
module Subject {
  import opened Bytecode
  import opened Tree

  /** The character tables that compiling and matching share. */
  datatype RawTables = Tables(lower: seq<Byte>, flip: seq<Byte>, digit: seq<bool>, space: seq<bool>, word: seq<bool>)

  /** What the tables built by pcre_maketables have in common in every locale: lower-casing
      identifies exactly a character and its flipped case, the two cases of a character are of
      the same kind, digits are word characters and white space is not. */
  ghost predicate Consistent(t: RawTables) {
    && |t.lower| == |t.flip| == |t.digit| == |t.space| == |t.word| == 256
    && (forall c, d | 0 <= c < 256 && 0 <= d < 256 ::
          t.lower[c] == t.lower[d] <==> (c == d || c == t.flip[d]))
    && (forall c | 0 <= c < 256 ::
          var f := t.flip[c]; t.digit[f] == t.digit[c] && t.space[f] == t.space[c] && t.word[f] == t.word[c])
    && (forall c | 0 <= c < 256 :: (t.digit[c] ==> t.word[c]) && !(t.space[c] && t.word[c]))
  }

  const IDENTITY_TABLE: seq<Byte> := seq(256, (i: int) requires 0 <= i < 256 => i as Byte)
  const EMPTY_CLASS: seq<bool> := seq(256, _ => false)

  type CharTables = t: RawTables | Consistent(t)
    ghost witness Tables(IDENTITY_TABLE, IDENTITY_TABLE, EMPTY_CLASS, EMPTY_CLASS, EMPTY_CLASS)

  const NEWLINE: Byte := 10

  /** What does not change during one match: tables, subject, the relevant options, the position
      that \G means (`som`), and the start offset of the whole match (`mdStart`). */
  datatype Ctx = Ctx(
    tables: CharTables, subject: seq<Byte>,
    notBol: bool, notEol: bool, dollarEndOnly: bool, partialHard: bool, som: int,
    notEmpty: bool, notEmptyAtStart: bool, mdStart: int)

  /** No option refuses empty matches. */
  predicate TakesEmpty(x: Ctx) { !x.notEmpty && !x.notEmptyAtStart }

  /** May a run that began at `start` record a match that ends at `p`? */
  predicate Recordable(x: Ctx, start: nat, p: nat) {
    p > start || (!x.notEmpty && (!x.notEmptyAtStart || start > x.mdStart))
  }

  function Pow2(k: nat): (r: nat)
    ensures r > 0
  {
    if k == 0 then 1 else 2 * Pow2(k - 1)
  }

  predicate InClass(bits: seq<Byte>, c: Byte)
    requires |bits| == 32
  {
    (bits[c / 8] / Pow2(c % 8)) % 2 == 1
  }

  predicate KindAt(t: CharTables, op: Byte, c: Byte) {
    if op == OP_NOT_DIGIT then !t.digit[c]
    else if op == OP_DIGIT then t.digit[c]
    else if op == OP_NOT_WHITESPACE then !t.space[c]
    else if op == OP_WHITESPACE then t.space[c]
    else if op == OP_NOT_WORDCHAR then !t.word[c]
    else if op == OP_WORDCHAR then t.word[c]
    else op == OP_ALLANY || c != NEWLINE
  }

  /** Does the atom match the character `c`? */
  predicate AtomAt(t: CharTables, a: Atom, c: Byte)
    requires ValidAtom(a)
  {
    match a
    case Lit(d, nocase) => c == d || (nocase && c == t.flip[d])
    case NotLit(d, nocase) => c != d && !(nocase && c == t.flip[d])
    case Kind(op) => KindAt(t, op, c)
    case Class(bits, _) => InClass(bits, c)
  }

  predicate IsNewline(s: seq<Byte>, p: int) { 0 <= p < |s| && s[p] == NEWLINE }

  predicate WordAt(x: Ctx, p: int) { 0 <= p < |x.subject| && x.tables.word[x.subject[p]] }

  /** Does the zero-width test hold at position `p`? */
  predicate TestHolds(x: Ctx, op: Byte, p: nat) {
    var n := |x.subject|;
    if op == OP_CIRC then p == 0 && !x.notBol
    else if op == OP_CIRCM then (p == 0 && !x.notBol) || (p != n && IsNewline(x.subject, p - 1))
    else if op == OP_SOD then p == 0
    else if op == OP_SOM then p == x.som
    else if op == OP_EOD then p == n && !x.partialHard
    else if op == OP_EODN then
      if p == n then !x.partialHard else IsNewline(x.subject, p) && p == n - 1
    else if op == OP_DOLL then
      !x.notEol && if p == n then !x.partialHard else !x.dollarEndOnly && IsNewline(x.subject, p) && p == n - 1
    else if op == OP_DOLLM then
      if !x.notEol then (if p == n then !x.partialHard else !x.dollarEndOnly && IsNewline(x.subject, p))
      else IsNewline(x.subject, p)
    else (WordAt(x, p - 1) == WordAt(x, p)) == (op == OP_NOT_WORD_BOUNDARY)
  }

  /** How a repeat counts: the least and greatest number of characters (`hi` < 0: no limit),
      whether it is possessive, and whether its state carries the number matched so far. */
  datatype Bounds = Bounds(lo: nat, hi: int, never: bool, poss: bool, keep: bool)

  function RepBounds(a: Atom, form: nat, n: nat, m: nat): Bounds {
    if a.Class? && form >= UPTO then Bounds(n, if m == 0 then -1 else m, false, false, true)
    else if form < PLUS || form == POSSTAR then Bounds(0, -1, false, form == POSSTAR, false)
    else if form < QUERY || form == POSPLUS then Bounds(1, -1, false, form == POSPLUS, true)
    else if form < UPTO || form == POSQUERY then Bounds(0, 1, false, form == POSQUERY, true)
    else if form == EXACT then Bounds(n, n, true, false, true)
    else Bounds(0, n, false, form == POSUPTO, true)
  }

  /** `a` matches each of the characters from `i` up to `j`. */
  ghost predicate RunOf(x: Ctx, a: Atom, i: int, j: int)
    requires ValidAtom(a)
  {
    && 0 <= i <= j <= |x.subject|
    && forall k | i <= k < j :: AtomAt(x.tables, a, x.subject[k])
  }

  /** `a` matches the character at `p`, which exists. */
  predicate MatchesHere(x: Ctx, a: Atom, p: nat)
    requires ValidAtom(a)
  {
    p < |x.subject| && AtomAt(x.tables, a, x.subject[p])
  }

  /** Having matched `c` characters already, `a` may match from `i` exactly up to `j`. */
  ghost predicate RepSpan(x: Ctx, a: Atom, b: Bounds, c: nat, i: nat, j: nat)
    requires ValidAtom(a)
  {
    && RunOf(x, a, i, j)
    && b.lo <= c + j - i
    && (b.hi >= 0 ==> c + j - i <= b.hi)
    && (b.poss ==> c + j - i == b.hi || !MatchesHere(x, a, j))
  }
}
