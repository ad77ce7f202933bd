/** The 8-bit compiled form: opcodes, two-byte links (LINK_SIZE 2) and the walks over a
    bracket's chain of alternatives that every consumer of compiled code performs. */
module Bytecode {

  type Byte = n: int | 0 <= n < 256

  // Opcode values, in the order the program requires of them.
  const OP_END: Byte := 0
  const OP_SOD: Byte := 1
  const OP_SOM: Byte := 2
  const OP_NOT_WORD_BOUNDARY: Byte := 4
  const OP_WORD_BOUNDARY: Byte := 5
  const OP_NOT_DIGIT: Byte := 6
  const OP_DIGIT: Byte := 7
  const OP_NOT_WHITESPACE: Byte := 8
  const OP_WHITESPACE: Byte := 9
  const OP_NOT_WORDCHAR: Byte := 10
  const OP_WORDCHAR: Byte := 11
  const OP_ANY: Byte := 12
  const OP_ALLANY: Byte := 13
  const OP_EODN: Byte := 23
  const OP_EOD: Byte := 24
  const OP_CIRC: Byte := 25
  const OP_CIRCM: Byte := 26
  const OP_DOLL: Byte := 27
  const OP_DOLLM: Byte := 28
  const OP_CHAR: Byte := 29
  const OP_CHARI: Byte := 30
  const OP_NOT: Byte := 31
  const OP_NOTI: Byte := 32
  // Five families of thirteen single-character repeats follow, kept in step:
  // STAR MINSTAR PLUS MINPLUS QUERY MINQUERY UPTO MINUPTO EXACT POSSTAR POSPLUS POSQUERY POSUPTO
  const OP_STAR: Byte := 33
  const OP_STARI: Byte := 46
  const OP_NOTSTAR: Byte := 59
  const OP_NOTSTARI: Byte := 72
  const OP_TYPESTAR: Byte := 85
  const OP_CRSTAR: Byte := 98
  const OP_CRRANGE: Byte := 104
  const OP_CRMINRANGE: Byte := 105
  const OP_CLASS: Byte := 106
  const OP_NCLASS: Byte := 107
  const OP_ALT: Byte := 113
  const OP_KET: Byte := 114
  const OP_KETRMAX: Byte := 115
  const OP_KETRMIN: Byte := 116
  const OP_REVERSE: Byte := 118
  const OP_ASSERT: Byte := 119
  const OP_ASSERT_NOT: Byte := 120
  const OP_ASSERTBACK: Byte := 121
  const OP_ASSERTBACK_NOT: Byte := 122
  const OP_BRA: Byte := 125
  const OP_CBRA: Byte := 127
  const OP_SBRA: Byte := 130
  const OP_SCBRA: Byte := 132
  const OP_BRAZERO: Byte := 140
  const OP_BRAMINZERO: Byte := 141
  const OP_SKIPZERO: Byte := 155

  // Positions inside a family of thirteen (and, up to MINQUERY, inside the class repeats).
  const STAR := 0
  const PLUS := 2
  const QUERY := 4
  const UPTO := 6
  const EXACT := 8
  const POSSTAR := 9
  const POSPLUS := 10
  const POSQUERY := 11
  const POSUPTO := 12

  const LINK_SIZE := 2
  const IMM2_SIZE := 2
  const MAX_PATTERN_SIZE := 0x10000

  /** One code unit; reading past the end gives OP_END, so that walks are total. */
  function At(code: seq<Byte>, o: int): Byte {
    if 0 <= o < |code| then code[o] else OP_END
  }

  /** GET and GET2: a big-endian two-byte value. */
  function Get(code: seq<Byte>, o: int): nat {
    At(code, o) * 256 + At(code, o + 1)
  }

  /** PUT and PUT2: the two units stored for a value. */
  function Two(d: nat): (s: seq<Byte>)
    ensures |s| == 2
  {
    [(d / 256) % 256, d % 256]
  }

  /** `s` lies in `code` at offset `a`. */
  ghost predicate Holds(code: seq<Byte>, a: int, s: seq<Byte>) {
    0 <= a && a + |s| <= |code| && forall k {:trigger s[k]} | 0 <= k < |s| :: At(code, a + k) == s[k]
  }

  lemma HoldsAt(code: seq<Byte>, a: int, s: seq<Byte>, k: int)
    requires Holds(code, a, s) && 0 <= k < |s|
    ensures At(code, a + k) == s[k]
  {
  }

  lemma HoldsSplit(code: seq<Byte>, a: int, s: seq<Byte>, t: seq<Byte>)
    requires Holds(code, a, s + t)
    ensures Holds(code, a, s) && Holds(code, a + |s|, t)
  {
    forall k | 0 <= k < |s|
      ensures At(code, a + k) == s[k]
    {
      assert (s + t)[k] == s[k];
    }
    forall k | 0 <= k < |t|
      ensures At(code, a + |s| + k) == t[k]
    {
      assert (s + t)[|s| + k] == t[k];
    }
  }

  /** PUT keeps the lower 16 bits of a value. */
  lemma GetLow(code: seq<Byte>, a: int, d: nat)
    requires Holds(code, a, Two(d))
    ensures Get(code, a) == d % 0x10000
  {
    HoldsAt(code, a, Two(d), 0);
    HoldsAt(code, a, Two(d), 1);
  }

  /** What PUT stores, GET reads back, for every value a 16-bit link can carry. */
  lemma GetTwo(code: seq<Byte>, a: int, d: nat)
    requires Holds(code, a, Two(d)) && d < 0x10000
    ensures Get(code, a) == d
  {
    HoldsAt(code, a, Two(d), 0);
    HoldsAt(code, a, Two(d), 1);
  }

  /** Units before the first branch of a bracket: opcode and link, and the number of a capturing group. */
  function HeaderLen(op: Byte): nat {
    1 + LINK_SIZE + if op == OP_CBRA || op == OP_SCBRA then IMM2_SIZE else 0
  }

  /** Follow forward links from a bracket or an ALT to the ket that ends the bracket. */
  function ToKet(code: seq<Byte>, o: nat): nat
    decreases if o < |code| then |code| - o else 0
  {
    var n := o + Get(code, o + 1);
    if o < n < |code| && code[n] == OP_ALT then ToKet(code, n) else n
  }

  /** Find the ket of the bracket at `o` by following its links. */
  method FindKet(code: seq<Byte>, o: nat) returns (ket: nat)
    ensures ket == ToKet(code, o)
  {
    var h := o;
    while true
      invariant ToKet(code, h) == ToKet(code, o)
      decreases if h < |code| then |code| - h else 0
    {
      var n: nat := h + Get(code, h + 1);
      if !(h < n < |code| && code[n] == OP_ALT) { return n; }
      h := n;
    }
  }

  /** Offsets of the branches that start at the ALT at `o`, if there is one. */
  function AltEntries(code: seq<Byte>, o: nat): seq<nat>
    decreases if o < |code| then |code| - o else 0
  {
    if At(code, o) != OP_ALT then []
    else
      var n := o + Get(code, o + 1);
      [o + 1 + LINK_SIZE] + if o < n < |code| then AltEntries(code, n) else []
  }

  /** Offsets of the first item of every branch of the bracket at `o`. */
  function Entries(code: seq<Byte>, o: nat): seq<nat> {
    [o + HeaderLen(At(code, o))] + AltEntries(code, o + Get(code, o + 1))
  }
}
