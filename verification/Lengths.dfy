/** The table of opcode lengths by which foreign code is walked, against the layout that the compiler writes:
    in 16-bit code a link or a count is one unit instead of two, and a bit map sixteen instead of thirty-two. */
module Lengths {
  import opened Bytecode
  import opened Tree
  import ByteOrder

  lemma TableSize()
    ensures |ByteOrder.LENGTHS| == 156
  {
  }

  /** The repeats of the five families. */
  lemma Families(f: nat, k: nat)
    requires f < 5 && k < 13
    ensures |ByteOrder.LENGTHS| == 156 && ByteOrder.LENGTHS[33 + 13 * f + k] == ByteOrder.Repeats()[k]
  {
    hide ByteOrder.Repeats;
    assert |ByteOrder.Repeats()| == 13 by { RepeatsSize(); }
    TableSize();
    var front := ByteOrder.Ones(15) + [3, 3] + ByteOrder.Ones(12) + [2, 2, 2, 2];
    var r := ByteOrder.Repeats();
    assert |front| == 33;
    var all := front + r + r + r + r + r;
    assert all[33 + 13 * f + k] == r[k];
    assert ByteOrder.LENGTHS[..98] == all;
  }

  lemma RepeatsSize()
    ensures |ByteOrder.Repeats()| == 13
  {
  }

  lemma AtomLength(a: Atom)
    requires ValidAtom(a)
    ensures |ByteOrder.LENGTHS| == 156
    ensures ByteOrder.LENGTHS[AtomLead(a)] == if a.Class? then 1 + (|EncAtom(a)| - 1) / 2 else |EncAtom(a)|
  {
    TableSize();
  }

  lemma RepeatLength(a: Atom, form: nat, n: nat, m: nat)
    requires ValidRep(a, form, n, m)
    ensures |ByteOrder.LENGTHS| == 156
    ensures !a.Class? ==>
      ByteOrder.LENGTHS[EncRep(a, form, n, m)[0]] == |EncRep(a, form, n, m)| - if Counted(form) then 1 else 0
    ensures a.Class? ==>
      ByteOrder.LENGTHS[OP_CRSTAR + form] == |EncClassRepeat(form, n, m)| - if form >= UPTO then 2 else 0
  {
    hide ByteOrder.LENGTHS;
    TableSize();
    if a.Class? {
      ClassRepeats(form);
    } else {
      Families(Family(a), form);
    }
  }

  lemma ClassRepeats(form: nat)
    requires form < 8
    ensures |ByteOrder.LENGTHS| == 156 && ByteOrder.LENGTHS[OP_CRSTAR + form] == if form >= UPTO then 3 else 1
  {
    TableSize();
  }

  lemma BracketLength(o: Byte)
    requires IsGroup(o) || IsLook(o) || IsKet(o) || o == OP_ALT || o == OP_REVERSE
    ensures |ByteOrder.LENGTHS| == 156
    ensures ByteOrder.LENGTHS[o] ==
      if IsGroup(o) && HeaderLen(o) == 1 + 2 * LINK_SIZE then 1 + 2 * ByteOrder.LINK_UNITS else 1 + ByteOrder.LINK_UNITS
  {
    TableSize();
  }

  lemma PlainLength(o: Byte)
    requires IsTest(o) || o == OP_BRAZERO || o == OP_BRAMINZERO || o == OP_SKIPZERO
    ensures |ByteOrder.LENGTHS| == 156 && ByteOrder.LENGTHS[o] == 1
  {
    TableSize();
  }
}
