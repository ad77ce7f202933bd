/** The table of group names: the compiler inserts each name in place, keeping the table sorted,
    and the lookup functions search it by bisection. */
module NameTable {
  import opened Bytecode

  type Name = s: seq<Byte> | forall k | 0 <= k < |s| :: s[k] != 0

  /** strcmp: negative, zero or positive. */
  function Compare(a: seq<Byte>, b: seq<Byte>): int {
    if a == [] then (if b == [] then 0 else -1)
    else if b == [] then 1
    else if a[0] != b[0] then a[0] - b[0]
    else Compare(a[1..], b[1..])
  }

  lemma {:induction false} CompareEqual(a: seq<Byte>, b: seq<Byte>)
    ensures Compare(a, b) == 0 <==> a == b
    decreases |a|
  {
    if a != [] && b != [] && a[0] == b[0] {
      CompareEqual(a[1..], b[1..]);
      assert a == [a[0]] + a[1..] && b == [b[0]] + b[1..];
    }
  }

  /** At `k` the names first differ, and there `a` ends or has the smaller unit. */
  predicate Precedes(a: seq<Byte>, b: seq<Byte>, k: nat) {
    k <= |a| && k < |b| && a[..k] == b[..k] && (k < |a| ==> a[k] < b[k])
  }

  /** The order is that of a dictionary. */
  lemma {:induction false} CompareExactly(a: seq<Byte>, b: seq<Byte>)
    ensures Compare(a, b) < 0 <==> exists k: nat :: Precedes(a, b, k)
    decreases |a|
  {
    if a == [] && b != [] {
      assert Precedes(a, b, 0);
    } else if a != [] && b != [] {
      if a[0] < b[0] {
        assert Precedes(a, b, 0);
      }
      CompareExactly(a[1..], b[1..]);
      forall k: nat | k > 0
        ensures Precedes(a, b, k) <==> a[0] == b[0] && Precedes(a[1..], b[1..], k - 1)
      {
        PrecedesLater(a, b, k);
      }
      if a[0] == b[0] && Compare(a[1..], b[1..]) < 0 {
        var k: nat :| Precedes(a[1..], b[1..], k);
        assert Precedes(a, b, k + 1);
      }
    }
  }

  lemma PrecedesLater(a: seq<Byte>, b: seq<Byte>, k: nat)
    requires a != [] && b != [] && k > 0
    ensures Precedes(a, b, k) <==> a[0] == b[0] && Precedes(a[1..], b[1..], k - 1)
  {
    if k <= |a| && k < |b| {
      assert a[..k] == [a[0]] + a[1..][..k - 1] && b[..k] == [b[0]] + b[1..][..k - 1];
      assert a[..k][0] == a[0] && b[..k][0] == b[0];
      assert a[..k][1..] == a[1..][..k - 1] && b[..k][1..] == b[1..][..k - 1];
    }
  }

  lemma {:induction false} CompareSwap(a: seq<Byte>, b: seq<Byte>)
    ensures Compare(a, b) < 0 <==> Compare(b, a) > 0
    decreases |a|
  {
    if a != [] && b != [] && a[0] == b[0] {
      CompareSwap(a[1..], b[1..]);
    }
  }

  lemma {:induction false} CompareOrder(a: seq<Byte>, b: seq<Byte>, c: seq<Byte>)
    requires Compare(a, b) <= 0 && Compare(b, c) <= 0
    ensures Compare(a, c) <= 0 && (Compare(a, b) < 0 || Compare(b, c) < 0 ==> Compare(a, c) < 0)
    decreases |a|
  {
    if a != [] && b != [] && c != [] && a[0] == b[0] == c[0] {
      CompareOrder(a[1..], b[1..], c[1..]);
    }
  }

  datatype Entry = Entry(name: Name, number: nat)

  /** A slot holds an entry: the number in two units, the name, and a zero. What follows is left
      over from other names. */
  ghost predicate SlotHolds(slot: seq<Byte>, e: Entry) {
    && |slot| >= IMM2_SIZE + |e.name| + 1 && e.number < 0x10000
    && slot[..IMM2_SIZE] == Two(e.number) && slot[IMM2_SIZE..IMM2_SIZE + |e.name|] == e.name
    && slot[IMM2_SIZE + |e.name|] == 0
  }

  ghost predicate Sorted(es: seq<Entry>) {
    forall i, j | 0 <= i < j < |es| :: Compare(es[i].name, es[j].name) <= 0
  }

  /** A name has one number, and a number has one name. */
  ghost predicate Consistent(es: seq<Entry>) {
    forall i, j | 0 <= i < |es| && 0 <= j < |es| :: es[i].name == es[j].name <==> es[i].number == es[j].number
  }

  const NO_ERROR := 0
  const ERR43 := 43   // two named subpatterns have the same name
  const ERR65 := 65   // different names for subpatterns of the same number are not allowed
  const NOSUBSTRING := -7

  /** What the program's comparison of a name with a slot amounts to. */
  method CompareSlot(name: Name, slot: seq<Byte>, ghost e: Entry) returns (crc: int)
    requires SlotHolds(slot, e) && |slot| > IMM2_SIZE + |name|
    ensures (crc < 0 <==> Compare(name, e.name) < 0) && (crc == 0 <==> name == e.name)
  {
    crc := 0;
    var k := 0;
    CompareEqual(name, e.name);
    while k < |name| && crc == 0
      invariant k <= |name| && k <= |e.name| && name[..k] == e.name[..k]
      invariant crc == 0 ==> Compare(name, e.name) == Compare(name[k..], e.name[k..])
      invariant crc != 0 ==> Compare(name, e.name) == crc || (k == |e.name| && crc > 0 && Compare(name, e.name) > 0)
      decreases |name| - k, crc == 0
    {
      SlotAt(slot, e, k);
      crc := name[k] as int - slot[IMM2_SIZE + k] as int;
      if crc == 0 {
        k := k + 1;
      }
    }
    if crc == 0 {
      SlotAt(slot, e, k);
      if slot[IMM2_SIZE + |name|] != 0 {
        crc := -1;
      }
    }
  }

  lemma SlotAt(slot: seq<Byte>, e: Entry, k: nat)
    requires SlotHolds(slot, e) && k <= |e.name|
    ensures slot[IMM2_SIZE + k] == if k < |e.name| then e.name[k] else 0
  {
    if k < |e.name| {
      assert slot[IMM2_SIZE..IMM2_SIZE + |e.name|][k] == e.name[k];
    }
  }

  function Number(slot: seq<Byte>): nat
    requires |slot| >= 2
  {
    (slot[0] as int) * 256 + slot[1]
  }

  lemma NumberHeld(slot: seq<Byte>, e: Entry)
    requires SlotHolds(slot, e)
    ensures Number(slot) == e.number
  {
    assert slot[..IMM2_SIZE][0] == Two(e.number)[0] && slot[..IMM2_SIZE][1] == Two(e.number)[1];
  }

  /** The table: slots of `entrySize` units, of which the first `found` are in use. */
  class Table {
    const slots: array<seq<Byte>>
    const entrySize: nat
    var found: nat
    ghost var entries: seq<Entry>

    /** As many slots as the pre-compile pass counted names, each large enough for the longest. */
    constructor (count: nat, size: nat)
      ensures Valid() && entries == [] && slots.Length == count && entrySize == size && fresh(slots)
    {
      slots := new seq<Byte>[count](_ => seq(size, _ => 0));
      entrySize := size;
      found := 0;
      entries := [];
    }

    ghost predicate Valid()
      reads this, slots
    {
      && found == |entries| <= slots.Length
      && (forall i | 0 <= i < slots.Length :: |slots[i]| == entrySize)
      && (forall i | 0 <= i < found :: SlotHolds(slots[i], entries[i]))
      && Sorted(entries)
    }

    /** Where the new name goes: after all names that are not later; or that it is refused. */
    method FindPlace(name: Name, number: nat, dupnames: bool) returns (error: int, k: nat, dupname: bool)
      requires Valid() && IMM2_SIZE + |name| + 1 <= entrySize
      ensures error == NO_ERROR || error == ERR43
      ensures error == ERR43 ==> !dupnames && exists i :: 0 <= i < found && entries[i].name == name && entries[i].number != number
      ensures error == NO_ERROR ==>
        && k <= found
        && (forall i | 0 <= i < k :: Compare(entries[i].name, name) <= 0)
        && (forall i | k <= i < found :: Compare(name, entries[i].name) < 0)
        && (dupname <==> exists i :: 0 <= i < found && entries[i].name == name)
        && (!dupnames ==> forall i | 0 <= i < found && entries[i].name == name :: entries[i].number == number)
    {
      error, k, dupname := NO_ERROR, 0, false;
      while k < found
        invariant k <= found
        invariant forall i | 0 <= i < k :: Compare(entries[i].name, name) <= 0
        invariant dupname <==> exists i :: 0 <= i < k && entries[i].name == name
        invariant !dupnames ==> forall i | 0 <= i < k && entries[i].name == name :: entries[i].number == number
      {
        var crc := CompareSlot(name, slots[k], entries[k]);
        CompareSwap(name, entries[k].name);
        CompareEqual(name, entries[k].name);
        if crc == 0 {
          NumberHeld(slots[k], entries[k]);
          if Number(slots[k]) != number && !dupnames {
            return ERR43, k, dupname;
          }
          dupname := true;
        }
        if crc < 0 {
          LaterNames(entries, name, k);
          return;
        }
        CompareSwap(entries[k].name, name);
        k := k + 1;
      }
    }

    /** The slots of the names from `k` on have moved up by one. */
    ghost predicate Gapped(k: nat)
      reads this, slots
    {
      && k <= found == |entries| < slots.Length
      && (forall i | 0 <= i < slots.Length :: |slots[i]| == entrySize)
      && (forall i | 0 <= i < k :: SlotHolds(slots[i], entries[i]))
      && (forall i | k < i <= found :: SlotHolds(slots[i], entries[i - 1]))
      && Sorted(entries)
    }

    /** Is the number taken by some name? The slot `k`, which is for the new one, does not count. */
    method NumberTaken(number: nat, k: nat) returns (taken: bool)
      requires Gapped(k)
      ensures taken <==> exists i :: 0 <= i < found && entries[i].number == number
    {
      taken := false;
      var i, cslot := 0, 0;
      while i < found && !taken
        invariant i <= found && cslot == i + (if cslot > k then 1 else 0)
        invariant taken <==> exists j :: 0 <= j < i && entries[j].number == number
        decreases found - i, k - cslot
      {
        if cslot != k {
          NumberHeld(slots[cslot], entries[i]);
          taken := Number(slots[cslot]) == number;
          i := i + 1;
        }
        cslot := cslot + 1;
      }
    }

    /** Enter a name for the group `number`. The slots of later names move up by one, before the number
        is checked: when it is refused then, they stay where they have been moved. */
    method Insert(name: Name, number: nat, dupnames: bool) returns (error: int, ghost at: nat)
      requires Valid() && found < slots.Length && IMM2_SIZE + |name| + 1 <= entrySize && number < 0x10000
      modifies this, slots
      ensures at <= old(found) && if error == ERR65 then Gapped(at) && found == old(found) && slots[at] == old(slots[at]) else Valid()
      ensures error == ERR43 ==> !dupnames && exists e | e in old(entries) :: e.name == name && e.number != number
      ensures error == ERR65 ==> exists e | e in old(entries) :: e.name != name && e.number == number
      ensures entries == if error == NO_ERROR then old(entries)[..at] + [Entry(name, number)] + old(entries)[at..] else old(entries)
      ensures !dupnames && old(Consistent(entries)) ==>
        && Consistent(entries)
        && (error == NO_ERROR <==> forall e | e in old(entries) :: e.name == name <==> e.number == number)
    {
      hide Compare, Sorted, SlotHolds;
      ghost var was := entries;
      var k, dupname;
      error, k, dupname := FindPlace(name, number, dupnames);
      at := k;
      if error != NO_ERROR { at := 0; return; }
      if k < found { MoveUp(k); }
      if !dupname {
        var taken := NumberTaken(number, k);
        if taken { return ERR65, at; }
      }
      Fill(k, name, number);
      InsertConsistent(was, Entry(name, number), k);
    }

    /** The new name goes into the gap. */
    method Fill(k: nat, name: Name, number: nat)
      requires Gapped(k) && IMM2_SIZE + |name| + 1 <= entrySize && number < 0x10000
      requires forall i | 0 <= i < k :: Compare(entries[i].name, name) <= 0
      requires forall i | k <= i < found :: Compare(name, entries[i].name) < 0
      modifies this, slots
      ensures Valid() && entries == old(entries)[..k] + [Entry(name, number)] + old(entries)[k..]
    {
      hide Compare, Sorted, SlotHolds;
      ghost var was := entries;
      var e := Entry(name, number);
      InsertSorted(was, e, k);
      NewSlot(slots[k], e);
      slots[k] := Written(slots[k], e);
      found := found + 1;
      entries := was[..k] + [e] + was[k..];
    }

    method MoveUp(k: nat)
      requires Valid() && k < found < slots.Length
      modifies slots
      ensures Gapped(k) && slots[k] == old(slots[k])
    {
      hide SlotHolds;
      var i := found;
      while i > k
        invariant k <= i <= found
        invariant forall j | 0 <= j < slots.Length :: |slots[j]| == entrySize
        invariant forall j | 0 <= j < i :: SlotHolds(slots[j], entries[j])
        invariant forall j | i < j <= found :: SlotHolds(slots[j], entries[j - 1])
        invariant slots[k] == old(slots[k])
      {
        slots[i] := slots[i - 1];
        i := i - 1;
      }
    }
  }

  /** A slot after the number, the name and its terminating zero have been written to it. */
  function Written(slot: seq<Byte>, e: Entry): seq<Byte>
    requires e.number < 0x10000 && |slot| >= IMM2_SIZE + |e.name| + 1
  {
    Two(e.number) + e.name + [0] + slot[IMM2_SIZE + |e.name| + 1..]
  }

  lemma NewSlot(slot: seq<Byte>, e: Entry)
    requires e.number < 0x10000 && |slot| >= IMM2_SIZE + |e.name| + 1
    ensures SlotHolds(Written(slot, e), e) && |Written(slot, e)| == |slot|
  {
    var s := Written(slot, e);
    assert s[..IMM2_SIZE] == Two(e.number) && s[IMM2_SIZE..IMM2_SIZE + |e.name|] == e.name && s[IMM2_SIZE + |e.name|] == 0;
  }

  lemma LaterNames(es: seq<Entry>, name: Name, k: nat)
    requires Sorted(es) && k < |es| && Compare(name, es[k].name) < 0
    ensures forall i | k <= i < |es| :: Compare(name, es[i].name) < 0 && es[i].name != name
  {
    forall i | k <= i < |es|
      ensures Compare(name, es[i].name) < 0 && es[i].name != name
    {
      if i > k {
        CompareOrder(name, es[k].name, es[i].name);
      }
      CompareEqual(name, es[i].name);
    }
  }

  lemma InsertSorted(es: seq<Entry>, e: Entry, k: nat)
    requires Sorted(es) && k <= |es|
    requires forall i | 0 <= i < k :: Compare(es[i].name, e.name) <= 0
    requires forall i | k <= i < |es| :: Compare(e.name, es[i].name) < 0
    ensures Sorted(es[..k] + [e] + es[k..])
  {
  }

  lemma InsertConsistent(es: seq<Entry>, e: Entry, k: nat)
    requires k <= |es|
    ensures Consistent(es) && (forall f | f in es :: f.name == e.name <==> f.number == e.number) ==>
      Consistent(es[..k] + [e] + es[k..])
  {
    var all := es[..k] + [e] + es[k..];
    forall i | 0 <= i < |all|
      ensures all[i] == e || all[i] in es
    {
    }
  }

  // ----- looking a name up -----

  /** Entries of a table that a program carries. */
  ghost predicate Holds(slots: seq<seq<Byte>>, es: seq<Entry>, size: nat) {
    && |slots| == |es| && Sorted(es)
    && forall i | 0 <= i < |es| :: SlotHolds(slots[i], es[i]) && |slots[i]| == size
  }

  /** What the compiler leaves behind is such a table. */
  lemma TableHolds(t: Table)
    requires t.Valid()
    ensures Holds(t.slots[..t.found], t.entries, t.entrySize)
  {
  }

  /** strcmp of a zero-terminated string with the name in a slot. */
  method CompareString(name: Name, slot: seq<Byte>, ghost e: Entry) returns (c: int)
    requires SlotHolds(slot, e)
    ensures (c < 0 <==> Compare(name, e.name) < 0) && (c == 0 <==> name == e.name)
  {
    var k := 0;
    CompareEqual(name, e.name);
    while true
      invariant k <= |name| && k <= |e.name| && name[..k] == e.name[..k]
      invariant Compare(name, e.name) == Compare(name[k..], e.name[k..])
      decreases |name| - k
    {
      SlotAt(slot, e, k);
      var u: int := if k < |name| then name[k] as int else 0;
      c := u - slot[IMM2_SIZE + k] as int;
      if c != 0 || u == 0 { return; }
      k := k + 1;
    }
  }

  /** pcre_get_stringnumber: a number that the name has, or that there is no such name. */
  method GetStringNumber(slots: seq<seq<Byte>>, name: Name, ghost es: seq<Entry>, ghost size: nat) returns (r: int)
    requires Holds(slots, es, size)
    ensures r == NOSUBSTRING <==> forall e | e in es :: e.name != name
    ensures r != NOSUBSTRING ==> r >= 0 && Entry(name, r) in es
    ensures Consistent(es) ==> forall e | e in es && e.name == name :: r == e.number
  {
    var bot, top := 0, |slots|;
    while top > bot
      invariant 0 <= bot <= top <= |slots|
      invariant forall i | 0 <= i < bot :: es[i].name != name
      invariant forall i | top <= i < |es| :: es[i].name != name
    {
      var mid := (top + bot) / 2;
      var c := CompareString(name, slots[mid], es[mid]);
      if c == 0 {
        NumberHeld(slots[mid], es[mid]);
        assert es[mid] == Entry(name, Number(slots[mid]));
        return Number(slots[mid]);
      }
      Halve(es, name, mid);
      if c > 0 { bot := mid + 1; } else { top := mid; }
    }
    r := NOSUBSTRING;
  }

  /** A name that differs from the middle one is on one side of it. */
  lemma Halve(es: seq<Entry>, name: Name, mid: nat)
    requires Sorted(es) && mid < |es| && name != es[mid].name
    ensures Compare(name, es[mid].name) < 0 ==> forall i | mid <= i < |es| :: es[i].name != name
    ensures Compare(name, es[mid].name) >= 0 ==> forall i | 0 <= i <= mid :: es[i].name != name
  {
    CompareEqual(name, es[mid].name);
    CompareSwap(name, es[mid].name);
    CompareSwap(es[mid].name, name);
    forall i | 0 <= i < |es| && es[i].name == name
      ensures if Compare(name, es[mid].name) < 0 then i < mid else i > mid
    {
    }
  }

  /** pcre_get_stringtable_entries: all entries of the name, first to last. */
  method GetStringTableEntries(slots: seq<seq<Byte>>, name: Name, ghost es: seq<Entry>, size: nat)
    returns (r: int, first: nat, last: nat)
    requires Holds(slots, es, size) && size > 0
    ensures r == NOSUBSTRING <==> forall e | e in es :: e.name != name
    ensures r != NOSUBSTRING ==> r == size && first <= last < |es|
    ensures r != NOSUBSTRING ==> forall i | 0 <= i < |es| :: es[i].name == name <==> first <= i <= last
  {
    var bot, top := 0, |slots|;
    first, last := 0, 0;
    while top > bot
      invariant 0 <= bot <= top <= |slots|
      invariant forall i | 0 <= i < bot :: es[i].name != name
      invariant forall i | top <= i < |es| :: es[i].name != name
    {
      var mid := (top + bot) / 2;
      var c := CompareString(name, slots[mid], es[mid]);
      if c == 0 {
        first, last := WholeRun(slots, name, mid, es, size);
        return size, first, last;
      }
      Halve(es, name, mid);
      if c > 0 { bot := mid + 1; } else { top := mid; }
    }
    r := NOSUBSTRING;
  }

  /** The run of equal names around one that was found. */
  method WholeRun(slots: seq<seq<Byte>>, name: Name, mid: nat, ghost es: seq<Entry>, ghost size: nat) returns (first: nat, last: nat)
    requires Holds(slots, es, size) && mid < |es| && es[mid].name == name
    ensures first <= last < |es| && forall i | 0 <= i < |es| :: es[i].name == name <==> first <= i <= last
  {
    first, last := mid, mid;
    while first > 0
      invariant first <= mid && forall i | first <= i <= mid :: es[i].name == name
    {
      var c := CompareString(name, slots[first - 1], es[first - 1]);
      if c != 0 {
        RunEnds(es, name, first - 1, mid);
        break;
      }
      first := first - 1;
    }
    while last < |slots| - 1
      invariant mid <= last < |slots| && forall i | mid <= i <= last :: es[i].name == name
    {
      var c := CompareString(name, slots[last + 1], es[last + 1]);
      if c != 0 {
        RunEnds(es, name, last + 1, mid);
        break;
      }
      last := last + 1;
    }
  }

  /** Beyond a different name there is no further equal one. */
  lemma RunEnds(es: seq<Entry>, name: Name, i: nat, mid: nat)
    requires Sorted(es) && i < |es| && mid < |es| && es[mid].name == name && es[i].name != name
    ensures i < mid ==> forall j | 0 <= j <= i :: es[j].name != name
    ensures i > mid ==> forall j | i <= j < |es| :: es[j].name != name
  {
    CompareEqual(name, es[i].name);
    CompareSwap(name, es[i].name);
    CompareSwap(es[i].name, name);
    forall j | 0 <= j < |es| && es[j].name == name
      ensures (i < mid ==> j > i) && (i > mid ==> j < i)
    {
    }
  }
}
