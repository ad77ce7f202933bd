/** Bringing compiled 16-bit code of the other byte order into this machine's: the walk over the
    opcodes swaps every unit except the bit maps of classes, in place. */
module ByteOrder {

  type Word = u: int | 0 <= u < 0x10000

  // 16-bit code has one-unit links and counts.
  const LINK_UNITS := 1
  const MAP_UNITS := 16
  const XCL_MAP := 2
  const END: Word := 0
  const CLASS: Word := 106
  const NCLASS: Word := 107
  const XCLASS: Word := 108

  // Opcodes whose code is longer than the table says: type repeats of a Unicode property, and the
  // verbs with an argument.
  const NOTPROP: Word := 15
  const PROP: Word := 16
  const TYPESTAR: Word := 85
  const TYPEPOSUPTO: Word := 97
  const MARK: Word := 143
  const PRUNE_ARG: Word := 145
  const SKIP_ARG: Word := 147
  const THEN_ARG: Word := 149

  /** The table of opcode lengths, in 16-bit units. */
  const LENGTHS: seq<nat> :=
    Ones(15) + [3, 3] + Ones(12) + [2, 2, 2, 2]
    + Repeats() + Repeats() + Repeats() + Repeats() + Repeats()
    + Ones(6) + [3, 3] + [17, 17, 0]
    + [2, 2, 2, 4]
    + [2, 2, 2, 2, 2, 2, 2, 2, 2, 2, 2, 2, 2, 2, 3, 3, 2, 2, 2, 3, 3, 2]
    + [2, 2, 2, 2] + Ones(4)
    + [3, 1, 3, 1, 3, 1, 3] + Ones(4) + [2, 1]

  function Ones(n: nat): seq<nat> { seq(n, _ => 1) }

  /** The thirteen repeats of a family. */
  function Repeats(): seq<nat> { [2, 2, 2, 2, 2, 2, 3, 3, 3, 2, 2, 2, 3] }

  /** swap_uint16. */
  function Swap(u: Word): Word { (u % 256) * 256 + u / 256 }

  lemma SwapTwice(u: Word)
    ensures Swap(Swap(u)) == u
  {
    var lo, hi := u % 256, u / 256;
    assert (lo * 256 + hi) % 256 == hi && (lo * 256 + hi) / 256 == lo;
  }

  function SwapAll(s: seq<Word>): (r: seq<Word>)
    ensures |r| == |s|
  {
    seq(|s|, i requires 0 <= i < |s| => Swap(s[i]))
  }

  /** One item of the code. An extended class carries its length, its flags, and its bit map if
      the flags say so. */
  datatype Item =
    | Plain(op: Word, args: seq<Word>)
    | Bits(op: Word, bits: seq<Word>)
    | Extended(flags: Word, bits: seq<Word>, rest: seq<Word>)
    | Stop

  predicate HasMap(flags: Word) { (flags / XCL_MAP) % 2 == 1 }

  predicate ValidItem(x: Item) {
    match x
    case Plain(op, args) =>
      op < |LENGTHS| && op != END && op != CLASS && op != NCLASS && op != XCLASS && |args| + 1 == LENGTHS[op] &&
      op !in {MARK, PRUNE_ARG, SKIP_ARG, THEN_ARG} &&
      (TYPESTAR <= op <= TYPEPOSUPTO ==> args[|args| - 1] !in {NOTPROP, PROP})
    case Bits(op, bits) => (op == CLASS || op == NCLASS) && |bits| == MAP_UNITS
    case Extended(flags, bits, rest) =>
      |bits| == (if HasMap(flags) then MAP_UNITS else 0) && 2 + LINK_UNITS + |bits| + |rest| < 0x10000
    case Stop => true
  }

  /** The units that come before the bit map. */
  function Head(x: Item): seq<Word>
    requires ValidItem(x)
  {
    match x
    case Plain(op, _) => [op]
    case Bits(op, _) => [op]
    case Stop => [END]
    case Extended(flags, bits, rest) => [XCLASS, 2 + LINK_UNITS + |bits| + |rest|, flags]
  }

  function Map(x: Item): seq<Word> { if x.Bits? || x.Extended? then x.bits else [] }

  /** The units that come after it. */
  function Args(x: Item): seq<Word> { if x.Plain? then x.args else if x.Extended? then x.rest else [] }

  /** The units of an item on the machine that runs the walk. */
  function Units(x: Item): seq<Word>
    requires ValidItem(x)
  {
    Head(x) + Map(x) + Args(x)
  }

  /** The same item as it comes from the other machine: bit maps are bytes and do not change. */
  function Foreign(x: Item): seq<Word>
    requires ValidItem(x)
  {
    SwapAll(Head(x)) + Map(x) + SwapAll(Args(x))
  }

  ghost predicate ValidItems(xs: seq<Item>) { forall x | x in xs :: ValidItem(x) && x != Stop }

  ghost function Next(xs: seq<Item>): (x: Item) { if xs == [] then Stop else xs[0] }

  ghost function AllUnits(xs: seq<Item>): seq<Word>
    requires ValidItems(xs)
  {
    Units(Next(xs)) + if xs == [] then [] else AllUnits(xs[1..])
  }

  ghost function AllForeign(xs: seq<Item>): seq<Word>
    requires ValidItems(xs)
  {
    Foreign(Next(xs)) + if xs == [] then [] else AllForeign(xs[1..])
  }

  /** Swap `n` units in place. */
  method SwapUnits(buf: array<Word>, ptr0: nat, n: nat) returns (ptr: nat)
    requires ptr0 + n <= buf.Length
    modifies buf
    ensures ptr == ptr0 + n && buf[..] == old(buf[..ptr0]) + SwapAll(old(buf[ptr0..ptr])) + old(buf[ptr..])
  {
    ptr := ptr0;
    while ptr < ptr0 + n
      invariant ptr0 <= ptr <= ptr0 + n
      invariant forall i | 0 <= i < buf.Length :: buf[i] == if ptr0 <= i < ptr then Swap(old(buf[i])) else old(buf[i])
    {
      buf[ptr] := Swap(buf[ptr]);
      ptr := ptr + 1;
    }
  }

  lemma SwapAllTwice(s: seq<Word>)
    ensures SwapAll(SwapAll(s)) == s
  {
    forall i | 0 <= i < |s|
      ensures Swap(Swap(s[i])) == s[i]
    {
      SwapTwice(s[i]);
    }
  }

  /** Where the walk stands: `done` is right already, the `length` units `args` are still to be
      swapped, and then come the items `xs` and whatever follows the code. */
  ghost predicate Halfway(buf: seq<Word>, ptr: nat, done: seq<Word>, args: seq<Word>, xs: seq<Item>, tail: seq<Word>) {
    ValidItems(xs) && ptr == |done| && buf == done + SwapAll(args) + (AllForeign(xs) + tail)
  }

  /** The items after the next one, and what follows the code. */
  ghost function More(xs: seq<Item>, tail: seq<Word>): seq<Word>
    requires ValidItems(xs)
  {
    (if xs == [] then [] else AllForeign(xs[1..])) + tail
  }

  lemma Swapped(was: seq<Word>, now: seq<Word>, ptr: nat, done: seq<Word>, args: seq<Word>, xs: seq<Item>, tail: seq<Word>)
    requires Halfway(was, ptr, done, args, xs, tail)
    requires (var m := ptr + |args|; now == was[..ptr] + SwapAll(was[ptr..m]) + was[m..])
    ensures ValidItem(Next(xs)) && (Next(xs) == Stop <==> xs == [])
    ensures now == (done + args) + Foreign(Next(xs)) + More(xs, tail)
  {
    hide SwapAll, Foreign, Head, Map, Args;
    var m, rest := ptr + |args|, AllForeign(xs) + tail;
    assert was[..ptr] == done && was[ptr..m] == SwapAll(args) && was[m..] == rest;
    SwapAllTwice(args);
    if xs != [] { assert xs[0] in xs; }
    assert rest == Foreign(Next(xs)) + More(xs, tail);
  }

  lemma Stopped(buf: seq<Word>, done: seq<Word>, tail: seq<Word>)
    requires buf == done + (Head(Stop) + Map(Stop)) + SwapAll(Args(Stop)) + More([], tail)
    ensures |Head(Stop) + Map(Stop)| == 1 && |AllUnits([])| == 1 && buf == done + AllUnits([]) + tail
  {
  }

  lemma Moved(buf: seq<Word>, done: seq<Word>, xs: seq<Item>, tail: seq<Word>, all: seq<Word>)
    requires ValidItems(xs) && xs != [] && ValidItem(xs[0])
    requires (var x := xs[0]; buf == done + (Head(x) + Map(x)) + SwapAll(Args(x)) + More(xs, tail))
    requires done + AllUnits(xs) == all
    ensures (var x, now := xs[0], done + (Head(xs[0]) + Map(xs[0]));
             Halfway(buf, |now|, now, Args(x), xs[1..], tail) && now + Args(x) + AllUnits(xs[1..]) == all)
  {
    hide Head, Map, Args, SwapAll, AllUnits, AllForeign, ValidItem;
    Unfold(xs);
  }

  lemma Unfold(xs: seq<Item>)
    requires ValidItems(xs) && xs != [] && ValidItem(xs[0])
    ensures AllUnits(xs) == Head(xs[0]) + Map(xs[0]) + Args(xs[0]) + AllUnits(xs[1..])
  {
  }

  /** The switch over the opcodes: it deals with an item up to its bit map. */
  method Opcode(buf: array<Word>, ptr0: nat, ghost x: Item, ghost done: seq<Word>, ghost more: seq<Word>)
    returns (ptr: nat, length: nat, stop: bool)
    requires ValidItem(x) && ptr0 == |done| && buf[..] == done + Foreign(x) + more
    modifies buf
    ensures ptr == ptr0 + |Head(x) + Map(x)| && length == |Args(x)| && (stop <==> x.Stop?)
    ensures buf[..] == done + (Head(x) + Map(x)) + SwapAll(Args(x)) + more
  {
    hide LENGTHS, SwapAll, Swap;
    ghost var was := buf[..];
    HeadUnits(was, done, x, more);
    ptr, length := ptr0, 0;
    buf[ptr] := Swap(buf[ptr]);
    stop := buf[ptr] == END;
    if !stop {
      if buf[ptr] == CLASS || buf[ptr] == NCLASS {
        ptr := ptr + MAP_UNITS;
      } else if buf[ptr] == XCLASS {
        ptr := ptr + 1;
        buf[ptr] := Swap(buf[ptr]);
        ptr := ptr + 1;
        length := buf[ptr - 1] - (1 + LINK_UNITS + 1);
        buf[ptr] := Swap(buf[ptr]);
        if HasMap(buf[ptr]) {
          ptr := ptr + MAP_UNITS;
          length := length - MAP_UNITS;
        }
      } else {
        length := LENGTHS[buf[ptr]] - 1;
      }
    }
    ptr := ptr + 1;
    Settled(was, buf[..], done, x, more);
  }

  lemma HeadUnits(was: seq<Word>, done: seq<Word>, x: Item, more: seq<Word>)
    requires ValidItem(x) && was == done + Foreign(x) + more
    ensures |was| >= |done| + |Head(x)| + |Map(x)| && Swap(was[|done|]) == Head(x)[0]
    ensures x.Extended? ==> Swap(was[|done| + 1]) == Head(x)[1] && Swap(was[|done| + 2]) == Head(x)[2]
  {
    hide Swap;
    forall i | 0 <= i < |Head(x)|
      ensures Swap(was[|done| + i]) == Head(x)[i]
    {
      assert was[|done| + i] == SwapAll(Head(x))[i];
      SwapTwice(Head(x)[i]);
    }
    assert Swap(was[|done| + 0]) == Head(x)[0];
    if x.Extended? { assert Swap(was[|done| + 1]) == Head(x)[1] && Swap(was[|done| + 2]) == Head(x)[2]; }
  }

  lemma Settled(was: seq<Word>, now: seq<Word>, done: seq<Word>, x: Item, more: seq<Word>)
    requires ValidItem(x) && was == done + Foreign(x) + more && |now| == |was|
    requires forall i | 0 <= i < |Head(x)| :: now[|done| + i] == Head(x)[i]
    requires forall i | 0 <= i < |was| && !(|done| <= i < |done| + |Head(x)|) :: now[i] == was[i]
    ensures now == done + (Head(x) + Map(x)) + SwapAll(Args(x)) + more
  {
    hide Head, Map, Args;
    var rest := Map(x) + SwapAll(Args(x)) + more;
    assert was == done + SwapAll(Head(x)) + rest;
    forall i | 0 <= i < |now|
      ensures now[i] == (done + Head(x) + rest)[i]
    {
      if |done| <= i < |done| + |Head(x)| { assert now[|done| + (i - |done|)] == Head(x)[i - |done|]; }
    }
    assert now == done + Head(x) + rest;
  }

  /** The walk over a name table of `names` units and the code after it. On return everything is in
      this machine's order, and the walk has stopped at the end of the code. */
  method ToHostOrder(buf: array<Word>, names: nat, ghost table: seq<Word>, ghost items: seq<Item>, ghost tail: seq<Word>)
    returns (stop: nat)
    requires |table| == names && ValidItems(items) && buf[..] == SwapAll(table) + AllForeign(items) + tail
    modifies buf
    ensures buf[..] == table + AllUnits(items) + tail && stop + 1 == |table| + |AllUnits(items)|
  {
    hide ValidItem, Head, Map, Args, AllUnits, AllForeign, LENGTHS, SwapAll, Foreign, More, Units;
    var ptr, length := 0, names;
    ghost var done: seq<Word>, args, xs := [], table, items;
    assert done + args == table;
    assert done + SwapAll(table) == SwapAll(table);
    assert SwapAll(table) + AllForeign(items) + tail == SwapAll(table) + (AllForeign(items) + tail);
    while true
      invariant Halfway(buf[..], ptr, done, args, xs, tail) && length == |args|
      invariant done + args + AllUnits(xs) == table + AllUnits(items)
      decreases |xs|
    {
      ghost var was, x := buf[..], Next(xs);
      ptr := SwapUnits(buf, ptr, length);
      Swapped(was, buf[..], |done|, done, args, xs, tail);
      done := done + args;
      var end;
      ptr, length, end := Opcode(buf, ptr, x, done, More(xs, tail));
      if end {
        Stopped(buf[..], done, tail);
        return ptr - 1;
      }
      Moved(buf[..], done, xs, tail, table + AllUnits(items));
      done, args, xs := done + (Head(x) + Map(x)), Args(x), xs[1..];
    }
  }
}
