/** The state-set matcher: the two state vectors held in the caller's workspace, the scan of
    the active states at one subject character, and the run over the subject. */
module Matcher {
  import opened Bytecode
  import opened Tree
  import opened Subject
  import opened Graph
  import opened Closure
  import opened Room
  import opened Scan

  const NOMATCH := -1
  const PARTIAL := -12
  const WSSIZE := -19

  /** Match options that matter to a whole run only. */
  datatype Options = Options(shortest: bool, partialSoft: bool, restart: bool)

  /** A vector of states, filled from the front. */
  class StateVector {
    const items: array<State>
    var count: nat

    constructor (capacity: nat)
      ensures Valid() && View() == [] && items.Length == capacity && fresh(items)
    {
      items := new State[capacity](_ => State(0, 0, 0));
      count := 0;
    }

    ghost predicate Valid()
      reads this
    {
      count <= items.Length
    }

    ghost function View(): seq<State>
      requires Valid()
      reads this, items
    {
      items[..count]
    }

    ghost predicate Full()
      reads this
    {
      count == items.Length
    }

    method Add(st: State) returns (ok: bool)
      requires Valid()
      modifies this`count, items
      ensures Valid() && (ok <==> !old(Full()))
      ensures View() == if ok then old(View()) + [st] else old(View())
    {
      ok := count < items.Length;
      if ok {
        items[count] := st;
        count := count + 1;
      }
    }

    method RemoveLast()
      requires Valid() && count > 0
      modifies this`count
      ensures Valid() && View() == old(View())[..old(count) - 1]
    {
      count := count - 1;
    }

    method Clear()
      modifies this`count
      ensures Valid() && View() == []
    {
      count := 0;
    }

    method Replace(i: nat, st: State)
      requires Valid() && i < count
      modifies items
      ensures View() == old(View())[i := st]
    {
      items[i] := st;
    }

    /** Keep only the first `n` states. */
    method Truncate(n: nat)
      requires Valid() && n <= count
      modifies this`count
      ensures Valid() && View() == old(View())[..n]
    {
      count := n;
    }

    /** Copy the first `n` states of another vector. */
    method CopyFrom(other: StateVector, n: nat)
      requires Valid() && other.Valid() && other != this && other.items != items
      requires n <= other.count && n <= items.Length
      modifies this`count, items
      ensures Valid() && View() == old(other.View())[..n]
    {
      for k := 0 to n
        invariant items[..k] == other.items[..k]
      {
        items[k] := other.items[k];
      }
      count := n;
    }
  }

  /** The caller's workspace: two vectors, which of them is current, and how many states it
      held when the last character was begun. */
  class Workspace {
    const first: StateVector
    const second: StateVector
    var which: int
    var saved: nat

    constructor (wscount: int)
      requires wscount >= 20
      ensures Valid() && first.items.Length == Capacity(wscount)
      ensures fresh(first) && fresh(first.items) && fresh(second) && fresh(second.items)
    {
      first := new StateVector(Capacity(wscount));
      second := new StateVector(Capacity(wscount));
      which, saved := 0, 0;
    }

    ghost predicate Valid()
      reads this, first, second
    {
      && first.Valid() && second.Valid()
      && first != second && first.items != second.items
      && first.items.Length == second.items.Length
    }

    /** The vector that the next character's states are in. */
    function Next(): StateVector
      reads this
    {
      if which == 0 then second else first
    }

    /** The other one. */
    function Other(): StateVector
      reads this
    {
      if which == 0 then first else second
    }

    /** Make the new list the active one, and empty the other. */
    method Turn()
      requires Valid()
      modifies this`which, this`saved, first`count, second`count
      ensures Valid() && Next() == old(Other()) && Other() == old(Next())
      ensures Next().View() == [] && Other().View() == old(Next().View()) && saved == Other().count
      ensures which == 0 || which == 1
    {
      Other().Clear();
      which := if which == 0 then 1 else 0;
      saved := Other().count;
    }

    /** The saved states are there. */
    ghost predicate Full()
      reads this, first, second
    {
      first.Full() || second.Full()
    }

    ghost predicate Holding()
      reads this, first, second
    {
      Valid() && saved <= Other().count
    }

    /** What a restart asks of the workspace: the list is one of the two, and not empty. */
    predicate Restartable()
      reads this
    {
      (which == 0 || which == 1) && saved >= 1
    }

    /** The states at which the last character was begun. */
    ghost function Saved(): seq<State>
      requires Holding()
      reads this, first, second, first.items, second.items
    {
      Other().View()[..saved]
    }
  }

  /** The part of the match block that changes: the earliest character looked at. */
  class MatchBlock {
    var startUsed: nat

    constructor (p: nat)
      ensures startUsed == p
    {
      startUsed := p;
    }
  }

  /** Opcodes that look at a character, as against a position. */
  predicate Inspects(ins: Instr) {
    match ins
    case IOne(_, _) => true
    case IRep(_, _, _, _, _) => true
    case ITest(op, _) => op == OP_WORD_BOUNDARY || op == OP_NOT_WORD_BOUNDARY
    case _ => false
  }

  /** Under hard partial matching, tests for the end of the subject wait for more of it. */
  predicate Awaits(x: Ctx, op: Byte, p: nat) {
    x.partialHard && p == |x.subject|
    && (op == OP_EOD || op == OP_EODN || ((op == OP_DOLL || op == OP_DOLLM) && !x.notEol))
  }

  /** A single character, caseless ones by way of the lower-casing table. */
  method SingleAt(x: Ctx, a: Atom, p: nat) returns (r: bool)
    requires ValidAtom(a)
    ensures r <==> MatchesHere(x, a, p)
  {
    if p >= |x.subject| {
      return false;
    }
    var c := x.subject[p];
    match a
    case Lit(d, nocase) => r := if nocase then x.tables.lower[c] == x.tables.lower[d] else c == d;
    case _ => r := AtomAt(x.tables, a, c);
  }

  // ----- recording matches -----

  function Min(a: nat, b: nat): nat { if a < b then a else b }

  /** What is returned after the ends `ends` were recorded with room for `cap` pairs. */
  function MatchCount(ends: seq<nat>, cap: nat): int {
    if ends == [] then NOMATCH else if |ends| <= cap then |ends| else 0
  }

  /** The vector holds the latest of the recorded ends that fit, longest first. */
  ghost predicate OffsetsHold(offsets: seq<int>, start: nat, ends: seq<nat>) {
    forall t | 0 <= t < Min(|ends|, |offsets| / 2) ::
      offsets[2 * t] == start && offsets[2 * t + 1] == ends[|ends| - 1 - t]
  }

  method Record(offsets: array<int>, count: int, start: nat, p: nat, ghost ends: seq<nat>) returns (r: int)
    requires count == MatchCount(ends, offsets.Length / 2) && OffsetsHold(offsets[..], start, ends)
    modifies offsets
    ensures r == MatchCount(ends + [p], offsets.Length / 2) && OffsetsHold(offsets[..], start, ends + [p])
  {
    var room := offsets.Length - offsets.Length % 2;
    r := count;
    if r < 0 {
      r := if room >= 2 then 1 else 0;
    } else if r > 0 {
      r := r + 1;
      if r * 2 > room {
        r := 0;
      }
    }
    var n := (if r == 0 then room else r * 2) - 2;
    if n > 0 {
      forall k | 0 <= k < n {
        offsets[k + 2] := offsets[k];
      }
    }
    if room >= 2 {
      offsets[0] := start;
      offsets[1] := p;
    }
    ghost var all := ends + [p];
    forall t | 0 <= t < Min(|all|, offsets.Length / 2)
      ensures offsets[2 * t] == start && offsets[2 * t + 1] == all[|all| - 1 - t]
    {
      if t > 0 {
        assert old(offsets[..])[2 * (t - 1)] == start;
        assert 2 * t - 2 < n;
      }
    }
  }

  /** The ends recorded by a run: all that can be recorded, or with `shortest` only the least. */
  ghost predicate Recorded(env: Env, starts: seq<Node>, o: Options, start: nat, ends: seq<nat>) {
    if o.shortest && ends != [] then
      && |ends| == 1 && Finishes(env, starts, ends[0]) && Recordable(env.ctx, start, ends[0])
      && forall j: nat | j < ends[0] && Finishes(env, starts, j) :: !Recordable(env.ctx, start, j)
    else
      forall j: nat :: j in ends <==> Finishes(env, starts, j) && Recordable(env.ctx, start, j)
  }

  predicate Increasing(ends: seq<nat>) {
    forall a, b | 0 <= a < b < |ends| :: ends[a] < ends[b]
  }
}
