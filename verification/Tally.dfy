/** Counting the states of a run: while the active states at one position are scanned, the lists grow
    only by what the expansion of states met for the first time adds. */
module Tally {
  import opened Bytecode
  import opened Graph
  import opened Closure
  import opened Room
  import opened Scan

  /** The slots of the states that do not wait. */
  function SlotsOf(v: seq<State>): set<Slot> {
    set k | 0 <= k < |v| && v[k].offset >= 0 :: Slot(v[k].offset, v[k].count)
  }

  /** How many states wait. */
  function Waiting(v: seq<State>): nat {
    if v == [] then 0 else (if v[0].offset < 0 then 1 else 0) + Waiting(v[1..])
  }

  /** With the first `i` active states dealt with: the active list has grown from `n0` states by the
      weight of the slots met, and of the next list all but the waiting states come from one slot
      each. No more than `d0` states wait. */
  ghost predicate Tallied(env: Env, act: seq<State>, later: seq<State>, i: nat, n0: nat, d0: nat) {
    && i <= |act|
    && |act| <= n0 + Weight(env.code, env.end, SlotsOf(act[..i]))
    && Waiting(later) + Waiting(act[i..]) <= d0
    && |later| <= Waiting(later) + |SlotsOf(act[..i])|
  }

  lemma {:induction false} WaitingAppend(v: seq<State>, w: seq<State>)
    ensures Waiting(v + w) == Waiting(v) + Waiting(w)
    decreases |v|
  {
    if v == [] {
      assert v + w == w;
    } else {
      assert (v + w)[1..] == v[1..] + w;
      WaitingAppend(v[1..], w);
    }
  }

  lemma {:induction false} NoneWaiting(v: seq<State>)
    requires forall k | 0 <= k < |v| :: v[k].offset >= 0
    ensures Waiting(v) == 0
    decreases |v|
  {
    if v != [] {
      NoneWaiting(v[1..]);
    }
  }

  lemma SlotsMore(v: seq<State>, i: nat)
    requires i < |v|
    ensures SlotsOf(v[..i + 1]) == SlotsOf(v[..i]) + if v[i].offset >= 0 then {Slot(v[i].offset, v[i].count)} else {}
  {
    var u, w := v[..i], v[..i + 1];
    forall x | x in SlotsOf(w)
      ensures x in SlotsOf(u) || (v[i].offset >= 0 && x == Slot(v[i].offset, v[i].count))
    {
      var k :| 0 <= k < |w| && w[k].offset >= 0 && x == Slot(w[k].offset, w[k].count);
      if k < i { assert u[k] == w[k]; }
    }
    forall x | x in SlotsOf(u)
      ensures x in SlotsOf(w)
    {
      var k :| 0 <= k < |u| && u[k].offset >= 0 && x == Slot(u[k].offset, u[k].count);
      assert w[k] == u[k];
    }
    if v[i].offset >= 0 { assert w[i] == v[i]; }
  }

  lemma WaitingFrom(act: seq<State>, i: nat)
    requires i < |act|
    ensures Waiting(act[i..]) == (if act[i].offset < 0 then 1 else 0) + Waiting(act[i + 1..])
  {
    assert act[i..][1..] == act[i + 1..];
  }

  lemma TallyStart(env: Env, act: seq<State>, d0: nat)
    requires Waiting(act) <= d0
    ensures Tallied(env, act, [], 0, |act|, d0)
  {
    assert act[0..] == act && act[..0] == [] && SlotsOf([]) == {};
  }

  /** A waiting state is carried over. */
  lemma TallySkip(env: Env, act: seq<State>, later: seq<State>, i: nat, n0: nat, d0: nat, st: State)
    requires Tallied(env, act, later, i, n0, d0) && i < |act| && act[i].offset < 0 && st.offset < 0
    ensures Tallied(env, act, later + [st], i + 1, n0, d0)
    ensures |later| + 1 <= d0 + |SlotsOf(act[..i])|
  {
    SlotsMore(act, i);
    WaitingFrom(act, i);
    WaitingAppend(later, [st]);
    assert Waiting([st]) == 1 && SlotsOf(act[..i + 1]) == SlotsOf(act[..i]);
  }

  lemma TallyWake(env: Env, act: seq<State>, later: seq<State>, i: nat, n0: nat, d0: nat, st: State)
    requires Tallied(env, act, later, i, n0, d0) && i < |act| && act[i].offset < 0 && st.offset >= 0
    ensures Tallied(env, act[i := st], later, i, n0, d0)
  {
    var b := act[i := st];
    WaitingFrom(act, i);
    WaitingFrom(b, i);
    assert b[..i] == act[..i] && b[i + 1..] == act[i + 1..];
  }

  lemma TallyDuplicate(env: Env, act: seq<State>, later: seq<State>, i: nat, n0: nat, d0: nat, j: nat)
    requires Tallied(env, act, later, i, n0, d0) && j < i < |act| && act[i].offset >= 0
    requires act[j].offset == act[i].offset && act[j].count == act[i].count
    ensures Tallied(env, act, later, i + 1, n0, d0)
  {
    SlotsMore(act, i);
    WaitingFrom(act, i);
    assert act[..i][j] == act[j];
    assert SlotsOf(act[..i + 1]) == SlotsOf(act[..i]);
  }

  /** A slot met for the first time: the lists have grown by no more than it may add. */
  lemma TallyOn(env: Env, act: seq<State>, later: seq<State>, i: nat, n0: nat, d0: nat, a: seq<Node>, f: seq<Node>)
    requires Tallied(env, act, later, i, n0, d0) && i < |act| && act[i].offset >= 0
    requires forall k | 0 <= k < i :: act[k].offset != act[i].offset || act[k].count != act[i].count
    requires |a| <= (if act[i].offset == env.end then 0 else OutDegree(env.code, act[i].offset)) && |f| <= 1
    ensures Tallied(env, act + ToStates(a), later + ToStates(f), i + 1, n0, d0)
  {
    hide OutDegree, Weight, Waiting, SlotsOf;
    var b, x := act + ToStates(a), Slot(act[i].offset, act[i].count);
    NewSlot(act, i);
    WeightAdd(env.code, env.end, SlotsOf(act[..i]), x);
    SlotsMore(act, i);
    WaitingFrom(act, i);
    assert b[..i + 1] == act[..i + 1] && b[i + 1..] == act[i + 1..] + ToStates(a);
    WaitingAppend(act[i + 1..], ToStates(a));
    WaitingAppend(later, ToStates(f));
    NoneWaiting(ToStates(a));
    NoneWaiting(ToStates(f));
  }

  lemma NewSlot(act: seq<State>, i: nat)
    requires i < |act| && act[i].offset >= 0
    requires forall k | 0 <= k < i :: act[k].offset != act[i].offset || act[k].count != act[i].count
    ensures Slot(act[i].offset, act[i].count) !in SlotsOf(act[..i])
  {
  }

  /** States in order have slots of the run. */
  lemma SlotsInside(env: Env, area: Area, v: seq<State>, p: nat)
    requires Sane(v) && Proper(env, area, NodesOf(v, p)) && p <= |env.ctx.subject|
    ensures SlotsOf(v) <= RunSlots(env, area)
  {
    var b := area.base + |env.ctx.subject|;
    forall x | x in SlotsOf(v)
      ensures x in RunSlots(env, area)
    {
      var k :| 0 <= k < |v| && v[k].offset >= 0 && x == Slot(v[k].offset, v[k].count);
      NodeAt(v, k, p);
      CountsGrow(env.code, x.off, area.base + p, b);
      if x.off != env.end {
        var y := Place(x.off, env.depth, env.end);
        assert y in area.places && x == Slot(y.off, x.cnt);
      }
    }
  }

  /** What is met at `i` still has room, in vectors large enough for the run. */
  lemma RoomHere(env: Env, area: Area, act: seq<State>, later: seq<State>, i: nat, p: nat, n0: nat, d0: nat)
    requires Tallied(env, act, later, i, n0, d0) && i < |act| && act[i].offset >= 0
    requires Sane(act) && Proper(env, area, NodesOf(act, p)) && p <= |env.ctx.subject|
    requires forall k | 0 <= k < i :: act[k].offset != act[i].offset || act[k].count != act[i].count
    requires n0 <= d0 + |RunSlots(env, area)|
    ensures act[i].offset != env.end ==> |act| + OutDegree(env.code, act[i].offset) <= d0 + RunRoom(env, area)
    ensures |later| + 1 <= d0 + RunRoom(env, area)
  {
    hide OutDegree, RunRoom, RunSlots;
    var s, x := SlotsOf(act[..i]), Slot(act[i].offset, act[i].count);
    NewSlot(act, i);
    SlotsMore(act, i);
    SlotsPrefix(act, i + 1);
    SlotsInside(env, area, act, p);
    WeightAdd(env.code, env.end, s, x);
    Fits(env, area, s + {x});
  }

  lemma SlotsPrefix(v: seq<State>, i: nat)
    requires i <= |v|
    ensures SlotsOf(v[..i]) <= SlotsOf(v)
  {
    forall x | x in SlotsOf(v[..i])
      ensures x in SlotsOf(v)
    {
      var k :| 0 <= k < i && v[..i][k].offset >= 0 && x == Slot(v[..i][k].offset, v[..i][k].count);
      assert v[k] == v[..i][k];
    }
  }

  /** A waiting state that is carried over has room, too. */
  lemma RoomToWait(env: Env, area: Area, act: seq<State>, later: seq<State>, i: nat, p: nat, n0: nat, d0: nat)
    requires Tallied(env, act, later, i, n0, d0) && i < |act| && act[i].offset < 0
    requires Sane(act) && Proper(env, area, NodesOf(act, p)) && p <= |env.ctx.subject|
    ensures |later| + 1 <= d0 + RunRoom(env, area)
  {
    hide OutDegree, RunRoom, RunSlots;
    SlotsPrefix(act, i);
    SlotsInside(env, area, act, p);
    Fits(env, area, SlotsOf(act[..i]));
    TallySkip(env, act, later, i, n0, d0, act[i]);
  }

  /** The next list is no longer than the waiting states and the slots. */
  lemma TallyEnd(env: Env, area: Area, act: seq<State>, later: seq<State>, p: nat, n0: nat, d0: nat)
    requires Tallied(env, act, later, |act|, n0, d0)
    requires Sane(act) && Proper(env, area, NodesOf(act, p)) && p <= |env.ctx.subject|
    ensures Waiting(later) <= d0 && |later| <= d0 + |RunSlots(env, area)|
  {
    hide RunSlots;
    assert act[..|act|] == act;
    SlotsInside(env, area, act, p);
    Fits(env, area, SlotsOf(act));
  }

  /** An expansion adds no more than the opcode's degree to this list, and one state to the next. */
  lemma DegreeBound(env: Env, n: Node)
    requires n.off != env.end
    ensures |Act(env, n)| <= OutDegree(env.code, n.off) && |Fresh(env.code, env.ctx, n)| <= 1
  {
    hide Decode, Entries, LookHolds;
  }

  lemma {:induction false} WaitingFew(v: seq<State>)
    ensures Waiting(v) <= |v|
    decreases |v|
  {
    if v != [] {
      WaitingFew(v[1..]);
    }
  }

  /** The vectors hold `cap` states, which is enough for a run that began with `d0` states and has
      come to a position with `n0`. */
  ghost predicate Roomed(env: Env, area: Area, n0: nat, d0: nat, cap: nat) {
    n0 <= d0 + |RunSlots(env, area)| && d0 + RunRoom(env, area) <= cap
  }
}
