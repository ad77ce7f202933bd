/** How much room a run needs: the states that can be met at one position are finitely many, each
    is expanded at most once, and each expansion adds a known number of states. */
module Room {
  import opened Bytecode
  import opened Tree
  import opened Subject
  import opened Graph
  import opened Closure

  /** The places of a run; and how many characters had been passed before its subject began. */
  datatype Area = Area(places: set<Place>, base: nat)

  /** What the duplicate check compares. */
  datatype Slot = Slot(off: nat, cnt: nat)

  /** How many different counts a repeat can have reached after `b` characters. */
  function RepCounts(d: Bounds, b: nat): (r: nat)
    ensures r > 0
  {
    if !d.keep then 1 else if 0 <= d.hi <= b then Max(1, d.hi) else b + 1
  }

  function Counts(code: seq<Byte>, off: nat, b: nat): (r: nat)
    ensures r > 0
  {
    match Decode(code, off)
    case IRep(a, form, n, m, _) => RepCounts(RepBounds(a, form, n, m), b)
    case _ => 1
  }

  lemma CountsGrow(code: seq<Byte>, off: nat, b: nat, c: nat)
    requires b <= c
    ensures Counts(code, off, b) <= Counts(code, off, c)
  {
    hide Decode;
  }

  /** How many states the opcode adds to the list that is being scanned, at most. */
  function OutDegree(code: seq<Byte>, off: nat): nat {
    match Decode(code, off)
    case IKet(_, loop, _) => if loop then 2 else 1
    case IBra => |Entries(code, off)|
    case IZero(_, _) => 2
    case IOne(_, _) => 0
    case Bad => 0
    case _ => 1
  }

  /** The slots that a run which ends at `e` can meet after `b` characters, with `d` levels of
      assertion left. */
  ghost function Slots(code: seq<Byte>, places: set<Place>, d: nat, e: nat, b: nat): set<Slot> {
    set x, c | x in places && x.depth == d && x.end == e && 0 <= c < Counts(code, x.off, b) :: Slot(x.off, c)
  }

  /** The states that one expansion each of the slots adds. The end of the run adds none. */
  ghost function Weight(code: seq<Byte>, e: nat, s: set<Slot>): nat
    decreases |s|
  {
    if s == {} then 0 else
      var x :| x in s;
      (if x.off == e then 0 else OutDegree(code, x.off)) + Weight(code, e, s - {x})
  }

  lemma {:induction false} WeightAdd(code: seq<Byte>, e: nat, s: set<Slot>, x: Slot)
    requires x !in s
    ensures Weight(code, e, s + {x}) == Weight(code, e, s) + if x.off == e then 0 else OutDegree(code, x.off)
    decreases |s|
  {
    hide OutDegree;
    var t := s + {x};
    var y :| y in t && Weight(code, e, t) == (if y.off == e then 0 else OutDegree(code, y.off)) + Weight(code, e, t - {y});
    if y == x {
      assert t - {y} == s;
    } else {
      var r := s - {y};
      assert t - {y} == r + {x} && s == r + {y};
      WeightAdd(code, e, r, x);
      WeightAdd(code, e, r, y);
    }
  }

  lemma {:induction false} WeightWithin(code: seq<Byte>, e: nat, s: set<Slot>, t: set<Slot>)
    requires s <= t
    ensures Weight(code, e, s) <= Weight(code, e, t) && |s| <= |t|
    decreases |t - s|
  {
    hide OutDegree;
    if s != t {
      var x :| x in t && x !in s;
      WeightAdd(code, e, s, x);
      WeightWithin(code, e, s + {x}, t);
    }
  }

  /** Room for all slots and for what they add, besides the states that a run starts with. */
  ghost function Needed(code: seq<Byte>, places: set<Place>, d: nat, e: nat, b: nat): nat {
    var s := Slots(code, places, d, e, b);
    1 + |s| + Weight(code, e, s)
  }

  // ----- one run, and the runs of the assertions in it -----

  /** The slots of a run over the whole subject, and its end. */
  ghost function RunSlots(env: Env, area: Area): set<Slot> {
    Slots(env.code, area.places, env.depth, env.end, area.base + |env.ctx.subject|) + {Slot(env.end, 0)}
  }

  ghost function RunRoom(env: Env, area: Area): nat {
    Needed(env.code, area.places, env.depth, env.end, area.base + |env.ctx.subject|)
  }

  /** Slots that a run can meet have room. */
  lemma Fits(env: Env, area: Area, s: set<Slot>)
    requires s <= RunSlots(env, area)
    ensures |s| <= |RunSlots(env, area)| && Weight(env.code, env.end, s) <= RunRoom(env, area) - |RunSlots(env, area)|
  {
    hide OutDegree, Slots;
    var all, end := Slots(env.code, area.places, env.depth, env.end, area.base + |env.ctx.subject|), Slot(env.end, 0);
    WeightWithin(env.code, env.end, s, RunSlots(env, area));
    if end in all {
      assert RunSlots(env, area) == all;
    } else {
      WeightAdd(env.code, env.end, all, end);
    }
  }

  /** How many states fit into one vector when the workspace has `wscount` ints. */
  function Capacity(wscount: int): nat
    requires wscount >= 20
  {
    ((wscount - 2) - (wscount - 2) % 6) / 6
  }

  /** The workspace of an assertion's run: 1000 ints. */
  const LOOK_WORKSPACE := 1000

  /** Room for the run of the assertion at place `x`: a start for each branch, and the slots. */
  ghost function LookRoom(code: seq<Byte>, places: set<Place>, x: Place, b: nat): nat
    requires x.depth > 0
  {
    |Entries(code, x.off)| + Needed(code, places, x.depth - 1, ToKet(code, x.off), b)
  }

  /** Every assertion's run has room in its own workspace. */
  ghost predicate Roomy(code: seq<Byte>, places: set<Place>, b: nat) {
    forall x | x in places && Decode(code, x.off).ILook? && x.depth > 0 ::
      LookRoom(code, places, x, b) <= Capacity(LOOK_WORKSPACE)
  }

  /** No assertion's run can be short of room. */
  ghost predicate Quiet(env: Env, area: Area) {
    env.depth == 0 || Roomy(env.code, area.places, area.base + |env.ctx.subject|)
  }
}
