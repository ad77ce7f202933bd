/** The external matching function: it tries one start after another, skipping starts that the
    program's start optimisations rule out, and its result is that of trying them all. */
module DfaExec {
  import opened Bytecode
  import opened Tree
  import opened Subject
  import opened Semantics
  import opened Graph
  import opened Layout
  import Correctness
  import opened Closure
  import opened Room
  import opened Load
  import opened Scan
  import opened Matcher
  import opened DfaRun
  import opened Pattern
  import opened Expansion
  import opened Possession
  import opened Preservation
  import opened Refinement
  import opened Lookahead
  import opened Asserted
  import opened FirstReq
  import opened Required
  import opened Beyond
  import opened Anchoring
  import opened Program
  import opened Inspection
  import opened Absence
  import Growth
  import Unseen
  import Restart
  import Compiler
  import Estimate

  const BADOFFSET := -24
  const BADRESTART := -30
  const REQ_BYTE_MAX := 1000

  /** Options of one call, besides those in `Options`: no start optimisations, anchored, and the
      match confined to the first line. */
  datatype Flags = Flags(noStartOptimize: bool, anchored: bool, firstline: bool)

  /** A start that the options allow. */
  ghost predicate Admissible(x: Ctx, f: Flags, s0: nat, s: nat) {
    && s0 <= s <= |x.subject| && (f.anchored ==> s == s0)
    && (f.firstline ==> forall m | s0 <= m < s :: x.subject[m] != NEWLINE)
  }

  /** Some match from `s` can be recorded. */
  ghost predicate Hit(x: Ctx, p: PAlts, s: nat)
    requires ValidPAlts(p)
  {
    exists j: nat :: MPAlts(x, p, s, j) && Recordable(x, s, j)
  }

  /** A run from `s` is to be suspended: some path could use more of the subject. */
  ghost predicate Halts(x: Ctx, p: PAlts, o: Options, s: nat)
    requires ValidPAlts(p) && InScope(x.tables, p)
  {
    && s < |x.subject| && (x.partialHard || (o.partialSoft && !Hit(x, p, s)))
    && Wanting(EnvOf(x, p), Starts(CodeOf(x.tables, p), 0, s))
  }

  /** A run from `s` leads to nothing. */
  ghost predicate Idle(x: Ctx, p: PAlts, o: Options, s: nat)
    requires ValidPAlts(p) && InScope(x.tables, p)
  {
    !Hit(x, p, s) && !Halts(x, p, o, s)
  }

  /** No allowed start before `s` gives a match or is to be suspended. */
  ghost predicate NoneBefore(x: Ctx, p: PAlts, o: Options, f: Flags, s0: nat, s: nat)
    requires ValidPAlts(p) && InScope(x.tables, p)
  {
    forall q: nat | q < s && Admissible(x, f, s0, q) :: Idle(x, p, o, q)
  }

  /** Nor does any. */
  ghost predicate NoneAtAll(x: Ctx, p: PAlts, o: Options, f: Flags, s0: nat)
    requires ValidPAlts(p) && InScope(x.tables, p)
  {
    forall q: nat | Admissible(x, f, s0, q) :: Idle(x, p, o, q)
  }

  lemma HitIntro(x: Ctx, p: PAlts, s: nat, j: nat)
    requires ValidPAlts(p) && MPAlts(x, p, s, j) && Recordable(x, s, j)
    ensures Hit(x, p, s)
  {
  }

  lemma HitElim(x: Ctx, p: PAlts, s: nat) returns (j: nat)
    requires ValidPAlts(p) && Hit(x, p, s)
    ensures MPAlts(x, p, s, j) && Recordable(x, s, j)
  {
    j :| MPAlts(x, p, s, j) && Recordable(x, s, j);
  }

  /** The start optimisations that this call uses are right for the pattern, because its lookaheads
      spoil none of them and an asserted first character is right. The last clause is needed only if the search for the required character
      begins behind the first one. */
  ghost predicate Justified(re: Regex, x: Ctx, p: PAlts, o: Options, f: Flags)
    requires ValidPAlts(p)
  {
    var al := TreeOf(x.tables, p);
    && ValidAlts(al)
    && (re.anchored ==> Steady(x.tables, al, false))
    && (!f.noStartOptimize && !f.anchored && re.startline ==> Steady(x.tables, al, true))
    && (!f.noStartOptimize && !f.anchored && !re.anchored && re.first.Char? ==> Rightly(x.tables, p))
    && (!f.noStartOptimize && !f.anchored && !re.anchored && !x.partialHard && !o.partialSoft && re.req.Char? && re.first.Char? ==>
          Follows(x.tables, p))
  }

  /** A hit at `s` shows the first and the required character of the program. */
  lemma HitExplained(re: Regex, x: Ctx, p: PAlts, s: nat)
    requires BuiltFrom(re, x.tables, p) && ValidPAlts(p) && Undisturbed(x, p) && s <= |x.subject| && Hit(x, p, s)
    ensures re.first.Char? && Rightly(x.tables, p) ==> s < |x.subject| && CharIs(x.tables, re.first, x.subject[s])
    ensures re.req.Char? ==> Found(x, re.req, s, |x.subject|)
    ensures re.req.Char? && re.first.Char? && Rightly(x.tables, p) && Follows(x.tables, p) ==> Found(x, re.req, s + 1, |x.subject|)
  {
    hide InScope, CodeOf, AltsStart, MPAlts, Found, FirstOf, Follows, Undisturbed, Rightly;
    var j := HitElim(x, p, s);
    AltsSound(x, p, false, s, j, Anywhere);
    if re.first.Char? && Rightly(x.tables, p) {
      FirstSound(x, p, s, j);
      if re.req.Char? && Follows(x.tables, p) {
        FollowsFound(x, p, s, j);
      }
    }
  }

  /** An anchored program that does not match from the start offset matches nowhere. */
  lemma AnchoredHit(re: Regex, x: Ctx, p: PAlts, s0: nat, s: nat)
    requires BuiltFrom(re, x.tables, p) && ValidPAlts(p) && Undisturbed(x, p) && re.anchored
    requires ValidAlts(TreeOf(x.tables, p)) && Steady(x.tables, TreeOf(x.tables, p), false)
    requires x.som == s0 <= s <= |x.subject| && Hit(x, p, s)
    ensures Hit(x, p, s0)
  {
    hide CodeOf, MPAlts, MAlts, AnchoredAlts, Steady, AltsStart, TreeOf;
    var j := HitElim(x, p, s);
    Preserve(x, p, s, j);
    AnchoredSound(x, TreeOf(x.tables, p), s0, s, j);
    Preserve(x, p, s0, j);
    SpanPAlts(x, p, s, j);
    HitIntro(x, p, s0, j);
  }

  /** A program for line starts that matches from `s` also matches from the start of that line. */
  lemma StartlineHit(re: Regex, x: Ctx, p: PAlts, s0: nat, s: nat)
    requires BuiltFrom(re, x.tables, p) && ValidPAlts(p) && Undisturbed(x, p) && re.startline
    requires ValidAlts(TreeOf(x.tables, p)) && Steady(x.tables, TreeOf(x.tables, p), true)
    requires s0 <= s <= |x.subject| && Hit(x, p, s)
    ensures Hit(x, p, LineStart(x.subject, s0, s))
  {
    hide CodeOf, MPAlts, MAlts, StartlineAlts, Steady, AltsStart, TreeOf;
    var j := HitElim(x, p, s);
    var l := LineStart(x.subject, s0, s);
    Preserve(x, p, s, j);
    StartlineSound(x, TreeOf(x.tables, p), s0, s, j);
    Preserve(x, p, l, j);
    SpanPAlts(x, p, s, j);
    HitIntro(x, p, l, j);
  }

  /** Advance to a character that can be the first one, but not past `end`. */
  method SkipToFirst(t: CharTables, subject: seq<Byte>, first: Req, start: nat, end: nat) returns (current: nat)
    requires first.Char? && start <= end <= |subject|
    ensures start <= current <= end && (current < end ==> CharIs(t, first, subject[current]))
    ensures forall m | start <= m < current :: !CharIs(t, first, subject[m])
  {
    var firstChar := first.ch;
    var firstChar2 := if first.caseless then t.flip[firstChar] else firstChar;
    OtherCase(t, firstChar);
    current := start;
    if firstChar != firstChar2 {
      while current < end && subject[current] != firstChar && subject[current] != firstChar2
        invariant start <= current <= end
        invariant forall m | start <= m < current :: !CharIs(t, first, subject[m])
      {
        OtherCase(t, subject[current]);
        current := current + 1;
      }
    } else {
      while current < end && subject[current] != firstChar
        invariant start <= current <= end
        invariant forall m | start <= m < current :: !CharIs(t, first, subject[m])
      {
        current := current + 1;
      }
    }
  }

  lemma OtherCase(t: CharTables, c: Byte)
    ensures t.lower[t.flip[c]] == t.lower[c]
  {
    assert t.lower[c] == t.lower[t.flip[c]];
  }

  predicate AfterNewline(subject: seq<Byte>, m: int) { IsNewline(subject, m - 1) }

  /** Advance to just after a newline. */
  method SkipToLine(subject: seq<Byte>, start: nat, end: nat) returns (current: nat)
    requires start <= end <= |subject|
    ensures start <= current <= end
    ensures forall m | start <= m < current :: !AfterNewline(subject, m)
  {
    current := start;
    while current < end && !AfterNewline(subject, current)
      invariant start <= current <= end
      invariant forall m | start <= m < current :: !AfterNewline(subject, m)
    {
      current := current + 1;
    }
  }

  /** Look for the required character. */
  method FindRequired(t: CharTables, subject: seq<Byte>, req: Req, start: nat) returns (p: nat)
    requires req.Char? && start <= |subject| + 1
    ensures start <= p && forall m | start <= m < p && m < |subject| :: !CharIs(t, req, subject[m])
  {
    var reqChar := req.ch;
    var reqChar2 := if req.caseless then t.flip[reqChar] else reqChar;
    p := start;
    while p < |subject| && subject[p] != reqChar && subject[p] != reqChar2
      invariant start <= p
      invariant forall m | start <= m < p && m < |subject| :: !CharIs(t, req, subject[m])
    {
      p := p + 1;
    }
  }

  /** The end of the line at `start`. */
  method LineEnd(subject: seq<Byte>, start: nat) returns (t: nat)
    requires start <= |subject|
    ensures start <= t <= |subject| && forall m | start <= m < t :: subject[m] != NEWLINE
  {
    t := start;
    while t < |subject| && !IsNewline(subject, t)
      invariant start <= t <= |subject| && forall m | start <= m < t :: subject[m] != NEWLINE
    {
      t := t + 1;
    }
  }

  /** The start optimisations at one place of the loop: where the next attempt is to be made. */
  method Advance(re: Regex, x: Ctx, f: Flags, s0: nat, start: nat, ghost p: PAlts, ghost o: Options)
    returns (current: nat)
    requires s0 <= start <= |x.subject| && (f.anchored || re.anchored ==> start == s0)
    requires BuiltFrom(re, x.tables, p) && ValidPAlts(p)
    ensures start <= current <= |x.subject|
    ensures f.anchored ==> current == start
    ensures f.firstline ==> forall m | start <= m < current :: x.subject[m] != NEWLINE
    ensures Undisturbed(x, p) && Justified(re, x, p, o, f) && NoneBefore(x, p, o, f, s0, start) ==> NoneBefore(x, p, o, f, s0, current)
    ensures re.anchored ==> current == start
  {
    hide Hit, Halts, InScope, CodeOf, AltsStart, TreeOf, Steady, Follows, Rightly, LineStart, CharIs;
    current := start;
    if f.anchored || re.anchored || f.noStartOptimize { return; }
    var end := |x.subject|;
    if f.firstline {
      end := LineEnd(x.subject, start);
    }
    if re.first.Char? {
      current := SkipToFirst(x.tables, x.subject, re.first, start, end);
    } else if re.startline && start > s0 {
      current := SkipToLine(x.subject, start, end);
    }
    if Undisturbed(x, p) && Justified(re, x, p, o, f) && NoneBefore(x, p, o, f, s0, start) {
      forall q: nat | q < current && Admissible(x, f, s0, q)
        ensures Idle(x, p, o, q)
      {
        if q >= start {
          if re.first.Char? {
            SkippedFirst(re, x, p, o, q);
          } else {
            LineAdmissible(x, f, s0, q);
            SkippedLine(re, x, p, o, f, s0, q, start);
          }
        }
      }
    }
  }

  /** A start without the first character leads to nothing. */
  lemma SkippedFirst(re: Regex, x: Ctx, p: PAlts, o: Options, q: nat)
    requires BuiltFrom(re, x.tables, p) && ValidPAlts(p) && Undisturbed(x, p) && re.first.Char? && Rightly(x.tables, p)
    requires q < |x.subject| && !CharIs(x.tables, re.first, x.subject[q])
    ensures Idle(x, p, o, q)
  {
    hide Hit, InScope, CodeOf, EnvOf, AltsStart, TreeOf, Wanting, Rightly, FirstOf;
    if Hit(x, p, q) {
      HitExplained(re, x, p, q);
    }
    WantFirst(x, p, q);
  }

  /** Nor does a start inside a line, if the start of that line does not. */
  lemma SkippedLine(re: Regex, x: Ctx, p: PAlts, o: Options, f: Flags, s0: nat, q: nat, start: nat)
    requires BuiltFrom(re, x.tables, p) && ValidPAlts(p) && Undisturbed(x, p) && re.startline
    requires ValidAlts(TreeOf(x.tables, p)) && Steady(x.tables, TreeOf(x.tables, p), true)
    requires s0 <= start <= q < |x.subject| && NoneBefore(x, p, o, f, s0, start)
    requires var l := LineStart(x.subject, s0, q); l < start && Admissible(x, f, s0, l)
    ensures Idle(x, p, o, q)
  {
    hide Hit, InScope, CodeOf, EnvOf, AltsStart, TreeOf, Wanting, Steady, LineStart, StartlineAlts, Starts;
    var l := LineStart(x.subject, s0, q);
    assert Idle(x, p, o, l);
    if Hit(x, p, q) {
      StartlineHit(re, x, p, s0, q);
    }
    if Wanting(EnvOf(x, p), Starts(CodeOf(x.tables, p), 0, q)) {
      EarlierLine(x, s0, q);
      WantEarlier(x, p, s0, l, q, true);
    }
  }

  lemma EarlierLine(x: Ctx, s0: nat, q: nat)
    requires s0 <= q <= |x.subject| && LineStart(x.subject, s0, q) < q
    ensures Earlier(x, s0, LineStart(x.subject, s0, q), q, true)
  {
    hide LineStart;
  }

  lemma LineAdmissible(x: Ctx, f: Flags, s0: nat, q: nat)
    requires Admissible(x, f, s0, q) && !f.anchored
    ensures var l := LineStart(x.subject, s0, q); Admissible(x, f, s0, l) && (l == s0 || AfterNewline(x.subject, l))
  {
  }

  /** The required character is looked for only in short subjects; `seen` is where it was found last. */
  method Missing(re: Regex, x: Ctx, current: nat, seen0: int, hasFirst: bool) returns (missing: bool, seen: int)
    requires current <= |x.subject|
    ensures missing ==> re.req.Char? && !Found(x, re.req, if hasFirst then current + 1 else current, |x.subject|)
  {
    missing, seen := false, seen0;
    if re.req.Char? && |x.subject| - current < REQ_BYTE_MAX {
      var p := current + if hasFirst then 1 else 0;
      if p > seen {
        p := FindRequired(x.tables, x.subject, re.req, p);
        if p >= |x.subject| { return true, seen; }
        seen := p;
      }
    }
  }

  /** Without its required character in what is left, the program matches from no later start. */
  lemma MissingMeans(re: Regex, x: Ctx, p: PAlts, o: Options, f: Flags, s0: nat, current: nat, hasFirst: bool,
                     ends: seq<nat>, offsets: seq<int>)
    requires BuiltFrom(re, x.tables, p) && ValidPAlts(p) && Undisturbed(x, p) && Justified(re, x, p, o, f) && current <= |x.subject|
    requires !f.noStartOptimize && !x.partialHard && !o.partialSoft && (hasFirst <==> !f.anchored && !re.anchored && re.first.Char?)
    requires re.req.Char? && !Found(x, re.req, if hasFirst then current + 1 else current, |x.subject|)
    requires NoneBefore(x, p, o, f, s0, current)
    ensures NoneAtAll(x, p, o, f, s0) && Result(x, p, o, f, s0, NOMATCH, current, ends, offsets)
  {
    hide Hit, InScope, CodeOf, EnvOf, AltsStart, TreeOf, Found, Follows, Rightly, Undisturbed, Wanting;
    forall q: nat | Admissible(x, f, s0, q)
      ensures Idle(x, p, o, q)
    {
      if q >= current && Hit(x, p, q) {
        HitExplained(re, x, p, q);
        FoundLater(x, re.req, if hasFirst then q + 1 else q, |x.subject|,
                   if hasFirst then current + 1 else current, |x.subject|);
      }
    }
  }

  /** A suspended attempt from `s` reports the earliest position that it inspected, and the end of the subject. */
  ghost predicate Reports(x: Ctx, p: PAlts, s: nat, offsets: seq<int>)
    requires ValidPAlts(p) && InScope(x.tables, p)
  {
    |offsets| >= 2 ==>
      && offsets[1] == |x.subject| && 0 <= offsets[0]
      && Inspected(EnvOf(x, p), Starts(CodeOf(x.tables, p), 0, s), s, false, s, offsets[0])
  }

  /** What the result of an exact call means: no start that is allowed gives a match or is to be suspended; or
      the first one that is either was found, with the ends of its matches. */
  ghost predicate Result(x: Ctx, p: PAlts, o: Options, f: Flags, s0: nat, rc: int, s: nat, ends: seq<nat>, offsets: seq<int>)
    requires ValidPAlts(p) && InScope(x.tables, p)
  {
    if rc == NOMATCH then NoneAtAll(x, p, o, f, s0)
    else
      && Admissible(x, f, s0, s) && NoneBefore(x, p, o, f, s0, s) && EndsOf(x, p, o, s, ends) && Increasing(ends)
      && if rc == PARTIAL then
           && (x.partialHard || (o.partialSoft && !Hit(x, p, s)))
           && Wanting(EnvOf(x, p), Starts(CodeOf(x.tables, p), 0, s)) && Reports(x, p, s, offsets)
         else Hit(x, p, s) && rc == MatchCount(ends, |offsets| / 2) && OffsetsHold(offsets, s, ends)
  }

  lemma ReportsIntro(x: Ctx, p: PAlts, s: nat, offsets: seq<int>, u: nat)
    requires ValidPAlts(p) && InScope(x.tables, p) && (|offsets| >= 2 ==> offsets[0] == u && offsets[1] == |x.subject|)
    requires Inspected(EnvOf(x, p), Starts(CodeOf(x.tables, p), 0, s), s, false, s, u)
    ensures Reports(x, p, s, offsets)
  {
    hide InScope, Inspected, EnvOf, Starts, CodeOf;
  }

  lemma EndsHit(x: Ctx, p: PAlts, o: Options, s: nat, ends: seq<nat>)
    requires ValidPAlts(p) && EndsOf(x, p, o, s, ends)
    ensures ends != [] <==> Hit(x, p, s)
  {
    hide MPAlts;
    if ends != [] {
      assert ends[0] in ends;
      HitIntro(x, p, s, ends[0]);
    } else if Hit(x, p, s) {
      var j := HitElim(x, p, s);
    }
  }

  /** Nothing at or before `s`: on to the next start. */
  lemma NextStart(x: Ctx, p: PAlts, o: Options, f: Flags, s0: nat, s: nat)
    requires ValidPAlts(p) && InScope(x.tables, p) && NoneBefore(x, p, o, f, s0, s) && Idle(x, p, o, s)
    ensures NoneBefore(x, p, o, f, s0, s + 1)
    ensures s0 <= s && (s == |x.subject| || f.anchored || (f.firstline && IsNewline(x.subject, s))) ==> NoneAtAll(x, p, o, f, s0)
  {
    hide Idle, InScope;
  }

  /** Anchored programs: one failure is enough. */
  lemma AnchoredNone(re: Regex, x: Ctx, p: PAlts, o: Options, f: Flags, s0: nat)
    requires BuiltFrom(re, x.tables, p) && ValidPAlts(p) && Undisturbed(x, p) && re.anchored && x.som == s0
    requires ValidAlts(TreeOf(x.tables, p)) && Steady(x.tables, TreeOf(x.tables, p), false) && Idle(x, p, o, s0)
    ensures NoneAtAll(x, p, o, f, s0)
  {
    hide Hit, InScope, CodeOf, EnvOf, AltsStart, TreeOf, Steady, Wanting, AnchoredAlts, Starts;
    forall q: nat | Admissible(x, f, s0, q)
      ensures Idle(x, p, o, q)
    {
      if Hit(x, p, q) {
        AnchoredHit(re, x, p, s0, q);
      }
      if q > s0 && q < |x.subject| && Wanting(EnvOf(x, p), Starts(CodeOf(x.tables, p), 0, q)) {
        WantEarlier(x, p, s0, s0, q, false);
      }
    }
  }

  /** What a call that ends with the attempt at `s` says of suspension: it was asked for, and the workspace
      holds all that is needed to go on; and it is reported exactly if some path could use more. */
  ghost predicate Stops(x: Ctx, p: PAlts, o: Options, s: nat, rc: int, ends: seq<nat>, starts: seq<Node>, clean: bool, ws: Workspace)
    requires ws.Valid() && ValidPAlts(p) && InScope(x.tables, p)
    reads ws, ws.first, ws.second, ws.first.items, ws.second.items
  {
    var env, from := EnvOf(x, p), Starts(CodeOf(x.tables, p), 0, s);
    && (rc == PARTIAL ==> (x.partialHard || o.partialSoft) && ws.Holding() && ws.Restartable() && Sane(ws.Saved()))
    && (rc == PARTIAL && clean ==> Resumable(env, starts, ws.Saved()) && starts == from)
    && ((rc >= 0 || rc == PARTIAL) && clean && !(o.shortest && ends != []) && s < |x.subject| ==>
          (rc == PARTIAL <==> Suspends(env, from, o, ends)))
  }

  /** What a call that ends with the attempt at `s` says of matches beyond the end of the subject: if it was suspended,
      a live pattern has one when the right text follows; if it found matches although the hard option was
      given, a pattern without assertions and without multiline ^ and $ has none whatever follows. */
  ghost predicate Foretold(x: Ctx, p: PAlts, o: Options, s: nat, rc: int, ends: seq<nat>)
    requires ValidPAlts(p) && InScope(x.tables, p)
  {
    && (rc == PARTIAL && s < |x.subject| && Growth.Live(x.tables, p) ==> Growth.Grows(x, p, s))
    && (rc >= 0 && x.partialHard && !(o.shortest && ends != []) && s < |x.subject| && Unassuming(x.tables, p) ==> !Growth.Grows(x, p, s))
  }

  ghost predicate Unassuming(t: CharTables, p: PAlts)
    requires InScope(t, p)
  {
    Without(TreeOf(t, p), Growth.OPENING) && DepthOf(t, p) == 0
  }

  lemma Foretell(x: Ctx, p: PAlts, o: Options, s: nat, rc: int, ends: seq<nat>, starts: seq<Node>, ws: Workspace)
    requires ws.Valid() && ValidPAlts(p) && InScope(x.tables, p) && |CodeOf(x.tables, p)| <= MAX_PATTERN_SIZE && s <= |x.subject|
    requires Stops(x, p, o, s, rc, ends, starts, true, ws) && (rc == PARTIAL ==> !(o.shortest && ends != []))
    ensures Foretold(x, p, o, s, rc, ends)
  {
    hide InScope, CodeOf, EnvOf, TreeOf, Starts, Wanting, Growth.Live, Growth.Grows, Without, DepthOf, Resumable;
    SameContext(x, p);
    if rc == PARTIAL && s < |x.subject| && Growth.Live(x.tables, p) {
      Growth.WantingGrows(x, p, s);
    }
    if rc >= 0 && Unassuming(x.tables, p) && Growth.Grows(x, p, s) {
      Growth.GrowsWanting(x, p, s);
    }
  }

  /** A call with the hard option that finds nothing loses nothing whatever follows: no start of the subject would
      give a match beyond its end. */
  lemma NeverGrows(x: Ctx, p: PAlts, o: Options, f: Flags, s0: nat, s: nat, ends: seq<nat>, offsets: seq<int>, q: nat)
    requires ValidPAlts(p) && InScope(x.tables, p) && |CodeOf(x.tables, p)| <= MAX_PATTERN_SIZE && Unassuming(x.tables, p) && x.partialHard
    requires Result(x, p, o, f, s0, NOMATCH, s, ends, offsets) && Admissible(x, f, s0, q) && q < |x.subject|
    ensures !Growth.Grows(x, p, q)
  {
    hide InScope, CodeOf, EnvOf, TreeOf, Starts, Wanting, Growth.Grows, Without, DepthOf, Hit;
    assert Idle(x, p, o, q);
    if Growth.Grows(x, p, q) {
      Growth.GrowsWanting(x, p, q);
    }
  }

  /** Of a suspended call's subject only what begins at the reported position matters: with any other one
      that is the same from there on, the pattern matches the same from the same start, and that attempt is
      suspended alike; unless a multiline ^ depends on the character just before it. */
  lemma ReportedMatters(x: Ctx, y: Ctx, p: PAlts, o: Options, f: Flags, s0: nat, s: nat, ends: seq<nat>, offsets: seq<int>, j: nat)
    requires ValidPAlts(p) && InScope(x.tables, p) && |CodeOf(x.tables, p)| <= MAX_PATTERN_SIZE && Undisturbed(x, p)
    requires Result(x, p, o, f, s0, PARTIAL, s, ends, offsets) && |offsets| >= 2 && Unseen.Agrees(x, y, offsets[0])
    requires Without(TreeOf(x.tables, p), Unseen.LINES)
             || Unseen.LinesGuarded(EnvOf(x, p), Starts(CodeOf(x.tables, p), 0, s), offsets[0])
    ensures MPAlts(y, p, s, j) <==> MPAlts(x, p, s, j)
    ensures Wanting(EnvOf(y, p), Starts(CodeOf(x.tables, p), 0, s))
  {
    hide InScope, CodeOf, EnvOf, TreeOf, Starts, Wanting, Undisturbed, AllConfined, Without, Unseen.LinesGuarded, MPAlts;
    Unseen.SameMatches(x, y, p, s, offsets[0], j);
  }

  lemma StopsNot(x: Ctx, p: PAlts, o: Options, s: nat, rc: int, ends: seq<nat>, starts: seq<Node>, clean: bool, ws: Workspace)
    requires ws.Valid() && ValidPAlts(p) && InScope(x.tables, p) && (rc == NOMATCH || rc == BADOFFSET)
    ensures Stops(x, p, o, s, rc, ends, starts, clean, ws) && Foretold(x, p, o, s, rc, ends)
  {
  }

  /** One call of the matcher at `current` on the whole program. */
  method Attempt(re: Regex, x: Ctx, o: Options, current: nat, offsets: array<int>, ws: Workspace, ghost p: PAlts)
    returns (rc: int, ghost ends: seq<nat>, ghost starts: seq<Node>, ghost clean: bool)
    requires BuiltFrom(re, x.tables, p) && ValidPAlts(p) && current <= |x.subject| && ws.Valid() && !o.restart
    modifies offsets, ws`which, ws`saved, ws.first`count, ws.first.items, ws.second`count, ws.second.items
    ensures ws.Valid() && (Modest(TreeOf(x.tables, p), |x.subject|) ==> clean)
    ensures ws.first.items.Length >= Demand(TreeOf(x.tables, p), |x.subject|) ==> rc != WSSIZE
    ensures rc != BADOFFSET && (rc != WSSIZE ==> Increasing(ends))
    ensures rc != WSSIZE && rc != PARTIAL ==>
      rc == MatchCount(ends, offsets.Length / 2) && OffsetsHold(offsets[..], current, ends)
    ensures rc != WSSIZE && clean && Undisturbed(x, p) ==> Tried(x, p, o, current, rc, ends, offsets[..])
    ensures starts == Starts(re.code, 0, current) && Stops(x, p, o, current, rc, ends, starts, clean, ws)
    ensures rc == PARTIAL ==> !(o.shortest && ends != [])
    ensures rc != WSSIZE && clean && !(o.shortest && ends != []) && current < |x.subject| ==>
      (rc == PARTIAL <==> Suspends(EnvOf(x, p), starts, o, ends))
    ensures rc == WSSIZE ==> ws.Full()
  {
    hide InScope, CodeOf, AltsStart, TreeOf, EndsOf, OffsetsHold, Increasing, Sealed, Startable, Starts, Decode, Resumable, DepthOf, EnvOf, Wanting,
      Undisturbed, Modest, Branches, AltsSlots, AltsAdds, RunRoom, Quiet, Hit, Inspected, RunFrom, Begun, Reports, HeaderLen;
    CompiledSealed(x, p, false, 0);
    CompiledRoom(x, p, 0, current);
    ghost var area := Area(PlacesOf(x.tables, p), 0);
    NoReverseAtStart(x, p);
    BeginsHere(re.code, current);
    EnvIs(x, p);
    var md := new MatchBlock(current);
    ghost var start;
    rc, ends, starts, start, clean := InternalDfaExec(md, re.code, 0, current, x, o, offsets, ws, 1, DepthOf(x.tables, p), area, false);
    if rc != WSSIZE && clean && Undisturbed(x, p) {
      RecordedExactly(x, p, o, current, ends);
    }
    if rc == PARTIAL && clean {
      ReportsIntro(x, p, current, offsets[..], md.startUsed);
    }
  }

  lemma BeginsHere(code: seq<Byte>, p: nat)
    requires At(code, 0 + HeaderLen(At(code, 0))) != OP_REVERSE
    ensures RunFrom(code, 0, p) == p && Begun(code, 0, p, p) == p
  {
  }

  lemma EnvIs(x: Ctx, p: PAlts)
    requires InScope(x.tables, p)
    ensures ValidPAlts(p)
    ensures EnvOf(x, p) == Env(CodeOf(x.tables, p), x, ToKet(CodeOf(x.tables, p), 0), DepthOf(x.tables, p))
  {
    hide CodeOf, DepthOf;
  }

  /** The external call, not restarting: it finds the first start that matches, or that there is none,
      if the lookaheads of the pattern spoil neither the start optimisations in force nor, with an
      option that refuses empty matches, the assertions, and no assertion was short of room. */
  method Exec(re: Regex, x: Ctx, o: Options, f: Flags, s0: nat, offsets: array<int>, ws: Workspace, ghost p: PAlts)
    returns (rc: int, ghost s: nat, ghost ends: seq<nat>, ghost starts: seq<Node>, ghost clean: bool)
    requires BuiltFrom(re, x.tables, p) && ValidPAlts(p) && x.som == s0 && ws.Valid() && !o.restart
    modifies offsets, ws`which, ws`saved, ws.first`count, ws.first.items, ws.second`count, ws.second.items
    ensures ws.Valid() && (Modest(TreeOf(x.tables, p), |x.subject|) ==> clean)
    ensures ws.first.items.Length >= Demand(TreeOf(x.tables, p), |x.subject|) ==> rc != WSSIZE
    ensures s0 > |x.subject| <==> rc == BADOFFSET
    ensures Stops(x, p, o, s, rc, ends, starts, clean, ws) && (clean ==> Foretold(x, p, o, s, rc, ends))
    ensures Undisturbed(x, p) && Justified(re, x, p, o, f) && clean && rc != WSSIZE && rc != BADOFFSET ==>
      Result(x, p, o, f, s0, rc, s, ends, offsets[..])
    ensures rc == WSSIZE ==> ws.Full()
  {
    hide InScope, CodeOf, AltsStart, TreeOf, Found, NoneBefore, NoneAtAll, Tried, Result, Starts, Resumable, EnvOf, Suspends, Foretold,
      OffsetsHold, Increasing, MatchCount, Sane, Stops, Justified, BuiltFrom, Undisturbed, Modest, Demand;
    s, ends, starts, clean := s0, [], [], true;
    BuiltScope(re, x.tables, p);
    if s0 > |x.subject| {
      StopsNot(x, p, o, s, BADOFFSET, ends, starts, clean, ws);
      return BADOFFSET, s, ends, starts, clean;
    }
    var anchored := f.anchored || re.anchored;
    var hasFirst := !anchored && re.first.Char?;
    var current, seen := s0, s0 - 1;
    ghost var exact := Undisturbed(x, p) && Justified(re, x, p, o, f);
    StartNone(x, p, o, f, s0);
    while true
      invariant s0 <= current <= |x.subject| && (anchored ==> current == s0) && ws.Valid()
      invariant f.firstline ==> forall m | s0 <= m < current :: x.subject[m] != NEWLINE
      invariant Modest(TreeOf(x.tables, p), |x.subject|) ==> clean
      invariant exact && clean ==> NoneBefore(x, p, o, f, s0, current)
      decreases |x.subject| - current
    {
      current := Advance(re, x, f, s0, current, p, o);
      s := current;
      if !f.noStartOptimize && !x.partialHard && !o.partialSoft {
        var missing;
        missing, seen := Missing(re, x, current, seen, hasFirst);
        if missing {
          if exact && clean { MissingMeans(re, x, p, o, f, s0, current, hasFirst, ends, offsets[..]); }
          StopsNot(x, p, o, s, NOMATCH, ends, starts, clean, ws);
          return NOMATCH, s, ends, starts, clean;
        }
      }
      ghost var room;
      rc, ends, starts, room := Attempt(re, x, o, current, offsets, ws, p);
      clean := clean && room;
      StopsLess(x, p, o, s, rc, ends, starts, room, clean, ws);
      if clean { Foretell(x, p, o, s, rc, ends, starts, ws); }
      if rc != NOMATCH || anchored {
        if exact && clean && rc != WSSIZE {
          Ended(re, x, p, o, f, s0, current, rc, ends, offsets[..]);
        }
        return rc, s, ends, starts, clean;
      }
      if exact && clean {
        Failed(re, x, p, o, f, s0, current, ends, offsets[..]);
      }
      if f.firstline && IsNewline(x.subject, current) { return NOMATCH, s, ends, starts, clean; }
      current := current + 1;
      if current > |x.subject| { return NOMATCH, s, ends, starts, clean; }
    }
  }

  /** Less is said when an earlier attempt was short of room. */
  lemma StopsLess(x: Ctx, p: PAlts, o: Options, s: nat, rc: int, ends: seq<nat>, starts: seq<Node>, room: bool, clean: bool, ws: Workspace)
    requires ws.Valid() && ValidPAlts(p) && InScope(x.tables, p) && (clean ==> room)
    requires Stops(x, p, o, s, rc, ends, starts, room, ws)
    ensures Stops(x, p, o, s, rc, ends, starts, clean, ws)
  {
  }

  /** What one attempt leaves. */
  ghost predicate Tried(x: Ctx, p: PAlts, o: Options, s: nat, rc: int, ends: seq<nat>, offsets: seq<int>)
    requires ValidPAlts(p) && InScope(x.tables, p)
  {
    && Increasing(ends) && EndsOf(x, p, o, s, ends)
    && (rc != PARTIAL ==> rc == MatchCount(ends, |offsets| / 2) && OffsetsHold(offsets, s, ends))
    && (rc == PARTIAL ==>
          (x.partialHard || (o.partialSoft && ends == [])) && Wanting(EnvOf(x, p), Starts(CodeOf(x.tables, p), 0, s))
          && Reports(x, p, s, offsets))
    && (!(o.shortest && ends != []) && s < |x.subject| ==>
          (rc == PARTIAL <==> Suspends(EnvOf(x, p), Starts(CodeOf(x.tables, p), 0, s), o, ends)))
  }

  /** An attempt without a match that is not suspended leads to nothing. */
  lemma TriedIdle(x: Ctx, p: PAlts, o: Options, s: nat, ends: seq<nat>, offsets: seq<int>)
    requires ValidPAlts(p) && InScope(x.tables, p) && Tried(x, p, o, s, NOMATCH, ends, offsets)
    ensures Idle(x, p, o, s)
  {
    hide InScope, CodeOf, EnvOf, Hit, EndsOf, Wanting, Starts, OffsetsHold, Increasing;
    EndsHit(x, p, o, s, ends);
    SameContext(x, p);
  }

  /** The attempt at `s` ends the call. */
  lemma Ended(re: Regex, x: Ctx, p: PAlts, o: Options, f: Flags, s0: nat, s: nat, rc: int, ends: seq<nat>, offsets: seq<int>)
    requires BuiltFrom(re, x.tables, p) && ValidPAlts(p) && Undisturbed(x, p) && Justified(re, x, p, o, f) && x.som == s0
    requires Admissible(x, f, s0, s) && NoneBefore(x, p, o, f, s0, s) && Tried(x, p, o, s, rc, ends, offsets)
    requires rc != NOMATCH || ((f.anchored || re.anchored) && s == s0)
    ensures Result(x, p, o, f, s0, rc, s, ends, offsets)
  {
    hide InScope, CodeOf, EnvOf, Hit, EndsOf, Wanting, Starts, OffsetsHold, Increasing, Idle, TreeOf, AltsStart, Steady, Undisturbed, Suspends;
    EndsHit(x, p, o, s, ends);
    if rc == NOMATCH {
      TriedIdle(x, p, o, s, ends, offsets);
      OneStart(re, x, p, o, f, s0);
    }
  }

  /** It does not. */
  lemma Failed(re: Regex, x: Ctx, p: PAlts, o: Options, f: Flags, s0: nat, s: nat, ends: seq<nat>, offsets: seq<int>)
    requires BuiltFrom(re, x.tables, p) && ValidPAlts(p)
    requires NoneBefore(x, p, o, f, s0, s) && Tried(x, p, o, s, NOMATCH, ends, offsets) && s0 <= s
    ensures NoneBefore(x, p, o, f, s0, s + 1)
    ensures s == |x.subject| || (f.firstline && IsNewline(x.subject, s)) ==> Result(x, p, o, f, s0, NOMATCH, s, ends, offsets)
  {
    hide InScope, Tried, Idle;
    TriedIdle(x, p, o, s, ends, offsets);
    NextStart(x, p, o, f, s0, s);
  }

  lemma BuiltScope(re: Regex, t: CharTables, p: PAlts)
    requires BuiltFrom(re, t, p)
    ensures InScope(t, p) && re.code == CodeOf(t, p) && |re.code| <= MAX_PATTERN_SIZE
  {
  }

  lemma StartNone(x: Ctx, p: PAlts, o: Options, f: Flags, s0: nat)
    requires ValidPAlts(p) && InScope(x.tables, p)
    ensures NoneBefore(x, p, o, f, s0, s0)
  {
  }

  lemma OneStart(re: Regex, x: Ctx, p: PAlts, o: Options, f: Flags, s0: nat)
    requires BuiltFrom(re, x.tables, p) && ValidPAlts(p) && Undisturbed(x, p) && x.som == s0
    requires Justified(re, x, p, o, f)
    requires (f.anchored || re.anchored) && Idle(x, p, o, s0)
    ensures NoneAtAll(x, p, o, f, s0)
  {
    hide Idle, InScope, CodeOf, AltsStart, TreeOf, Steady;
    if !f.anchored {
      AnchoredNone(re, x, p, o, f, s0);
    }
  }

  lemma LookFreeAhead(al: PAlts)
    requires LookFree(al)
    ensures NoLookahead(al)
  {
    LookFreeBranchAhead(al.branch);
    if al.PMore? {
      LookFreeAhead(al.rest);
    }
  }

  lemma LookFreeBranchAhead(b: Branch)
    requires LookFreeBranch(b)
    ensures NoLookaheadBranch(b)
  {
    if b.BCons? {
      match b.head {
        case PGroup(_, body) => LookFreeAhead(body);
        case PGroupRep(_, body, _) => LookFreeAhead(body);
        case _ =>
      }
      LookFreeBranchAhead(b.tail);
    }
  }

  /** The lookarounds of the pattern are not in the way of a call. */
  ghost predicate Meets(re: Regex, x: Ctx, p: PAlts, o: Options, f: Flags)
    requires ValidPAlts(p)
  {
    Undisturbed(x, p) && Justified(re, x, p, o, f) && Modest(TreeOf(x.tables, p), |x.subject|)
  }

  /** Nor are they if there are none. */
  lemma LookFreeMeets(re: Regex, x: Ctx, p: PAlts, o: Options, f: Flags)
    requires BuiltFrom(re, x.tables, p) && ValidPAlts(p) && LookFree(p)
    ensures Meets(re, x, p, o, f)
  {
    hide TreeOf, Steady, Fine, NotAhead, NoLookahead, LookFree, Modest, AssertedMore, EvenMore, AltsStart;
    var t, al := x.tables, TreeOf(x.tables, p);
    ValidTree(t, p);
    LookFreeAhead(p);
    NotAheadTree(t, p);
    NotAheadSteady(t, al, false);
    NotAheadSteady(t, al, true);
    NoneFine(t, p, false, After);
    FreeFirm(t, p);
    DepthFree(t, p);
    NothingAsserted(t, al, Unset);
    ShallowModest(al, |x.subject|);
  }

  lemma Inside(t: CharTables, p: PAlts)
    requires ValidPAlts(p) && Settled(p) && FixedBehind(t, p) && Unwrapped(t, p) && Certain(t, p) && Short(t, p)
    ensures InScope(t, p)
  {
  }

  /** Compile a pattern and match it. Its lookbehinds must have fixed lengths, and then nothing but its
      size or the room in the workspace prevents a result; and unless its lookarounds are in the way,
      the result is the one that the pattern's meaning demands. */
  method CompileAndExec(x: Ctx, o: Options, f: Flags, s0: nat, offsets: array<int>, ws: Workspace, p: PAlts)
    returns (built: Built, rc: int, ghost s: nat, ghost ends: seq<nat>)
    requires Compiler.Given(x.tables, p, 0) && Settled(p) && Certain(x.tables, p)
    requires FixedBehind(x.tables, p) ==> Short(x.tables, p)
    requires x.som == s0 <= |x.subject| && ws.Valid() && !o.restart
    modifies offsets, ws`which, ws`saved, ws.first`count, ws.first.items, ws.second`count, ws.second.items
    ensures built.Refused? <==>
      1 + 2 + 2 * LINK_SIZE + Estimate.AltsCost(p, false) > MAX_PATTERN_SIZE || !FixedBehind(x.tables, p)
    ensures built.Program? && rc != WSSIZE && (LookFree(p) || Meets(built.regex, x, p, o, f)) ==>
      Result(x, p, o, f, s0, rc, s, ends, offsets[..])
    ensures built.Program? && ws.first.items.Length >= Demand(TreeOf(x.tables, p), |x.subject|) ==> rc != WSSIZE
    ensures built.Program? && rc == WSSIZE ==> ws.Full()
  {
    hide AltsStart, TreeOf, Result, Estimate.AltsCost, BuiltFrom, InScope, Justified, Undisturbed, Modest, Demand, LookFree;
    built := Build(x.tables, p);
    rc, s, ends := WSSIZE, s0, [];
    if built.Program? {
      assert InScope(x.tables, p) by { Inside(x.tables, p); }
      if LookFree(p) {
        LookFreeMeets(built.regex, x, p, o, f);
      }
      ghost var starts, clean;
      rc, s, ends, starts, clean := Exec(built.regex, x, o, f, s0, offsets, ws, p);
    }
  }

  // ----- restarting with the next piece of the subject -----

  /** The subject so far and one more piece. */
  function Whole(so: Ctx, x: Ctx): Ctx { x.(subject := so.subject + x.subject) }

  /** Ends at or after the boundary `b` of matches that began at `s`, counted from the boundary. */
  ghost predicate EndsAfter(x: Ctx, p: PAlts, o: Options, s: nat, b: nat, ends: seq<nat>)
    requires ValidPAlts(p)
  {
    if o.shortest && ends != [] then
      && |ends| == 1 && MPAlts(x, p, s, b + ends[0]) && Recordable(x, 0, ends[0])
      && forall j: nat | j < ends[0] && Recordable(x, 0, j) :: !MPAlts(x, p, s, b + j)
    else
      forall j: nat :: j in ends <==> Recordable(x, 0, j) && MPAlts(x, p, s, b + j)
  }

  /** A run over `so` stopped, and the one over `x` begins with what it saved. */
  lemma Rejoin(so: Ctx, x: Ctx, p: PAlts, s: nat, saved: seq<State>)
    requires so.tables == x.tables && InScope(x.tables, p) && |CodeOf(x.tables, p)| <= MAX_PATTERN_SIZE
    requires MovableAlts(TreeOf(x.tables, p)) && s <= |so.subject|
    requires Resumable(EnvOf(so, p), Starts(CodeOf(x.tables, p), 0, s), saved)
    ensures Sealed(CodeOf(x.tables, p), PlacesOf(x.tables, p), true) && Sane(saved)
    ensures Decode(CodeOf(x.tables, p), EnvOf(x, p).end).IKet?
    ensures var area := Area(PlacesOf(x.tables, p), |so.subject|);
            Startable(EnvOf(x, p), area, 0, 0) && Proper(EnvOf(x, p), area, NodesOf(saved, 0))
    ensures forall starts: seq<Node> | Restart.Continues(saved, 0, starts) ::
              Restart.TwoRuns(EnvOf(Whole(so, x), p), EnvOf(so, p), EnvOf(x, p),
                              Area(PlacesOf(x.tables, p), 0), Starts(CodeOf(x.tables, p), 0, s), saved, starts)
  {
    hide CodeOf, InScope, TreeOf, MovableAlts, Sealed, Decode, Startable, Starts, Resumable, Entry, DepthOf, NodesOf, PlacesOf;
    var w := Whole(so, x);
    CompiledSealed(w, p, true, 0);
    EnvIs(x, p);
    EnvIs(so, p);
    EnvIs(w, p);
    var first, second, whole := EnvOf(so, p), EnvOf(x, p), EnvOf(w, p);
    var area := Area(PlacesOf(x.tables, p), 0);
    Restart.SavedSane(first, Starts(whole.code, 0, s), saved);
    Restart.StartsPlaceable(whole, first, area, s);
    Restart.StartableAtZero(whole, second, area, |so.subject|);
    Restart.SavedProper(whole, first, second, area, Starts(whole.code, 0, s), saved);
  }

  /** What a restarted call says of suspension: it was asked for, and what is saved serves everything so far;
      and it is reported exactly if some path could use more. */
  ghost predicate StopsAgain(so: Ctx, x: Ctx, p: PAlts, o: Options, s: nat, rc: int, ends: seq<nat>, ws: Workspace)
    requires ws.Valid() && ValidPAlts(p) && InScope(x.tables, p)
    reads ws, ws.first, ws.second, ws.first.items, ws.second.items
  {
    var env, from := EnvOf(Whole(so, x), p), Starts(CodeOf(x.tables, p), 0, s);
    && (rc == PARTIAL ==> (x.partialHard || o.partialSoft) && ws.Holding() && ws.Restartable() && Resumable(env, from, ws.Saved()))
    && (rc != WSSIZE && rc != BADRESTART && !(o.shortest && ends != []) && x.subject != [] ==>
          (rc == PARTIAL <==> (x.partialHard || (o.partialSoft && ends == [])) && Wanting(env, from)))
  }

  /** A restarted call foretells as much of everything so far. */
  lemma ForetellAgain(so: Ctx, x: Ctx, p: PAlts, o: Options, s: nat, rc: int, ends: seq<nat>, ws: Workspace)
    requires ws.Valid() && ValidPAlts(p) && InScope(x.tables, p) && |CodeOf(x.tables, p)| <= MAX_PATTERN_SIZE && so.tables == x.tables
    requires s <= |so.subject| && x.subject != [] && !(o.shortest && ends != []) && StopsAgain(so, x, p, o, s, rc, ends, ws)
    ensures Foretold(Whole(so, x), p, o, s, rc, ends)
  {
    hide InScope, CodeOf, EnvOf, TreeOf, Starts, Wanting, Growth.Live, Growth.Grows, Without, DepthOf, Resumable;
    var w := Whole(so, x);
    if rc == PARTIAL && Growth.Live(x.tables, p) {
      Growth.WantingGrows(w, p, s);
    }
    if rc >= 0 && Unassuming(x.tables, p) && Growth.Grows(w, p, s) {
      Growth.GrowsWanting(w, p, s);
    }
  }

  /** A restart with the next piece: it records exactly the ends, at or after the boundary, that a
      run over everything so far would record, and if it is suspended again, it can be resumed. */
  method ExecRestart(re: Regex, x: Ctx, o: Options, offsets: array<int>, ws: Workspace,
                     ghost p: PAlts, ghost so: Ctx, ghost s: nat)
    returns (rc: int, ghost ends: seq<nat>)
    requires BuiltFrom(re, x.tables, p) && ValidPAlts(p) && o.restart && so.tables == x.tables
    requires MovableAlts(TreeOf(x.tables, p)) && DepthOf(x.tables, p) == 0 && s <= |so.subject|
    requires ws.Holding() && Resumable(EnvOf(so, p), Starts(re.code, 0, s), ws.Saved())
    modifies offsets, ws`which, ws`saved, ws.first`count, ws.first.items, ws.second`count, ws.second.items
    ensures ws.Valid() && (rc == BADRESTART <==> !old(ws.Restartable()))
    ensures StopsAgain(so, x, p, o, s, rc, ends, ws)
    ensures rc != PARTIAL && rc != WSSIZE && rc != BADRESTART ==>
      && EndsAfter(Whole(so, x), p, o, s, |so.subject|, ends) && Increasing(ends)
      && rc == MatchCount(ends, offsets.Length / 2) && OffsetsHold(offsets[..], 0, ends)
    ensures rc == WSSIZE ==> ws.Full()
    ensures ws.first.items.Length >= RoomFrom(TreeOf(x.tables, p), old(ws.saved), |so.subject| + |x.subject|) ==> rc != WSSIZE
  {
    hide InScope, CodeOf, TreeOf, EndsAfter, OffsetsHold, Increasing, Sealed, Startable, Starts, Decode, Resumable, EnvOf, Wanting,
      AltsSlots, AltsAdds, RunRoom, Quiet, Undisturbed;
    ends := [];
    if !ws.Restartable() { return BADRESTART, ends; }
    ghost var saved := ws.Saved();
    Rejoin(so, x, p, s, saved);
    ghost var places := PlacesOf(x.tables, p);
    NoReverseAtStart(x, p);
    EnvIs(x, p);
    CompiledRoom(x, p, |so.subject|, 0);
    AlwaysQuiet(x, p, Area(places, |so.subject|));
    var md := new MatchBlock(0);
    ghost var starts, start, clean;
    rc, ends, starts, start, clean := InternalDfaExec(md, re.code, 0, 0, x, o, offsets, ws, 1, DepthOf(x.tables, p), Area(places, |so.subject|), true);
    assert Restart.Continues(saved, 0, starts);
    Restart.RestartWants(EnvOf(Whole(so, x), p), EnvOf(so, p), EnvOf(x, p), Area(places, 0),
                         Starts(re.code, 0, s), saved, starts);
    if rc == PARTIAL {
      Restart.RestartAgain(EnvOf(Whole(so, x), p), EnvOf(so, p), EnvOf(x, p), Area(places, 0),
                           Starts(re.code, 0, s), saved, starts, ws.Saved());
    } else if rc != WSSIZE {
      NothingDisturbed(Whole(so, x), p);
      RestartExactly(so, x, p, o, s, Area(places, 0), saved, starts, ends);
    }
  }

  lemma AlwaysQuiet(x: Ctx, p: PAlts, area: Area)
    requires InScope(x.tables, p) && ValidPAlts(p) && DepthOf(x.tables, p) == 0
    ensures Quiet(EnvOf(x, p), area)
  {
    hide CodeOf, DepthOf;
    EnvIs(x, p);
  }

  lemma NothingDisturbed(x: Ctx, p: PAlts)
    requires ValidPAlts(p) && DepthOf(x.tables, p) == 0
    ensures Undisturbed(x, p)
  {
    hide DepthOf;
    FreeDepth(x.tables, p);
    FreeFirm(x.tables, p);
  }

  lemma RestartExactly(so: Ctx, x: Ctx, p: PAlts, o: Options, s: nat, area: Area, saved: seq<State>,
                       starts: seq<Node>, ends: seq<nat>)
    requires InScope(x.tables, p) && |CodeOf(x.tables, p)| <= MAX_PATTERN_SIZE && ValidPAlts(p)
    requires so.tables == x.tables && s <= |so.subject| && Undisturbed(Whole(so, x), p)
    requires Restart.TwoRuns(EnvOf(Whole(so, x), p), EnvOf(so, p), EnvOf(x, p), area,
                             Starts(CodeOf(x.tables, p), 0, s), saved, starts)
    requires Recorded(EnvOf(x, p), starts, o, 0, ends)
    ensures EndsAfter(Whole(so, x), p, o, s, |so.subject|, ends)
  {
    hide InScope, CodeOf, TreeOf, MPAlts, Starts, Finishes, EnvOf, Undisturbed;
    EnvIs(so, p);
    EnvIs(x, p);
    var w := Whole(so, x);
    forall j: nat
      ensures Finishes(EnvOf(x, p), starts, j) <==> MPAlts(w, p, s, |so.subject| + j)
    {
      Restart.RestartLosesNothing(EnvOf(w, p), EnvOf(so, p), EnvOf(x, p), area,
                                  Starts(CodeOf(x.tables, p), 0, s), saved, starts, j);
      CompiledExactly(w, p, s, |so.subject| + j);
    }
    assert forall j: nat :: Recordable(x, 0, j) == Recordable(w, 0, j);
    if o.shortest && ends != [] {
      forall j: nat | j < ends[0] && Recordable(w, 0, j)
        ensures !MPAlts(w, p, s, |so.subject| + j)
      {
        assert Finishes(EnvOf(x, p), starts, j) <==> MPAlts(w, p, s, |so.subject| + j);
      }
    } else {
      forall j: nat
        ensures j in ends <==> Recordable(w, 0, j) && MPAlts(w, p, s, |so.subject| + j)
      {
        assert Finishes(EnvOf(x, p), starts, j) <==> MPAlts(w, p, s, |so.subject| + j);
      }
    }
  }
}
