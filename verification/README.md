# Verified model of the PCRE 8.31 bytecode compiler and state-set matcher

PCRE 8.31 (under `libs/pcre-8.31`) contains a regular-expression compiler and, next to its backtracking
matcher, a second matcher that follows all paths at once over two vectors of states. This project models
that compiler and that matcher, for the 8-bit library without UTF and Unicode properties, with two-unit
links, newline LF and callouts off, and proves that they fit together:

* a pattern has a *meaning*: a relation between a start and an end in the subject (`Pattern`); what its tests,
  character types and classes mean is told by what small patterns match (`Meaning`, `CharClass`);
* the compiler, in its two passes, writes bytes with links, in place (`Estimate`, `Buffer`, `Repetition`,
  `Replication`, `Brackets`, `Compiler`); what it leaves in the buffer is the encoding of a *code tree*
  (`Tree`, `Expansion`), whose meaning is the pattern's (`Preservation`, `Possession`, `Lookbehind`);
* the bytes span a *graph* of states (`Graph`, `Layout`), in which the end of the pattern can be reached
  at a place exactly if the tree matches up to there (`Correctness`);
* the matcher explores that graph, drops duplicates, delays states, records the ends, and stops
  (`Scan`, `Matcher`, `DfaRun`); so it records exactly the ends that the meaning allows (`Refinement`);
* because duplicates are dropped, the states that can be met at one position are bounded, and a workspace
  for that many is always enough (`Room`, `Tally`, `Load`); assertions have a workspace of fixed size, which
  is not (`Crowd`);
* the analyses of the compiler (fixed lengths, possible emptiness, first and required characters, asserted
  first characters, anchoring) are walks over the bytes or over the pattern, each proved to compute a function
  of the tree or the pattern; each such function is proved sound, or sound exactly under a condition where
  lookaheads mislead it (`FixedLength`, `Empty`, `EmptyScan`, `FirstReq`, `Lookahead`, `Asserted`, `Required`,
  `Anchoring`, `Program`); nothing is refused or missed without reason: lengths and first characters are found
  exactly where there are any, and sizes are measured exactly (`Spans`, `Firsts`, `Estimate`);
* the outer matching function uses those results to skip starts, and does not change the result by it
  wherever they are sound, be it a match or a suspension (`Beyond`, `DfaExec`); suspending at the end of one piece of the subject and going on with
  the next loses nothing, however often it happens (`Restart`);
* partial matching is told without the matcher: a run is suspended exactly if with more of the subject the
  pattern could match beyond its end (`Continue`, `Growth`, `Unforeseen`), and what it reports as the earliest
  character inspected is all that it depended on (`Inspection`, `Unseen`, both with `Absence`);
* the name table, the two ways of numbering groups, and the byte-order repair of 16-bit code stand on
  their own (`NameTable`, `Parens`, `ByteOrder`, `Lengths`).

The code that the source writes imperatively is imperative here: the compiler's passes are methods on a
code buffer that is an array, the matcher's vectors and workspace are classes whose methods change
them, and the walkers are loops over the bytes. Each of these methods is proved against the functions
and predicates that the lemmas are about.

Reading order for the main results: `Compiler.Compile`, `Preservation.Preserve`,
`Refinement.CompiledExactly`, `DfaRun.InternalDfaExec`, `DfaExec.CompileAndExec`, `Restart.RestartAgain`.

## Where the code falls short of its intention

Some laws that one would expect are false of the code. The model keeps the code, a lemma gives an
input, and the law is proved exactly under a condition on the input.

* Auto-possessification asks whether the next item is optional by looking for `*`, `?` or `{0,` in the
  text. `a*b{0}a` is made possessive and no longer matches "a" (`Possession.CountZeroBreaks`). For each
  repeat and next item, possessifying changes nothing exactly if the next item cannot be skipped
  or no character at all matches the repeated item (`Possession.PossessiveExactly`).
* The length of a lookbehind branch is stored in two units, unchecked. `(?<=a{65535}a)` looks back by 0
  (`Lookbehind.LongBehindBreaks`). A branch is compiled faithfully exactly if its length is below 65536
  (`Lookbehind.BehindExactly`).
* The required character may be taken from a lookahead, and then need not come after the first one:
  `(?=.*b)b` does not find "b" (`FirstReq.LookaheadBreaks`). A lookahead loses no match, whatever follows it,
  exactly if it sets no required character, or stands after a settled first character, or its character must
  come after the place where it stands, given the one that an earlier lookahead requires
  (`FirstReq.LookaheadExactly`); for a lookahead of characters, repeats and groups the last can be read off its
  body (`Lookahead.LateExactly`, `FirstReq.PlainLookaheadExactly`).
* A pattern without a first character of its own may get one that a lookahead asserts; its required character
  can be that same one. `(?=a)(?:a|ba)` does not find "a", because the required "a" is looked for behind the
  first (`Required.RequiredBreaks`). Behind a lookahead at one character this is right exactly if the two
  characters differ or the rest needs the character later (`Required.FollowsExactly`).
* The search for an asserted character compares a caseless literal by its code alone with what an earlier
  branch asserts. `(?=ab|(?i)ac)` is given the first character "a", so that its match at the start of "Ac" is skipped
  (`Asserted.MixedBreaks`). Where every step is right, so is the character (`Asserted.AssertedSound`); for a
  lookahead whose branches begin with literals and whose rests can match, it is right exactly if no caseless
  literal was accepted for an earlier character that has another case (`Asserted.AssertedExactly`). With one
  caseless setting for the whole pattern that never happens (`Asserted.CasedEven`).
* `is_anchored` looks into a leading lookahead: `(?=.*b)b` with dot matching everything is taken to be
  anchored, but in "ab" it matches at the second character only (`Anchoring.AnchoredAheadBreaks`). The check is
  right about a leading lookahead, whatever follows it, exactly if that never holds past the start offset
  (`Anchoring.AnchoredAheadExactly`): of the beginnings that are accepted, ^ and \A see to that, \G and .* do
  not (`Anchoring.PinnedKeeps`, `Anchoring.LeafExactly`; for groups and nested lookaheads whose rests can match
  `Anchoring.PinnedExactly`).
* `is_startline` does the same: `(?=.*c)[^x]c` is looked for at line starts only, but in "xac" it matches at the
  second character (`Program.StartlineAheadBreaks`). It is right exactly if the lookahead never holds inside a
  line (`Anchoring.StartlineAheadExactly`).
* The documentation says that the dollar-end-only option is ignored together with multiline matching
  (doc/pcre.txt:1603-1604). This matcher heeds it there too: with it, a multiline `a$` does not match the first line of
  "a", newline, "b" (`Dollar.DollarBreaks`). For the patterns whose dollars are all multiline it is ignored exactly if the
  subject's end is declared not to end a line or the subject has no newline (`Dollar.DollarExactly`).
* The options that refuse empty matches are tested wherever a run ends, inside assertions too: with NOTEMPTY,
  `(?=a*)b` does not match "b" (`NotEmpty.NotEmptyBreaks`). A lookahead then succeeds exactly if its body has a
  match that is not empty (`NotEmpty.AheadNotEmpty`). For bodies without tests and assertions the options never change
  the outcome of a lookahead exactly if its body cannot match the empty string, which can be computed
  (`NotEmpty.HarmlessExactly`), and of a lookbehind exactly if no branch has length 0
  (`NotEmpty.HarmlessBehindExactly`).
* The run of an assertion has a workspace of 1000 ints, whatever the caller provides. A run that is short
  of room counts as one without a match, so a positive assertion fails and a negative one holds:
  `(?!a|a|...|a)` with 167 alternatives holds at an "a" (`Crowd.CrowdBreaks`; `Crowd.CrowdTaken` takes the matcher
  through it). The first list of states overflows exactly if more than 166 branches can start
  (`Crowd.CrowdExactly`); nothing overflows if the bound computed from each assertion's body is at most 166
  (`Load.Modest`, `Refinement.CompiledRoom`). The matcher's methods return whether it happened
  (`clean`), and say what they record when it did not.

* The first offset of a partial match is said to be that of the earliest character that was inspected
  (doc/pcrepartial.3:68-70). A multiline ^ looks at the character before it, but that is not counted: `(?m)^fo` from
  position 1 of newline, "f" is suspended and reports 1, although with another first character it is not suspended
  (`Unseen.LineBreaks`). At one place a multiline ^ depends on nothing before the reported position u exactly if it is
  tried behind u or at an end of the subject (`Unseen.LineExactly`), and the steps of a run without assertions depend on
  nothing before u exactly if it comes to no other multiline ^ (`Unseen.StepsExactly`).
* With hard partial matching, a result other than a suspension should not depend on text that is still to come. But a
  multiline ^ behind a final newline, and a multiline $ when the subject's end is declared not to end a line, do not
  wait for it; and $ and \Z hold before a final newline, which may not be final. These are exactly the tests that more
  of the subject opens or closes unawaited (`Growth.TestExactly`); where a run without assertions comes to none of them,
  nothing depends on what follows (`Growth.NothingMore`), and for a pattern that is one test this is exact
  (`Unforeseen.AloneExactly`). Nor does an assertion wait: `a(?=b)` on "a" is not suspended (`Unforeseen.AheadBreaks`).

## Definitions

What the properties are about, and the source that the definitions follow:

* `Pattern.MPAlts`: the meaning of a pattern as a relation of start and end, the simple form to which
  everything is refined. `Subject.TestHolds` and `Subject.KindAt` (pcre_dfa_exec.c:855-1050) are the tests on
  a position and the character types.
* The meaning takes two things over from the code as they are: inside an assertion \G means the place where
  the assertion is tried, because the nested run has that as its start offset; and with partial hard matching,
  the tests for the end of the subject do not hold at its end.
* `Subject.Ctx` holds what does not change in one call, among it the options NOTEMPTY and NOTEMPTY_ATSTART,
  by which `Subject.Recordable` decides whether a run may record an end (pcre_dfa_exec.c:777-781).
* `Expansion.TreeOf`: the code tree that the compiler makes of a pattern (pcre_compile.c:4747-5580), and
  `Tree.EncPattern`, its bytes. `Semantics.MAlts` is what the tree means, with a lookbehind that goes back by
  the 16 bits of its length that the code holds (`Semantics.MBehind`).
* `Graph.Decode`, `Graph.Act` and `Graph.Fresh`: what the matcher reads at an offset, and what it adds to the
  current and to the next list of states (pcre_dfa_exec.c:682-3030). `Graph.Finishes`: a path to the end.
* `FirstReq.AltsStart`, `Anchoring.AnchoredAlts`, `Anchoring.StartlineAlts`, `Empty.CanBeEmptyAlts`,
  `Tree.AltsLength`, `Asserted.AssertedAlts`: what the analyses compute.
* `FirstReq.Fine`, `Required.Follows`, `Required.Rightly`, `Anchoring.Steady`: the lookaheads of a pattern spoil neither
  the required character nor its place, nor the asserted first character, nor the anchoring. `DfaExec.Justified` asks for these only where the program and the
  call use them; `Preservation.Undisturbed`: no option refuses empty matches, or no assertion's body is judged to
  match one; `Load.Modest`: every assertion has room. `DfaExec.Meets` is all three; a pattern without lookarounds
  meets it (`DfaExec.LookFreeMeets`).
* `Load.Demand`: the room that a run needs, from the code tree and the number of characters: a state for each
  branch, for each pair of an offset and a count that can be met, and for each state that these add. Each of the
  two vectors that are cut from a workspace of n ints holds `Room.Capacity(n)` states.
* `DfaExec.Result`: what an external call must return.
* `Growth.Grows`: with some continuation of the subject the pattern matches beyond its present end. `Growth.Live`: a
  pattern of characters, repeats that are not written possessive, and groups, each with a character to match.
* `Inspection.AllConfined`: no step of the run, and none that decides an assertion, inspects the subject before a
  position. `Inspection.Touched`: a boundary test just behind a position was reached, or a lookbehind that begins
  there. `Inspection.Inspected` is both, for the position that a run reports.
* `Estimate.AltsExcess`: by how much the measure of the first pass exceeds the code: for a character or class
  with the maximum 0, which is dropped, in each copy of the group it is in. `Estimate.Kept`: there is none.
* `Refinement.InScope`: the patterns of the whole-compiler theorems: well-formed, no change of the caseless setting
  between a repeat and a literal right behind it, every lookbehind of a fixed length below 65536, nothing that is wrapped in an atomic group, and no repeat
  that is made possessive before an item that can be skipped.

## Model

| member | source | states |
|---|---|---|
| `Bytecode.GetTwo` | libs/pcre-8.31/pcre_internal.h:401-408 | what PUT stores, GET reads back, for every value of 16 bits |
| `Bytecode.GetLow` | libs/pcre-8.31/pcre_internal.h:401-408 | of a larger value the low 16 bits are read back |
| `Bytecode.FindKet` | libs/pcre-8.31/pcre_dfa_exec.c:2622-2624 | the loop over the links of a bracket ends where following the links from alternative to alternative ends; that this is the bracket's own ket says `Layout.Bracket` |
| `Pattern.SpanPAlts` | libs/pcre-8.31/pcre_dfa_exec.c:569-583 | every match goes forward and ends inside the subject |
| `Meaning.WholeWords` | libs/pcre-8.31/pcre_dfa_exec.c:1001-1048 | `\b\w+\b` matches from i to j if and only if that is a maximal non-empty run of word characters |
| `Meaning.InsideWords` | libs/pcre-8.31/pcre_dfa_exec.c:1001-1048 | `\w\B\w` matches exactly two neighbouring word characters |
| `Meaning.Lines` | libs/pcre-8.31/pcre_dfa_exec.c:853-983 | `^.*$` with multiline matching matches exactly the lines of the subject, the empty one behind a final newline excepted |
| `Meaning.OnlyLine` | libs/pcre-8.31/pcre_dfa_exec.c:853-955 | without it exactly the first line, and only if nothing or just its newline follows |
| `Meaning.FromOffset` | libs/pcre-8.31/pcre_dfa_exec.c:876-925 | `\G.*\Z` with dot matching everything matches exactly from the start offset to the end or to before a final newline |
| `Meaning.Options` | libs/pcre-8.31/pcre_dfa_exec.c:853-983 | NOTBOL and NOTEOL take away the beginning and the end of the subject, and no newline in it |
| `Meaning.Kinds` | libs/pcre-8.31/pcre_dfa_exec.c:888-998 | `\A.+\z`, with any character type for the dot, matches the subject from start to end if and only if all its characters are of that type, told by the tables for each type |
| `CharClass.ClassBits.AddRange` | libs/pcre-8.31/pcre_compile.c:4513-4525 | the loop over a range adds to the map exactly the characters in it, caselessly in either case, and keeps the others |
| `CharClass.ClassBits.Negate` | libs/pcre-8.31/pcre_compile.c:4712-4717 | negating the map exchanges the characters in it and the others |
| `CharClass.RangeClass` | libs/pcre-8.31/pcre_compile.c:4513-4717 | the item compiled from a class of one range, negated or not, matches exactly the characters in it, or exactly the others |
| `Dollar.DollarExactly` | libs/pcre-8.31/pcre_dfa_exec.c:955-983 | in a subject, the dollar-end-only option changes no match of any pattern whose dollars are all multiline if and only if the subject's end may not end a line or there is no newline |
| `Dollar.AltsAlike` | libs/pcre-8.31/pcre_dfa_exec.c:955-983 | for each pattern: it changes no match if there is no such dollar either, in assertions or outside |
| `Dollar.DollarBreaks` | libs/pcre-8.31/pcre_dfa_exec.c:955-983 | a multiline `a$` matches the first line of "a", newline, "b", but with the option it does not |
| `Semantics.SpanAlts` | libs/pcre-8.31/pcre_dfa_exec.c:569-583 | every match of the code tree goes forward and ends inside the subject |
| `Semantics.LengthAlts` | libs/pcre-8.31/pcre_compile.c:1713-2014 | fixed length is sound: if the tree has fixed length n, whatever it matches has exactly n characters |
| `Spans.BranchExactly` | libs/pcre-8.31/pcre_compile.c:1713-2014 | fixed length is complete: a branch has the fixed length n if and only if it consists of characters, tests, assertions, exact counts and plain or capturing groups of these, and its counts allow n characters and no other number |
| `Spans.AltsExactly` | libs/pcre-8.31/pcre_compile.c:1713-2014 | the same for all branches of a group |
| `Spans.MatchesExactly` | libs/pcre-8.31/pcre_compile.c:1713-2014 | for a branch of characters, counts and groups, each item with a character to match: it has the fixed length n if and only if all its matches have n characters |
| `Semantics.BehindElim` | libs/pcre-8.31/pcre_dfa_exec.c:464-523 | a lookbehind with short branches succeeds at p only if some branch matches a substring ending at p |
| `Semantics.BehindIntro` | libs/pcre-8.31/pcre_dfa_exec.c:464-523 | and it succeeds whenever some branch does |
| `Lookbehind.BehindExactly` | libs/pcre-8.31/pcre_compile.c:7163-7196 | a compiled lookbehind branch means what the pattern says, on all subjects and positions and when empty matches are not refused, if and only if its fixed length is below 65536 |
| `Lookbehind.LongBehindBreaks` | libs/pcre-8.31/pcre_compile.c:7189-7194 | `(?<=a{65535}a)` at the end of 65536 times "a": the pattern's lookbehind holds, the compiled one does not |
| `Layout.Chain` | libs/pcre-8.31/pcre_compile.c:7198-7226 | following the forward links of an encoded bracket visits each alternative once, in order, and ends at its own ket |
| `Layout.Bracket` | libs/pcre-8.31/pcre_compile.c:7222-7226 | the ket's link is the distance back to the bracket, and walking from the bracket reaches that ket |
| `Layout.NextHeading` | libs/pcre-8.31/pcre_compile.c:7205-7218 | an ALT is itself the head of the remaining alternatives, its link being the distance to the next |
| `Layout.DecodeRepeat` | libs/pcre-8.31/pcre_internal.h:1588-1700 | decoding the bytes of any repeat gives back its family, form and counts |
| `Layout.DecodeOne` | libs/pcre-8.31/pcre_internal.h:1561-1586 | decoding the bytes of a single item gives back the item |
| `Layout.ReversePlaced` | libs/pcre-8.31/pcre_compile.c:7094-7102 | a lookbehind branch starts with OP_REVERSE, the low 16 bits of its length, and its items |
| `Correctness.SoundOps` | libs/pcre-8.31/pcre_dfa_exec.c:569-1093 | a path that enters the bytes of a sequence at i and reaches a node outside leaves them at some k such that the sequence matches from i to k |
| `Correctness.CompleteOps` | libs/pcre-8.31/pcre_dfa_exec.c:569-1093 | if a sequence matches from i to j, there is a path from its first byte at i to just behind it at j |
| `Correctness.SoundOp` | libs/pcre-8.31/pcre_dfa_exec.c:763-860 | the same soundness for one item, including groups with unlimited repeats that can match empty |
| `Correctness.CompleteOp` | libs/pcre-8.31/pcre_dfa_exec.c:763-860 | the same completeness for one item |
| `Correctness.CompleteLoop` | libs/pcre-8.31/pcre_dfa_exec.c:763-775 | every number of rounds of a repeated group is a path through KETRMAX or KETRMIN |
| `Correctness.SoundRep` | libs/pcre-8.31/pcre_dfa_exec.c:2298-2520 | a path through a counted or uncounted repeat consumes a run of matching characters within the bounds |
| `Correctness.CompleteRep` | libs/pcre-8.31/pcre_dfa_exec.c:2298-2520 | every such run is a path, also for possessive repeats |
| `Correctness.LookCorrect` | libs/pcre-8.31/pcre_dfa_exec.c:2614-2640 | the nested run of an assertion can finish at an end that the options admit if and only if the assertion holds by the meaning of its code, ahead or behind, positive or negative |
| `Correctness.SoundBehind` | libs/pcre-8.31/pcre_dfa_exec.c:464-523 | a lookbehind's run finishes at j only if some branch, from where OP_REVERSE puts it, matches up to j |
| `Correctness.CompleteBehind` | libs/pcre-8.31/pcre_dfa_exec.c:464-523 | and it can finish wherever such a branch ends |
| `Closure.OpsPlaces` | libs/pcre-8.31/pcre_dfa_exec.c:346-390 | a run over encoded code meets only finitely many offsets, at each of which a supported opcode can be read |
| `Closure.BackPlaces` | libs/pcre-8.31/pcre_dfa_exec.c:508-523 | the delayed states of a lookbehind start at offsets of that set |
| `Scan.SkipWaiting` | libs/pcre-8.31/pcre_dfa_exec.c:651-660 | a delayed state that is counted down and passed to the next list stays the same node, so nothing is lost |
| `Scan.Duplicate` | libs/pcre-8.31/pcre_dfa_exec.c:670-679 | skipping a state whose offset and count were met before leaves the explored set closed |
| `Tally.TallyOn` | libs/pcre-8.31/pcre_dfa_exec.c:628-682 | a pair of offset and count met for the first time lengthens the active list by no more than its opcode can add, and the next list by one |
| `Tally.TallyDuplicate` | libs/pcre-8.31/pcre_dfa_exec.c:670-679 | a duplicate lengthens neither list, so each pair is expanded at most once |
| `Tally.TallySkip` | libs/pcre-8.31/pcre_dfa_exec.c:651-660 | a state that waits is carried over; no more wait than at the start |
| `Tally.RoomHere` | libs/pcre-8.31/pcre_dfa_exec.c:346-390 | therefore what is met at any place of the list still has room in vectors for the initial states, all pairs that can occur and all that these add |
| `Tally.DegreeBound` | libs/pcre-8.31/pcre_dfa_exec.c:682-3030 | an expansion adds no more states to the active list than its opcode can, and one to the next |
| `Tally.SlotsInside` | libs/pcre-8.31/pcre_dfa_exec.c:566-568 | the pairs met lie in the finite set of places times reachable counts |
| `Scan.Finish` | libs/pcre-8.31/pcre_dfa_exec.c:3035-3090 | when no state is left for the next character, the nodes met are all that can be reached, so an end was met if and only if the graph can finish there |
| `Scan.ReachBelow` | libs/pcre-8.31/pcre_dfa_exec.c:569-583 | while scanning position p, every node before p that can be reached has been met |
| `Matcher.StateVector.Add` | libs/pcre-8.31/pcre_dfa_exec.c:346-390 | a state is appended unless the vector is full |
| `Matcher.Workspace.constructor` | libs/pcre-8.31/pcre_dfa_exec.c:432-447 | the workspace is cut into two vectors of equal size |
| `Matcher.Workspace.Turn` | libs/pcre-8.31/pcre_dfa_exec.c:584-596 | the next list becomes the active one, the other one is emptied, and the two leading words say which is current and how many states it has |
| `Matcher.Record` | libs/pcre-8.31/pcre_dfa_exec.c:777-805 | the vector holds the latest min(k, size/2) of the k ends, last first, and the result is 0 exactly if some were pushed out or there was no room |
| `DfaRun.AddBranches` | libs/pcre-8.31/pcre_dfa_exec.c:545-561 | the first list is the heads of the alternatives |
| `DfaRun.AddBackStarts` | libs/pcre-8.31/pcre_dfa_exec.c:464-523 | the delayed states stand for exactly the nodes at which lookbehind branches start that fit in front of the position |
| `DfaRun.MaxBack` | libs/pcre-8.31/pcre_dfa_exec.c:466-499 | the run goes back as far as the longest branch needs, or to the start of the subject |
| `DfaRun.StepState` | libs/pcre-8.31/pcre_dfa_exec.c:682-3030 | one state adds exactly its successors in the graph to the two lists |
| `DfaRun.StepLook` | libs/pcre-8.31/pcre_dfa_exec.c:2614-2640 | an assertion goes on behind its ket exactly if its nested run finds an end, unless that run was short of room; then, and whenever more branches start than its workspace holds, a positive one fails and a negative one goes on; if every assertion has room, none is short of it |
| `DfaRun.FindDuplicate` | libs/pcre-8.31/pcre_dfa_exec.c:670-679 | finds a state with the same offset and count among those done, if there is one |
| `DfaRun.VisitState` | libs/pcre-8.31/pcre_dfa_exec.c:664-682 | a state met before is dropped and any other is expanded; only vectors smaller than the bound can be full |
| `DfaRun.ScanStates` | libs/pcre-8.31/pcre_dfa_exec.c:628-3030 | the scan of the active list at one position keeps the explored set and the recorded ends exact; at its end the active list is no longer than it was plus what the different pairs met can add, the next one no longer than the waiting states and those pairs; it runs out of room only in vectors smaller than the bound |
| `DfaRun.Run` | libs/pcre-8.31/pcre_dfa_exec.c:569-3100 | the walk over the subject ends, and records exactly the ends that can be reached, or all states needed to go on; the workspace-size error means that the vectors were smaller than the bound |
| `DfaRun.InternalDfaExec` | libs/pcre-8.31/pcre_dfa_exec.c:392-3110 | the whole run terminates; it reports a workspace error only if the vectors are smaller than the initial states and the bound, and always if they cannot hold the initial states; else it records exactly the ends that the graph can finish at and the options admit, shortest only if asked, with the number that fits the offsets vector; it returns PARTIAL exactly if a path at the end of the subject could use more, and then the saved states are all that a continuation needs. What it leaves as the earliest character inspected is exact: no step looked further back, and it is where the run began, or a boundary test or a lookbehind that was reached looked there |
| `DfaRun.Resume` | libs/pcre-8.31/pcre_dfa_exec.c:3035-3085 | what is in the workspace at the end of the subject contains every node there that can be reached |
| `Growth.NothingMore` | libs/pcre-8.31/pcre_dfa_exec.c:3058-3082 | a run without assertions that is not to be suspended has nothing to wait for: whatever the pattern matches with more of the subject it matches already, in particular nothing beyond the end, if the run comes to no test that more would open; and nothing is to be taken back if to none that it would close |
| `Growth.GrowsWanting` | libs/pcre-8.31/pcre_dfa_exec.c:3058-3082 | a pattern without assertions and multiline ^ and $ that could match beyond the end of the subject, given more of it, is suspended |
| `Growth.WantingGrows` | libs/pcre-8.31/pcre_dfa_exec.c:177-222 | the run of a live pattern is suspended only if with some continuation the pattern matches beyond the end of the subject |
| `Growth.NoneAwaited` | libs/pcre-8.31/pcre_dfa_exec.c:868-983 | a run without assertions that is not to be suspended finds with the hard option exactly what it would find if the end of the subject were known to be the end |
| `Growth.AwaitsExactly` | libs/pcre-8.31/pcre_dfa_exec.c:868-983 | with the hard option a test waits for more if and only if it fails there only because of that option |
| `Growth.BoundaryExactly` | libs/pcre-8.31/pcre_dfa_exec.c:177-222 | of the other tests, multiline ^ excepted, a run waits at the end of the subject exactly at those that the next character decides |
| `Growth.TestExactly` | libs/pcre-8.31/pcre_dfa_exec.c:853-983 | a test that is not waited for can be let pass by more of the subject exactly if it is a multiline ^ behind a final newline, or a multiline $ at an end that does not end a line; and it can be undone exactly if it holds before a final newline, or at the end without the hard option |
| `Unforeseen.AloneExactly` | libs/pcre-8.31/pcre_dfa_exec.c:853-983 | for a pattern that is one test and whose run is not to be suspended: more of the subject never adds a match if and only if the test is not of the first kind, and never undoes one if and only if it is not of the second |
| `Unforeseen.AheadBreaks` | libs/pcre-8.31/pcre_dfa_exec.c:2614-2640 | `a(?=b)` on "a" finds nothing and is not to be suspended, but matches the start of "ab" |
| `Unseen.SameReached` | libs/pcre-8.31/pcre_dfa_exec.c:464-523 | if no step of a run inspects the subject before u, with any subject of the same length that is the same from u on exactly the same nodes are reached, unless a multiline ^ is in the way; assertions included |
| `Unseen.SameMatches` | libs/pcre-8.31/pcre_dfa_exec.c:1001-1010 | then the pattern also matches the same from the same start, and its run is suspended alike |
| `Unseen.LineExactly` | libs/pcre-8.31/pcre_dfa_exec.c:861-866 | at one place a multiline ^ comes out alike for all subjects that are the same from u on if and only if the place is behind u or at an end of the subject |
| `Unseen.StepsExactly` | libs/pcre-8.31/pcre_dfa_exec.c:861-866 | the steps of a run without assertions that inspects nothing before u are the same for all such subjects if and only if it comes to no other multiline ^ |
| `Unseen.HereExactly` | libs/pcre-8.31/pcre_dfa_exec.c:3072-3080 | without boundary tests and assertions the position reported is the start, and no other |
| `Unseen.LineBreaks` | libs/pcre-8.31/pcre_dfa_exec.c:861-866 | `(?m)^fo` from position 1 of newline, "f" is to be suspended and position 1 is reported, but with another first character it is not |
| `Expansion.ValidTree` | libs/pcre-8.31/pcre_compile.c:4747-5580 | that tree is one that the encoding can express |
| `Preservation.CharExpanded` | libs/pcre-8.31/pcre_compile.c:4915-5050 | STAR, PLUS, QUERY, UPTO and EXACT with their combinations match as often as the quantifier says |
| `Preservation.ClassExpanded` | libs/pcre-8.31/pcre_compile.c:5059-5100 | so do the repeats of a class |
| `Preservation.GroupExpanded` | libs/pcre-8.31/pcre_compile.c:5137-5366 | copies, nested optional groups and a loop match exactly the spans of n rounds with min <= n <= max |
| `Preservation.Preserve` | libs/pcre-8.31/pcre_compile.c:3431-6997 | the code tree of a pattern, possessive repeats included, matches a span if and only if the pattern does, whatever changes of the caseless setting it has except between a repeat and a literal right behind it, unless an option refuses empty matches and an assertion's body is judged to have one |
| `Possession.Disjoint` | libs/pcre-8.31/pcre_compile.c:3078-3400 | when the table says that a repeat excludes the next item, no character matches both |
| `Possession.Possessify` | libs/pcre-8.31/pcre_compile.c:3025-3400 | before a next item that cannot be skipped, the possessive repeat and the plain one match the same spans together with any rest |
| `Possession.PossessiveExactly` | libs/pcre-8.31/pcre_compile.c:3065-3076 | making a repeat possessive before a given next item changes no match of any subject, whatever follows, if and only if that item is mandatory or no character matches the repeated one |
| `Possession.CountZeroBreaks` | libs/pcre-8.31/pcre_compile.c:3071-3073 | `a*b{0}a`: the plain pattern matches "a", the one the compiler makes does not |
| `Refinement.CompiledExactly` | libs/pcre-8.31/pcre_dfa_exec.c:569-1093 | unless an option refuses empty matches and an assertion's body is judged to have one, the graph of the compiled code, entered at s, can finish at j if and only if the pattern matches from s to j |
| `Refinement.CompiledSealed` | libs/pcre-8.31/pcre_dfa_exec.c:3025-3028 | a run over compiled code never meets an unsupported opcode |
| `Refinement.RecordedExactly` | libs/pcre-8.31/pcre_dfa_exec.c:777-793 | what the matcher records is the increasing list of all ends of the pattern that the options admit, or the least of them |
| `Load.AltsLoad` | libs/pcre-8.31/pcre_dfa_exec.c:346-390 | the pairs of offset and count that a run over an encoded tree can meet, and the states that they add, are no more than computed from the tree and the number of characters, for repeats with and without limits, nests and loops |
| `Load.AltsQuiet` | libs/pcre-8.31/pcre_dfa_exec.c:2619-2635 | a run needs room for its own tree only: if each assertion's body needs no more than its workspace holds, none is short of room, at any depth |
| `Refinement.CompiledRoom` | libs/pcre-8.31/pcre_dfa_exec.c:346-390 | so the room that a run on a compiled pattern can need is computed from the pattern, and whether its assertions have enough |
| `Crowd.CrowdExactly` | libs/pcre-8.31/pcre_dfa_exec.c:2619-2635 | the first list of an assertion's run has a state for each branch that can start there, and overflows exactly if these are more than 166 |
| `Crowd.CrowdBreaks` | libs/pcre-8.31/pcre_dfa_exec.c:2637-2638 | a negative lookahead with 167 alternatives "a" does not match at an "a", but its run has no room for the first list |
| `Crowd.CrowdTaken` | libs/pcre-8.31/pcre_dfa_exec.c:2614-2640 | the matcher, brought to that assertion, makes the run and adds the state behind the assertion, to which no edge of the graph leads |
| `NotEmpty.AheadNotEmpty` | libs/pcre-8.31/pcre_dfa_exec.c:777-781 | with NOTEMPTY a lookahead succeeds exactly if its body has a match that is not empty |
| `NotEmpty.AheadAtStart` | libs/pcre-8.31/pcre_dfa_exec.c:777-781 | with NOTEMPTY_ATSTART alone, a lookahead at or before the start offset needs such a match, and one behind it any match |
| `NotEmpty.BehindAdmits` | libs/pcre-8.31/pcre_dfa_exec.c:777-781 | a lookbehind succeeds exactly if its body matches up to its place and the options admit that end for a run that began as far back as the longest branch reaches |
| `NotEmpty.BehindNotEmpty` | libs/pcre-8.31/pcre_dfa_exec.c:777-781 | with NOTEMPTY exactly if it can begin before the place where it stands and its body matches up to that |
| `NotEmpty.HarmlessExactly` | libs/pcre-8.31/pcre_dfa_exec.c:777-781 | the options change the outcome of no lookahead with a given body without tests and assertions if and only if the computed answer is that the body cannot match the empty string, and that answer is right |
| `NotEmpty.HarmlessBehindExactly` | libs/pcre-8.31/pcre_dfa_exec.c:777-781 | they change the outcome of no lookbehind with such a body if and only if none of its branches has length 0 |
| `NotEmpty.NotEmptyBreaks` | libs/pcre-8.31/pcre_dfa_exec.c:777-781 | `(?=a*)b` matches "b", but with NOTEMPTY its code does not, although the match is not empty |
| `Buffer.Put` | libs/pcre-8.31/pcre_internal.h:403-405 | two units change, all others stay |
| `Buffer.ReadBack` | libs/pcre-8.31/pcre_internal.h:401-408 | a link in the buffer reads back what was stored |
| `Buffer.MoveUp` | libs/pcre-8.31/pcre_compile.c:5160-5172 | memmove of overlapping units keeps them in order |
| `Buffer.Insert` | libs/pcre-8.31/pcre_compile.c:5184-5204 | units are inserted in front of an item, which moves up unchanged |
| `Repetition.EmitChar` | libs/pcre-8.31/pcre_compile.c:4901-5050 | overwriting a single item by its repeat leaves the encoding of the expanded quantifier in the buffer |
| `Repetition.Harden` | libs/pcre-8.31/pcre_compile.c:5509-5570 | patching one opcode in place turns the encoding of the repeat into that of the possessive one, or leaves it where nothing is to do |
| `Replication.CloseNest` | libs/pcre-8.31/pcre_compile.c:5352-5366 | resolving the chain of pending brackets makes each inserted BRA and KET point at each other: what was a chain is the encoding of the nest |
| `Replication.AddOptional` | libs/pcre-8.31/pcre_compile.c:5299-5350 | each optional copy lengthens the chain by one |
| `Replication.SetRepeater` | libs/pcre-8.31/pcre_compile.c:5368-5475 | the last copy becomes a loop, and its bracket SBRA or SCBRA exactly if its body could be empty |
| `Replication.RepeatGroup` | libs/pcre-8.31/pcre_compile.c:5137-5475 | whatever the quantifier, the buffer ends with the encoding of the expanded group |
| `Replication.CopiesUnits` | libs/pcre-8.31/pcre_compile.c:5236-5260 | the encoding of n copies is n times the encoding of the group |
| `Estimate.PretendRegex` | libs/pcre-8.31/pcre_compile.c:7026-7290 | the pre-compile pass over a pattern, discarding code as it goes, returns exactly the cost of the pattern, or fails only when that cost is out of range |
| `Estimate.PretendRepeat` | libs/pcre-8.31/pcre_compile.c:5206-5296 | the pass adds the units of the copies and of the nest, or reports overflow exactly when they do not fit |
| `Estimate.Discard` | libs/pcre-8.31/pcre_compile.c:3547-3601 | discarding finished code keeps the sum of what is measured and what is still held |
| `Estimate.GroupSize` | libs/pcre-8.31/pcre_compile.c:5206-5296 | the expanded group is never longer than the group plus what the pass added for its quantifier |
| `Estimate.AltsBound` | libs/pcre-8.31/pcre_compile.c:3547-3601 | the encoding of a pattern's tree is never longer than its cost, so the pre-compile pass is a real bound |
| `Estimate.AltsExactly` | libs/pcre-8.31/pcre_compile.c:3547-3601 | and its cost is exactly the length of the encoding and the excess of the dropped items |
| `Brackets.ReverseChain` | libs/pcre-8.31/pcre_compile.c:7205-7218 | the in-place reversal turns the backward chain of an open bracket into the forward chain of a closed one, and touches nothing else |
| `Brackets.ClosedIsEncoded` | libs/pcre-8.31/pcre_compile.c:7198-7226 | the closed form of the branches is their encoding as alternatives |
| `Compiler.CompileRegex` | libs/pcre-8.31/pcre_compile.c:7026-7290 | compiling a bracket appends exactly the encoding of its tree, and fails exactly if some lookbehind has no fixed length |
| `Compiler.CompileBranch` | libs/pcre-8.31/pcre_compile.c:3431-6997 | the same for a branch, item by item |
| `Compiler.CompileAlternative` | libs/pcre-8.31/pcre_compile.c:7094-7196 | an alternative of a lookbehind gets its fixed length written into its OP_REVERSE |
| `Compiler.Compile` | libs/pcre-8.31/pcre_compile.c:7875-7975 | both passes: ERR20 exactly if the measured size is too large, else ERR25 exactly if a lookbehind has no fixed length, else the encoding of the pattern's tree, which is never longer than the allocated buffer, so that the overflow check never fires. Said by the code: ERR20 exactly if the encoding and the excess do not fit, and for a pattern that keeps all its items exactly if the encoding does not |
| `FixedLength.FindFixedLength` | libs/pcre-8.31/pcre_compile.c:1713-2014 | the walk over the bytes of a branch or a whole group returns the fixed length of its tree, or a negative number exactly if it has none |
| `FixedLength.ItemLength` | libs/pcre-8.31/pcre_compile.c:1722-2005 | the same for one item, and where the next begins |
| `Empty.NonEmptyAlts` | libs/pcre-8.31/pcre_compile.c:2330-2604 | alternatives judged non-empty have no empty match, whatever they contain |
| `EmptyScan.CouldBeEmptyBranch` | libs/pcre-8.31/pcre_compile.c:2330-2604 | the walk over the bytes of a branch returns that judgement |
| `EmptyScan.FirstSignificant` | libs/pcre-8.31/pcre_compile.c:1646-1680 | it stops at the first item that is not a negative lookahead, a lookbehind or a word-boundary test, or at the end of the branch |
| `EmptyScan.ScanGroup` | libs/pcre-8.31/pcre_compile.c:2376-2440 | for a group within a branch: the judgement over its alternatives, and its ket |
| `FirstReq.AltsSound` | libs/pcre-8.31/pcre_compile.c:7122-7161 | every match of a pattern begins with its first character; its required character lies in the match and after the first one if no lookahead sets it, in the subject and after the first one if no lookahead spoils that, and in any case in the subject from the match's start on |
| `Firsts.AltsFirst` | libs/pcre-8.31/pcre_compile.c:7122-7161 | the compiler finds a first character if and only if every alternative begins with that letter, behind tests other than a multiline ^ and assertions, itself, at least once, or in a group that does |
| `FirstReq.ItemSound` | libs/pcre-8.31/pcre_compile.c:6648-6696 | the same for what has been collected up to any item of a branch, for any quantifier and any lookahead |
| `FirstReq.MergeLeft` | libs/pcre-8.31/pcre_compile.c:7133-7161 | merging in another branch keeps what the earlier branches guarantee |
| `FirstReq.MergeRight` | libs/pcre-8.31/pcre_compile.c:7133-7161 | and takes only what the new branch guarantees too |
| `FirstReq.Collect` | libs/pcre-8.31/pcre_compile.c:7048-7161 | the compiler's variables for the two characters hold the characters that these lemmas are about |
| `FirstReq.CollectBranch` | libs/pcre-8.31/pcre_compile.c:3500-6997 | the same within a branch, with the values to fall back to under a zero repeat |
| `FirstReq.LookaheadBreaks` | libs/pcre-8.31/pcre_compile.c:6688-6696 | `(?=.*b)b` matches "b", but its first and required characters ask for two |
| `FirstReq.LookaheadExactly` | libs/pcre-8.31/pcre_compile.c:6688-6696 | for any lookahead and any state before it: whatever follows, every match has the required character where it is looked for, if and only if the lookahead sets none, or a first character is settled, or wherever the body matches and what is required already follows, its own character follows too |
| `FirstReq.PlainLookaheadExactly` | libs/pcre-8.31/pcre_compile.c:6688-6696 | for bodies of characters, repeats and groups, and any state before, the last part is a test on the body and on what is required already |
| `Lookahead.LateExactly` | libs/pcre-8.31/pcre_compile.c:6688-6696 | that test succeeds if and only if there is no subject in which the body matches, the character required already follows, and the lookahead's own does not |
| `Lookahead.LateFound` | libs/pcre-8.31/pcre_compile.c:6688-6696 | for any body, assertions and tests included, it is enough |
| `Asserted.FindFirstAssertedChar` | libs/pcre-8.31/pcre_compile.c:7517-7579 | the walk over the bytes finds the asserted character of the tree, or none |
| `Asserted.AssertedSound` | libs/pcre-8.31/pcre_compile.c:7517-7579 | if no step accepted a caseless literal for an earlier character with another case, every match of a tree begins with the asserted character, be its literals of one kind or of both |
| `Asserted.CasedTree` | libs/pcre-8.31/pcre_compile.c:4747-5580 | a pattern with one caseless setting compiles to a tree with that setting |
| `Asserted.CasedEven` | libs/pcre-8.31/pcre_compile.c:7561-7571 | and in such a tree every step is right |
| `Asserted.AssertedExactly` | libs/pcre-8.31/pcre_compile.c:7517-7579 | for a lookahead whose branches begin with literals and can match after each case of these: wherever it holds its asserted character stands, if and only if no step accepted a caseless literal for an earlier character with another case |
| `Asserted.FilledLively` | libs/pcre-8.31/pcre_compile.c:7517-7579 | branches of a literal and then characters, yielding repeats and groups, all with characters to match, can match so |
| `Asserted.MixedBreaks` | libs/pcre-8.31/pcre_compile.c:7561-7571 | `(?=ab` or `(?i)ac)`: the asserted character is "a", and there is a match at the start of "Ac" |
| `Required.FirstSound` | libs/pcre-8.31/pcre_compile.c:8071-8110 | every match begins with the program's first character, be it the pattern's own or an asserted one that was found rightly |
| `Required.FollowsFound` | libs/pcre-8.31/pcre_dfa_exec.c:3525-3550 | where the visible condition holds, every match has the required character after its first one |
| `Required.FollowsExactly` | libs/pcre-8.31/pcre_dfa_exec.c:3525-3550 | behind a lookahead at one character, all matches of all subjects have the required character after that one if and only if no character satisfies both or the rest needs it later |
| `Required.RequiredBreaks` | libs/pcre-8.31/pcre_dfa_exec.c:3525-3550 | "a" asserted before "a" or "ba" matches "a", where its required character does not come after its asserted first one |
| `Anchoring.AnchoredSound` | libs/pcre-8.31/pcre_compile.c:7336-7388 | if an anchored tree, whose leading lookaheads never hold past the start offset, matches from some start at or after the start offset, it matches from the start offset to the same end |
| `Anchoring.StartlineSound` | libs/pcre-8.31/pcre_compile.c:7412-7495 | if a tree that starts lines, whose leading lookaheads never hold inside a line, matches somewhere, it matches from the start of that line, or from the start offset, to the same end |
| `Anchoring.IsAnchored` | libs/pcre-8.31/pcre_compile.c:7336-7388 | the walk over the bytes decides whether the tree is anchored |
| `Anchoring.IsStartline` | libs/pcre-8.31/pcre_compile.c:7412-7495 | the walk over the bytes decides whether the tree starts lines |
| `Anchoring.AnchoredAheadBreaks` | libs/pcre-8.31/pcre_compile.c:7336-7388 | `(?=.*b)b`, taken to be anchored because of its lookahead, matches in "ab" at the second character and not at the first |
| `Anchoring.AnchoredAheadExactly` | libs/pcre-8.31/pcre_compile.c:7361-7367 | a leading lookahead is sound for that check, for every tail, subject and start, if and only if it never holds past the start offset |
| `Anchoring.StartlineAheadExactly` | libs/pcre-8.31/pcre_compile.c:7468-7473 | and for the check of line starts if and only if it never holds inside a line |
| `Anchoring.PinnedKeeps` | libs/pcre-8.31/pcre_compile.c:7336-7388 | it does not if each branch of its body begins with \A or ^, directly or in groups and lookaheads; for line starts also with a multiline ^ |
| `Anchoring.LeafExactly` | libs/pcre-8.31/pcre_compile.c:7370-7383 | of the single beginnings that the checks accept, before items that match somewhere, only these keep the lookahead in its place |
| `Anchoring.PinnedExactly` | libs/pcre-8.31/pcre_compile.c:7336-7388 | for bodies of such beginnings, in groups and nested lookaheads too, with rests that can match: the lookahead stays in its place if and only if every branch begins so |
| `Program.Build` | libs/pcre-8.31/pcre_compile.c:7853-8150 | the program has the code and exactly those start optimisations that the analyses find, in the order in which they are tried: anchoring, the pattern's own first character, an asserted one, line starts |
| `Program.NotAheadTree` | libs/pcre-8.31/pcre_compile.c:7336-7388 | a pattern without lookaheads compiles to a tree without leading ones |
| `Program.StartlineAheadBreaks` | libs/pcre-8.31/pcre_compile.c:7412-7495 | `(?=.*c)[^x]c` has no first character and is taken to start lines, but matches in "xac" at the second character and not at the first |
| `DfaExec.SkipToFirst` | libs/pcre-8.31/pcre_dfa_exec.c:3412-3425 | no skipped start begins with the first character, in either case |
| `DfaExec.SkipToLine` | libs/pcre-8.31/pcre_dfa_exec.c:3429-3450 | no skipped start is just after a newline |
| `DfaExec.FindRequired` | libs/pcre-8.31/pcre_dfa_exec.c:3525-3550 | the first place of the required character, in either case, or the end |
| `DfaExec.MissingMeans` | libs/pcre-8.31/pcre_dfa_exec.c:3507-3556 | if the required character is missing, neither this start nor any later one leads to anything, provided that the optimisations in force are justified |
| `Beyond.WantFirst` | libs/pcre-8.31/pcre_dfa_exec.c:3412-3425 | from a start without the program's first character nothing is reached beyond the start, so no path could use more of the subject |
| `Beyond.WantEarlier` | libs/pcre-8.31/pcre_dfa_exec.c:3429-3450 | what an anchored or line-starting program reaches at the subject's end from a later start it also reaches from the start offset, or from the start of that line |
| `DfaExec.Advance` | libs/pcre-8.31/pcre_dfa_exec.c:3380-3495 | under the same proviso, the starts that the optimisations skip neither match nor would be suspended |
| `DfaExec.AnchoredHit` | libs/pcre-8.31/pcre_dfa_exec.c:3590-3593 | an anchored program whose leading lookaheads stay in their place and that matches anywhere matches at the start offset, so leaving the loop changes nothing |
| `DfaExec.Exec` | libs/pcre-8.31/pcre_dfa_exec.c:3135-3611 | for any pattern in scope: if the lookaheads justify the optimisations in force, the options do not disturb the assertions and these had room, the result is that of the first admissible start that matches or is to be suspended: all its ends, longest first, or PARTIAL with all that is needed to go on; or NOMATCH exactly if there is no such start. A suspended call reports the earliest position that its attempt inspected. With the hard option, a pattern without assertions and multiline ^ and $ that found its matches has none beyond the end of the subject, whatever follows; and a live pattern that is suspended has one, given the right continuation. A workspace as large as the pattern demands is always enough, and assertions that are modest always have room |
| `DfaExec.LookFreeMeets` | libs/pcre-8.31/pcre_dfa_exec.c:3380-3556 | a pattern without lookarounds meets all these conditions, whatever the program, the options and the subject |
| `DfaExec.ReportedMatters` | libs/pcre-8.31/pcre_dfa_exec.c:3072-3080 | with any subject that is the same from the reported position on, the pattern of a suspended call matches the same from the same start, and that attempt is suspended alike, unless a multiline ^ depends on what is before |
| `DfaExec.NeverGrows` | libs/pcre-8.31/pcre_dfa_exec.c:3058-3082 | a call with the hard option that finds nothing would find nothing beyond the end from any start in the subject, whatever follows |
| `DfaExec.CompileAndExec` | libs/pcre-8.31/pcre_dfa_exec.c:3135-3611 | pattern to result, lookarounds included: refused exactly if too large or with a lookbehind of no fixed length; else the result is what the meaning demands if there are no lookarounds or they meet the conditions, and there is one whenever the workspace is as large as the pattern demands |
| `DfaExec.ExecRestart` | libs/pcre-8.31/pcre_dfa_exec.c:3190-3200 | a restarted call on the next piece records exactly the ends behind the boundary that the pattern has on all pieces together, and is suspended exactly if one call on all would be; a workspace for the saved states and what the pattern needs beside its starts is enough |
| `DfaExec.RestartExactly` | libs/pcre-8.31/pcre_dfa_exec.c:535-543 | finishing from saved states is matching the pattern over the joined subject |
| `DfaExec.ForetellAgain` | libs/pcre-8.31/pcre_dfa_exec.c:3190-3200 | a restarted call says the same of matches beyond the end of all the pieces |
| `Restart.RestartReaches` | libs/pcre-8.31/pcre_dfa_exec.c:535-543 | from the saved states the second run reaches exactly the nodes at or after the boundary that one run over both pieces reaches |
| `Restart.RestartLosesNothing` | libs/pcre-8.31/pcre_dfa_exec.c:535-543 | so it can finish exactly where the single run can |
| `Restart.RestartAgain` | libs/pcre-8.31/pcre_dfa_exec.c:535-543 | and if it is suspended again, its saved states serve the joined run in the same way, for any number of pieces |
| `Restart.TestExactly` | libs/pcre-8.31/pcre_dfa_exec.c:853-1050 | of the tests on positions, exactly the one for the very end comes out alike in the pieces and in the whole, whatever the pieces and their options |
| `NameTable.CompareOrder` | libs/pcre-8.31/pcre_compile.c:6098-6113 | the comparison of names is a total order |
| `NameTable.CompareExactly` | libs/pcre-8.31/pcre_compile.c:6098-6113 | and it is the order of a dictionary: a name comes first if and only if it ends, or has the smaller unit, where the two first differ |
| `NameTable.CompareSlot` | libs/pcre-8.31/pcre_compile.c:6098-6113 | comparing a name with a slot by its own length and then for a longer entry gives that order |
| `NameTable.Table.FindPlace` | libs/pcre-8.31/pcre_compile.c:6096-6130 | the place after all names that are not later, or ERR43 exactly for a name that has another number |
| `NameTable.Table.Insert` | libs/pcre-8.31/pcre_compile.c:6096-6155 | the table stays sorted and gains exactly the new entry, or is unchanged for ERR43; for ERR65 the later slots have already moved up by one and the gap is not filled; without DUPNAMES names and numbers stay one to one |
| `NameTable.Table.NumberTaken` | libs/pcre-8.31/pcre_compile.c:6130-6148 | the check of the number sees every entry of the table with its gap, and nothing else |
| `NameTable.TableHolds` | libs/pcre-8.31/pcre_compile.c:6096-6155 | the table that the compiler built is one that the lookup functions can search |
| `NameTable.GetStringNumber` | libs/pcre-8.31/pcre_get.c:66-115 | the bisection finds the number of a name in the table, and fails exactly if there is none |
| `NameTable.GetStringTableEntries` | libs/pcre-8.31/pcre_get.c:137-205 | it returns the whole run of entries with that name, no more and no less |
| `Parens.SameCount` | libs/pcre-8.31/pcre_compile.c:1551-1569 | the scan counts like the compiler, and branch-reset groups go back to the start and take the maximum |
| `Parens.FindParensSub` | libs/pcre-8.31/pcre_compile.c:1371-1574 | the scan of a group or of the pattern's text finds the number exactly if a group in it has that number, and otherwise leaves the counter as the compiler would |
| `Parens.FindParens` | libs/pcre-8.31/pcre_compile.c:1604-1624 | searching the text by number succeeds exactly for the numbers that the compiler gives |
| `ByteOrder.SwapTwice` | libs/pcre-8.31/pcre_byte_order.c:74-79 | swapping the bytes of a unit twice restores it |
| `ByteOrder.Opcode` | libs/pcre-8.31/pcre_byte_order.c:181-276 | the switch over the opcodes repairs an item up to its bit map, and knows how many units are left to swap |
| `ByteOrder.ToHostOrder` | libs/pcre-8.31/pcre_byte_order.c:148-281 | the walk restores the name table and all code in place, leaves the bit maps and everything behind alone, and stops at the same OP_END |
| `Lengths.AtomLength` | libs/pcre-8.31/pcre_internal.h:1854-1930 | the table's length of a single character, type or class is that of its encoding, a bit map counted in 16-bit units |
| `Lengths.RepeatLength` | libs/pcre-8.31/pcre_internal.h:1854-1930 | and so is that of every repeat, a count being one unit instead of two |
| `Lengths.BracketLength` | libs/pcre-8.31/pcre_internal.h:1854-1930 | and of every bracket, with one-unit links and group numbers |

## Left out

* Parsing: patterns are given as data, not as text. Options changed within a pattern, comments, \Q...\E,
  and extended mode are not part of this model; the text is present only in `Parens`.
* Atomic groups and possessive groups (OP_ONCE, BRAPOS), and with them the possessive repeats that the
  compiler expresses by wrapping: of classes, of `x{1,n}+`, and of a caseless character with a minimum of 2.
* Back references, recursion, conditionals, backtracking verbs, callouts and \K.
* UTF, Unicode properties, \R, \X, \h, \v, newlines other than LF, and study data.
* Quantified lookarounds, and the workspace limit of the pre-compile pass (ERR52).
* Names within patterns: `NameTable` and `Parens` stand on their own.
- Compiler.Compile: the first and the required character are collected by `FirstReq.Collect`, a second
  pass over the pattern, and not by the same calls that emit code.
- FirstReq.AltsSound: where a lookahead spoils the place of the required character, only that it is in the
  subject from the match's start on.
- Unseen.StepsExactly: for runs with assertions only that no multiline ^ in the way is enough (`Unseen.SameReached`); when
  a nested run stopped at its first end, what it did not come to was not inspected.
- Growth.WantingGrows: nothing for patterns with tests, assertions or repeats written possessive; whether a
  continuation satisfies these together is not computed.
- CharClass.RangeClass: a class of one range; the names of kinds inside a class are bit maps of tables that are not part of
  this model.
- Anchoring.AnchoredSound, Anchoring.StartlineSound: nothing for leading lookaheads that do not stay in their
  place; for these the law is false for some tail.
- Lookahead.LateFound: for bodies with tests, assertions or possessive repeats the test on the body is enough, but not
  necessary; `FirstReq.LookaheadExactly` is exact for them, with a condition on their matches.
- Preservation.Preserve: with an option that refuses empty matches, patterns with an assertion whose body is
  judged to match the empty string are left out here; that the code does what its tree means holds for them too.
- Asserted.AssertedSound: nothing where a step of the search was wrong; for lookaheads that begin with literals the
  character is then wrong (`Asserted.AssertedExactly`).
- Required.FollowsFound: the visible condition is exact behind a lookahead at one character
  (`Required.FollowsExactly`); behind longer lookaheads it is sufficient, because whether the lookahead and the rest can
  match together is not computed.
- Preservation.Preserve, Possession.Possessify: an option setting between two items is not an item of a pattern here, so a
  pattern that changes the caseless setting between a repeat and a literal right behind it is left out.
- Possession.Disjoint: leaves out the rows of the table for \h, \v and \R.
- DfaRun.InternalDfaExec: when the nested run of an assertion had no room left in its own workspace, nothing
  is stated about the ends, except that a first list that is too long decides the assertion (`DfaRun.StepLook`).
- DfaExec.Exec: where the lookaheads do not justify an optimisation in force, nothing is stated about which start
  is found. Whether a start at the very end of the subject is suspended is not stated.
- DfaExec.CompileAndExec: lookbehinds of 65536 or more characters, and the other patterns outside
  `Refinement.InScope`.
- DfaExec.ExecRestart: the pattern has no lookarounds, and of the tests on positions only \z, because the others
  would look at characters of another piece, which the source does not see (`Restart.TestExactly`).
- Matcher.Workspace.constructor: the workspace is two vectors of records and two numbers, not one vector of
  integers.
- NameTable.Table.Insert: the slots are an array of units of fixed length, not one array of bytes. After ERR65 the
  table is no longer valid; the compiler then gives up the whole pattern.
- Parens.FindParens: the text has literals, escaped punctuation, and capturing, `(?:` and `(?|` groups; names,
  classes, \Q and comments are left out.
- ByteOrder.ToHostOrder: the header fields, 16-bit surrogates, property repeats and verbs with arguments are
  left out.
* `get_first_set`, the UTF-16 helpers and `get_othercase_range`: easy or dependent on tables that are not shown.
