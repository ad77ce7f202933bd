/** Two ways of numbering capturing groups: the compiler's counter, and the scan of the pattern's
    text that looks for a group by its number. They agree. */
module Parens {

  datatype Kind = Capture | NonCapture | Reset

  /** Patterns of literals, escaped punctuation and plain, "(?:" and "(?|" groups. */
  datatype Token = Literal(c: char) | Escaped(c: char) | Group(kind: Kind, body: Alternatives)

  datatype Tokens = None | Then(head: Token, tail: Tokens)

  datatype Alternatives = Only(branch: Tokens) | Or(branch: Tokens, rest: Alternatives)

  predicate IsLiteral(c: char) { c !in "\\^$.[|()?*+{\0" }

  predicate IsPunctuation(c: char) {
    c != '\0' && !('a' <= c <= 'z') && !('A' <= c <= 'Z') && !('0' <= c <= '9')
  }

  predicate ValidToken(k: Token) {
    match k
    case Literal(c) => IsLiteral(c)
    case Escaped(c) => IsPunctuation(c)
    case Group(_, body) => ValidAlternatives(body)
  }

  predicate ValidTokens(ts: Tokens) { ts.Then? ==> ValidToken(ts.head) && ValidTokens(ts.tail) }

  predicate ValidAlternatives(al: Alternatives) { ValidTokens(al.branch) && (al.Or? ==> ValidAlternatives(al.rest)) }

  // ----- the text -----

  function TokenText(k: Token): (s: string)
    ensures s != ""
  {
    match k
    case Literal(c) => [c]
    case Escaped(c) => ['\\', c]
    case Group(kind, body) => Opening(kind) + Text(body) + ")"
  }

  function Opening(kind: Kind): string {
    match kind
    case Capture => "("
    case NonCapture => "(?:"
    case Reset => "(?|"
  }

  function TokensText(ts: Tokens): string { if ts.None? then "" else TokenText(ts.head) + TokensText(ts.tail) }

  function Text(al: Alternatives): string { TokensText(al.branch) + if al.Or? then "|" + Text(al.rest) else "" }

  // ----- the compiler's numbers -----

  function Larger(a: nat, b: nat): nat { if a < b then b else a }

  /** The counter after an item, when it was `n` before. */
  function CountToken(k: Token, n: nat): nat {
    match k
    case Group(Capture, body) => CountAlternatives(body, n + 1, n + 1, n + 1, false)
    case Group(NonCapture, body) => CountAlternatives(body, n, n, n, false)
    case Group(Reset, body) => CountAlternatives(body, n, n, n, true)
    case _ => n
  }

  function CountTokens(ts: Tokens, n: nat): nat { if ts.None? then n else CountTokens(ts.tail, CountToken(ts.head, n)) }

  /** The branches of a group: with `reset` each starts again from `orig`; the highest count is kept. */
  function CountAlternatives(al: Alternatives, n: nat, orig: nat, max: nat, reset: bool): nat {
    var m := CountTokens(al.branch, if reset then orig else n);
    if al.Only? then Larger(max, m) else CountAlternatives(al.rest, m, orig, Larger(max, m), reset)
  }

  /** The numbers that capturing groups get. */
  function TokenNumbers(k: Token, n: nat): set<nat> {
    match k
    case Group(Capture, body) => {n + 1} + Numbers(body, n + 1, n + 1, false)
    case Group(NonCapture, body) => Numbers(body, n, n, false)
    case Group(Reset, body) => Numbers(body, n, n, true)
    case _ => {}
  }

  function TokensNumbers(ts: Tokens, n: nat): set<nat> {
    if ts.None? then {} else TokenNumbers(ts.head, n) + TokensNumbers(ts.tail, CountToken(ts.head, n))
  }

  function Numbers(al: Alternatives, n: nat, orig: nat, reset: bool): set<nat> {
    var m := if reset then orig else n;
    TokensNumbers(al.branch, m) + if al.Or? then Numbers(al.rest, CountTokens(al.branch, m), orig, reset) else {}
  }

  lemma {:induction false} CountGrows(ts: Tokens, n: nat)
    ensures n <= CountTokens(ts, n)
    decreases ts
  {
    if ts.Then? {
      if ts.head.Group? {
        var n1 := if ts.head.kind.Capture? then n + 1 else n;
        CountKeeps(ts.head.body, n1, n1, n1, ts.head.kind.Reset?);
      }
      CountGrows(ts.tail, CountToken(ts.head, n));
    }
  }

  lemma {:induction false} CountKeeps(al: Alternatives, n: nat, orig: nat, max: nat, reset: bool)
    ensures max <= CountAlternatives(al, n, orig, max, reset)
    decreases al
  {
    if al.Or? {
      var m := CountTokens(al.branch, if reset then orig else n);
      CountKeeps(al.rest, m, orig, Larger(max, m), reset);
    }
  }

  // ----- the scan's counter -----

  /** What the scan makes of the counter in the rest `al` of a group or of the pattern. */
  function ScanCount(al: Alternatives, n: nat, start: nat, hwm: nat, dup: bool): nat {
    var m := CountTokens(al.branch, n);
    if al.Only? then (if dup && m < hwm then hwm else m)
    else if dup then ScanCount(al.rest, start, start, Larger(hwm, m), dup)
    else ScanCount(al.rest, m, start, hwm, dup)
  }

  /** The scan and the compiler count alike. */
  lemma {:induction false} SameCount(al: Alternatives, n: nat, orig: nat, max: nat, reset: bool)
    requires reset ==> n == orig
    requires !reset ==> max <= n
    ensures CountAlternatives(al, n, orig, max, reset) == ScanCount(al, n, orig, max, reset)
    decreases al
  {
    var m := CountTokens(al.branch, n);
    CountGrows(al.branch, n);
    if al.Or? {
      if reset {
        SameRest(al.rest, m, orig, Larger(max, m));
        SameCount(al.rest, orig, orig, Larger(max, m), reset);
      } else {
        SameCount(al.rest, m, orig, Larger(max, m), reset);
        ScanSame(al.rest, m, orig, max, orig, Larger(max, m));
      }
    }
  }

  /** With `reset` the counter at a branch's start does not matter, without it the mark does not. */
  lemma SameRest(al: Alternatives, m: nat, orig: nat, max: nat)
    ensures CountAlternatives(al, m, orig, max, true) == CountAlternatives(al, orig, orig, max, true)
    ensures Numbers(al, m, orig, true) == Numbers(al, orig, orig, true)
  {
  }

  lemma {:induction false} ScanSame(al: Alternatives, n: nat, start: nat, hwm: nat, start2: nat, hwm2: nat)
    ensures ScanCount(al, n, start, hwm, false) == ScanCount(al, n, start2, hwm2, false)
    ensures Numbers(al, n, start, false) == Numbers(al, n, start2, false)
    decreases al
  {
    if al.Or? {
      ScanSame(al.rest, CountTokens(al.branch, n), start, hwm, start2, hwm2);
    }
  }

  // ----- the scan -----

  function CharAt(text: string, i: nat): char { if i < |text| then text[i] else '\0' }

  /** The text from `ptr` on is that of the rest of the alternatives, and then `after`. */
  ghost predicate Before(text: string, ptr: nat, al: Alternatives, after: string) {
    ValidAlternatives(al) && ptr <= |text| && text[ptr..] == Text(al) + after
  }

  lemma AtEnd(text: string, ptr: nat, al: Alternatives, after: string)
    requires Before(text, ptr, al, after) && al.branch.None? && al.Only?
    ensures text[ptr..] == after
  {
    assert "" + after == after;
  }

  lemma AtBar(text: string, ptr: nat, al: Alternatives, after: string)
    requires Before(text, ptr, al, after) && al.branch.None? && al.Or?
    ensures ptr < |text| && text[ptr] == '|' && Before(text, ptr + 1, al.rest, after)
  {
    var rest := Text(al.rest);
    assert TokensText(al.branch) == "";
    assert "" + ("|" + rest) + after == "|" + (rest + after);
    SplitText(text, ptr, "|", rest + after);
    assert text[ptr] == text[ptr..ptr + 1][0];
  }

  lemma AtToken(text: string, ptr: nat, al: Alternatives, after: string)
    requires Before(text, ptr, al, after) && al.branch.Then?
    ensures var k := al.branch.head;
            && ValidToken(k) && ptr + |TokenText(k)| <= |text| && text[ptr..ptr + |TokenText(k)|] == TokenText(k)
            && text[ptr..] == TokenText(k) + (Text(Passed(al)) + after)
            && Before(text, ptr + |TokenText(k)|, Passed(al), after)
  {
    hide Text, TokenText;
    var s := TokenText(al.branch.head);
    TextPassed(al);
    assert s + Text(Passed(al)) + after == s + (Text(Passed(al)) + after);
    SplitText(text, ptr, s, Text(Passed(al)) + after);
  }

  /** The alternatives without their first item. */
  function Passed(al: Alternatives): Alternatives
    requires al.branch.Then?
  {
    if al.Only? then Only(al.branch.tail) else Or(al.branch.tail, al.rest)
  }

  lemma TextPassed(al: Alternatives)
    requires ValidAlternatives(al) && al.branch.Then?
    ensures ValidToken(al.branch.head) && ValidAlternatives(Passed(al))
    ensures Text(al) == TokenText(al.branch.head) + Text(Passed(al))
  {
    var s, u := TokenText(al.branch.head), TokensText(al.branch.tail);
    var v := if al.Or? then "|" + Text(al.rest) else "";
    assert s + u + v == s + (u + v);
    assert ValidTokens(al.branch);
  }

  lemma SplitText(text: string, ptr: nat, s: string, rest: string)
    requires ptr <= |text| && text[ptr..] == s + rest
    ensures ptr + |s| <= |text| && text[ptr..ptr + |s|] == s && text[ptr + |s|..] == rest
  {
    assert text[ptr..][..|s|] == s && text[ptr..][|s|..] == rest;
  }

  /** Numbers still to be given when the current branch has come to counter `n`. */
  function RestNumbers(al: Alternatives, n: nat, start: nat, dup: bool): set<nat> {
    TokensNumbers(al.branch, n) + if al.Or? then Numbers(al.rest, CountTokens(al.branch, n), start, dup) else {}
  }

  lemma FirstChar(al: Alternatives, after: string)
    requires ValidAlternatives(al) && after != "" && after[0] == ')'
    ensures var s := Text(al) + after; s[0] != '?' && s[0] != '*'
  {
    if al.branch.Then? {
      TextPassed(al);
      assert (Text(al) + after)[0] == TokenText(al.branch.head)[0];
    } else if al.Or? {
      assert (Text(al) + after)[0] == '|';
    } else {
      assert Text(al) + after == after;
    }
  }

  /** At an opening parenthesis: the rest of the group, as the loop will find it. In a "(?:" group
      the loop starts at the colon, which it takes for a literal. */
  function Entered(kind: Kind, body: Alternatives): Alternatives {
    if kind.NonCapture? then
      (if body.Only? then Only(Then(Literal(':'), body.branch)) else Or(Then(Literal(':'), body.branch), body.rest))
    else body
  }

  lemma GroupText(text: string, ptr: nat, kind: Kind, body: Alternatives, after: string)
    requires ValidAlternatives(body) && ptr <= |text| && text[ptr..] == Opening(kind) + Text(body) + ")" + after
    ensures CharAt(text, ptr) == '('
    ensures kind.Capture? ==> CharAt(text, ptr + 1) != '?' && CharAt(text, ptr + 1) != '*' && Before(text, ptr + 1, body, ")" + after)
    ensures kind.NonCapture? ==>
      CharAt(text, ptr + 1) == '?' && CharAt(text, ptr + 2) == ':' && Before(text, ptr + 2, Entered(kind, body), ")" + after)
    ensures kind.Reset? ==>
      CharAt(text, ptr + 1) == '?' && CharAt(text, ptr + 2) == '|' && Before(text, ptr + 3, body, ")" + after)
  {
    hide Text, ValidAlternatives;
    var s := Text(body) + (")" + after);
    assert Opening(kind) + Text(body) + ")" + after == Opening(kind) + s;
    SplitText(text, ptr, Opening(kind), s);
    OpeningChars(text, ptr, kind);
    match kind
    case Capture =>
      FirstChar(body, ")" + after);
      assert text[ptr + 1..][0] == text[ptr + 1];
    case NonCapture => ColonLiteral(text, ptr + 2, body, ")" + after);
    case Reset =>
  }

  /** The loop of a "(?:" group begins at the colon. */
  lemma ColonLiteral(text: string, ptr: nat, body: Alternatives, after: string)
    requires ValidAlternatives(body) && ptr < |text| && text[ptr] == ':' && text[ptr + 1..] == Text(body) + after
    ensures Before(text, ptr, Entered(NonCapture, body), after)
  {
    hide Text, ValidAlternatives;
    ColonText(Entered(NonCapture, body), body);
    assert text[ptr..] == ":" + text[ptr + 1..];
    assert ":" + (Text(body) + after) == ":" + Text(body) + after;
  }

  lemma OpeningChars(text: string, ptr: nat, kind: Kind)
    requires ptr + |Opening(kind)| <= |text| && text[ptr..ptr + |Opening(kind)|] == Opening(kind)
    ensures forall k | 0 <= k < |Opening(kind)| :: text[ptr + k] == Opening(kind)[k]
  {
    forall k | 0 <= k < |Opening(kind)|
      ensures text[ptr + k] == Opening(kind)[k]
    {
      assert text[ptr..ptr + |Opening(kind)|][k] == text[ptr + k];
    }
  }

  lemma ColonText(e: Alternatives, body: Alternatives)
    requires ValidAlternatives(body) && e == Entered(NonCapture, body)
    ensures ValidAlternatives(e) && Text(e) == ":" + Text(body)
  {
    assert Passed(e) == body;
    assert ValidTokens(e.branch);
    TextPassed(e);
    assert TokenText(Literal(':')) == ":";
  }

  /** Passing an item, or a bar, in the middle of the scan. */
  lemma PassItem(al: Alternatives, n: nat, start: nat, hwm: nat, dup: bool)
    requires al.branch.Then?
    ensures var m := CountToken(al.branch.head, n);
            && RestNumbers(al, n, start, dup) == TokenNumbers(al.branch.head, n) + RestNumbers(Passed(al), m, start, dup)
            && ScanCount(al, n, start, hwm, dup) == ScanCount(Passed(al), m, start, hwm, dup)
  {
  }

  lemma PassBar(al: Alternatives, n: nat, start: nat, hwm: nat, dup: bool)
    requires al.branch.None? && al.Or?
    ensures var m := if dup then start else n;
            && RestNumbers(al, n, start, dup) == RestNumbers(al.rest, m, start, dup)
            && ScanCount(al, n, start, hwm, dup) == ScanCount(al.rest, m, start, if dup then Larger(hwm, n) else hwm, dup)
  {
  }

  /** What is still to be found and counted once the loop is reached. */
  lemma EnterGroup(kind: Kind, body: Alternatives, n: nat)
    ensures var n1 := if kind.Capture? then n + 1 else n;
            && TokenNumbers(Group(kind, body), n) == (if kind.Capture? then {n1} else {}) + RestNumbers(Entered(kind, body), n1, n, kind.Reset?)
            && CountToken(Group(kind, body), n) == ScanCount(Entered(kind, body), n1, n, n, kind.Reset?)
  {
    var n1 := if kind.Capture? then n + 1 else n;
    SameCount(body, n1, n1, n1, kind.Reset?);
    if !kind.Reset? {
      ScanSame(body, n1, n1, n1, n, n);
    }
    var e := Entered(kind, body);
    if kind.NonCapture? {
      PassItem(e, n, n, n, false);
      assert Passed(e) == body;
    }
    if body.Or? && !kind.Reset? {
      ScanSame(body.rest, CountTokens(body.branch, n1), n1, n1, n, n);
    }
  }

  /** What kind of item a character begins. */
  lemma TokenChars(text: string, ptr: nat, k: Token)
    requires ValidToken(k) && ptr + |TokenText(k)| <= |text| && text[ptr..ptr + |TokenText(k)|] == TokenText(k)
    ensures k.Literal? ==> IsLiteral(text[ptr]) && |TokenText(k)| == 1
    ensures k.Escaped? ==> text[ptr] == '\\' && |TokenText(k)| == 2 && text[ptr + 1] == k.c
    ensures k.Group? ==> text[ptr] == '(' && |TokenText(k)| > 1 && text[ptr + |TokenText(k)| - 1] == ')'
  {
    var s := TokenText(k);
    assert text[ptr..ptr + |s|][0] == text[ptr] == s[0];
    assert text[ptr..ptr + |s|][|s| - 1] == text[ptr + |s| - 1] == s[|s| - 1];
  }

  /** find_parens_sub, looking for the number `lorn`. It begins either at the opening parenthesis
      of the group `g` (`grouped`), or somewhere else outside all groups, where `al` is left. */
  method FindParensSub(text: string, ptr0: nat, lorn: nat, count0: nat, ghost grouped: bool, ghost g: Token,
                       ghost al: Alternatives, ghost after: string)
    returns (rc: int, ptr: nat, count: nat)
    requires ptr0 <= |text| && (CharAt(text, ptr0) == '(' <==> grouped)
    requires if grouped then g.Group? && ValidToken(g) && text[ptr0..] == TokenText(g) + after else Before(text, ptr0, al, "")
    ensures rc == lorn > 0 || rc == -1
    ensures rc > 0 <==> lorn in if grouped then TokenNumbers(g, count0) else RestNumbers(al, count0, count0, false)
    ensures rc < 0 && grouped ==> count == CountToken(g, count0) && ptr0 < ptr <= |text| && text[ptr..] == ")" + after
    ensures rc < 0 && !grouped ==> ptr == |text|
    decreases |text| - ptr0
  {
    hide Text, TokenText, RestNumbers, ScanCount, TokenNumbers, CountToken, Before;
    ptr, count := ptr0, count0;
    var startCount, hwm, dup := count, count, false;
    ghost var cur, closer := al, "";
    ghost var all := if grouped then TokenNumbers(g, count0) else RestNumbers(al, count0, count0, false);
    if CharAt(text, ptr) == '(' {
      GroupIs(g);
      GroupText(text, ptr, g.kind, g.body, after);
      EnterGroup(g.kind, g.body, count0);
      cur, closer := Entered(g.kind, g.body), ")" + after;
      if CharAt(text, ptr + 1) != '?' {
        count := count + 1;
        if count == lorn { return lorn, ptr, count; }
        ptr := ptr + 1;
      } else if CharAt(text, ptr + 2) == '|' {
        ptr := ptr + 3;
        dup := true;
      } else {
        ptr := ptr + 2;
      }
    }
    ghost var total := ScanCount(cur, count, startCount, hwm, dup);
    while ptr < |text|
      invariant ptr0 <= ptr <= |text| && (grouped ==> ptr0 < ptr) && Before(text, ptr, cur, closer)
      invariant lorn in all <==> lorn in RestNumbers(cur, count, startCount, dup)
      invariant total == ScanCount(cur, count, startCount, hwm, dup)
    {
      ghost var was := ptr;
      if cur.branch.Then? {
        AtToken(text, ptr, cur, closer);
        TokenChars(text, ptr, cur.branch.head);
        PassItem(cur, count, startCount, hwm, dup);
        GroupNumbers(cur.branch.head, count);
      } else if cur.Or? {
        AtBar(text, ptr, cur, closer);
        PassBar(cur, count, startCount, hwm, dup);
      } else {
        AtEnd(text, ptr, cur, closer);
        EndNumbers(cur, count, startCount, hwm, dup);
        assert grouped && text[ptr] == text[ptr..][0] == ')';
      }
      if text[ptr] == '\\' {
        ptr := ptr + 2;
        cur := Passed(cur);
        continue;
      }
      if text[ptr] == '(' {
        rc, ptr, count := FindParensSub(text, ptr, lorn, count, true, cur.branch.head, cur, Text(Passed(cur)) + closer);
        if rc > 0 { return; }
        GroupClose(text, was, ptr, cur.branch.head, Text(Passed(cur)) + closer);
        cur := Passed(cur);
      } else if text[ptr] == ')' {
        if dup && count < hwm {
          count := hwm;
        }
        return -1, ptr, count;
      } else if text[ptr] == '|' {
        if dup {
          if count > hwm { hwm := count; }
          count := startCount;
        }
        cur := cur.rest;
      } else {
        cur := Passed(cur);
      }
      ptr := ptr + 1;
    }
    Finished(text, ptr, cur, closer, count, startCount, hwm, dup);
    rc := -1;
  }

  lemma GroupIs(g: Token)
    requires g.Group? && ValidToken(g)
    ensures ValidAlternatives(g.body) && g == Group(g.kind, g.body)
    ensures TokenText(g) == Opening(g.kind) + Text(g.body) + ")"
  {
  }

  lemma GroupNumbers(k: Token, n: nat)
    ensures !k.Group? ==> TokenNumbers(k, n) == {} && CountToken(k, n) == n
  {
  }

  lemma EndNumbers(al: Alternatives, n: nat, start: nat, hwm: nat, dup: bool)
    requires al.branch.None? && al.Only?
    ensures RestNumbers(al, n, start, dup) == {} && ScanCount(al, n, start, hwm, dup) == if dup && n < hwm then hwm else n
  {
  }

  /** The closing parenthesis of a nested group is where its text ends. */
  lemma GroupClose(text: string, was: nat, ptr: nat, k: Token, rest: string)
    requires was < ptr <= |text| && text[was..] == TokenText(k) + rest && text[ptr..] == ")" + rest
    ensures ptr + 1 == was + |TokenText(k)|
  {
    assert |text| - was == |TokenText(k)| + |rest| && |text| - ptr == 1 + |rest|;
  }

  lemma SomeText(ts: Tokens)
    ensures ts.Then? ==> |TokensText(ts)| > 0
  {
  }

  /** At the end of the text nothing is left. */
  lemma Finished(text: string, ptr: nat, cur: Alternatives, closer: string, n: nat, start: nat, hwm: nat, dup: bool)
    requires ptr == |text| && Before(text, ptr, cur, closer)
    ensures closer == "" && RestNumbers(cur, n, start, dup) == {}
  {
    assert Text(cur) + closer == "";
    assert |Text(cur)| == 0 && closer == "";
    SomeText(cur.branch);
  }

  lemma StartText(p: Alternatives)
    requires ValidAlternatives(p)
    ensures Before(Text(p), 0, p, "") && Numbers(p, 0, 0, false) == RestNumbers(p, 0, 0, false)
  {
    assert Text(p) + "" == Text(p);
  }

  lemma StartsGroup(text: string, ptr: nat, cur: Alternatives)
    requires Before(text, ptr, cur, "") && CharAt(text, ptr) == '('
    ensures cur.branch.Then? && cur.branch.head.Group? && ValidToken(cur.branch.head)
  {
    hide Text, TokenText;
    if cur.branch.Then? {
      AtToken(text, ptr, cur, "");
      TokenChars(text, ptr, cur.branch.head);
    } else if cur.Or? {
      AtBar(text, ptr, cur, "");
    } else {
      AtEnd(text, ptr, cur, "");
    }
  }

  lemma RestSame(al: Alternatives, n: nat, start: nat, start2: nat)
    ensures RestNumbers(al, n, start, false) == RestNumbers(al, n, start2, false)
  {
    if al.Or? {
      ScanSame(al.rest, CountTokens(al.branch, n), start, start, start2, start2);
    }
  }

  /** find_parens: the scan is repeated from where it stopped until the text ends. It finds exactly
      the numbers that the compiler gives. */
  method FindParens(p: Alternatives, lorn: nat) returns (rc: int)
    requires ValidAlternatives(p)
    ensures rc == lorn > 0 || rc == -1
    ensures rc > 0 <==> lorn in Numbers(p, 0, 0, false)
  {
    hide Text, TokenText, RestNumbers, TokenNumbers, CountToken, Before, Numbers;
    var text := Text(p);
    var ptr, count := 0, 0;
    ghost var cur := p;
    StartText(p);
    while true
      invariant ptr <= |text| && Before(text, ptr, cur, "")
      invariant lorn in Numbers(p, 0, 0, false) <==> lorn in RestNumbers(cur, count, count, false)
      decreases |text| - ptr
    {
      ghost var was, n := ptr, count;
      ghost var g := Literal('x');
      if CharAt(text, ptr) == '(' {
        StartsGroup(text, ptr, cur);
        AtToken(text, ptr, cur, "");
        PassItem(cur, count, count, count, false);
        g := cur.branch.head;
      }
      ghost var grouped := CharAt(text, ptr) == '(';
      rc, ptr, count := FindParensSub(text, ptr, lorn, count, grouped, g, cur, if grouped then Text(Passed(cur)) + "" else "");
      if rc > 0 || CharAt(text, ptr) == '\0' {
        if grouped && rc < 0 { assert text[ptr..][0] == text[ptr]; }
        return;
      }
      GroupClose(text, was, ptr, g, Text(Passed(cur)) + "");
      RestSame(Passed(cur), count, n, count);
      cur := Passed(cur);
      ptr := ptr + 1;
    }
  }
}
