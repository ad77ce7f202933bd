/** The alternatives of a bracket while it is open, each ALT linked back to the one before it,
    and the in-place reversal of that chain when the bracket closes. */
module Brackets {
  import opened Bytecode
  import opened Tree
  import opened Buffer

  /** How far the last of several branches' ALT is from the one before it (or the bracket). */
  function BackLink(header: nat, bs: seq<seq<Byte>>): nat
    requires |bs| >= 2
  {
    (if |bs| == 2 then header else 1 + LINK_SIZE) + |bs[|bs| - 2]|
  }

  /** The branches of a bracket that is still open. */
  function OpenBytes(header: nat, bs: seq<seq<Byte>>): seq<Byte>
    requires |bs| > 0
  {
    var n := |bs|;
    if n == 1 then bs[0]
    else OpenBytes(header, bs[..n - 1]) + [OP_ALT] + Two(BackLink(header, bs)) + bs[n - 1]
  }

  /** The branches of a closed bracket, and what follows the first of them. */
  function ClosedBytes(bs: seq<seq<Byte>>): seq<Byte>
    requires |bs| > 0
    decreases |bs|, 1
  {
    bs[0] + Following(bs)
  }

  function Following(bs: seq<seq<Byte>>): seq<Byte>
    requires |bs| > 0
    decreases |bs|, 0
  {
    if |bs| == 1 then [] else [OP_ALT] + Two(1 + LINK_SIZE + |bs[1]|) + ClosedBytes(bs[1..])
  }

  lemma OpenStep(header: nat, bs: seq<seq<Byte>>, b: seq<Byte>)
    requires |bs| > 0
    ensures OpenBytes(header, bs + [b])
         == OpenBytes(header, bs) + [OP_ALT] + Two((if |bs| == 1 then header else 1 + LINK_SIZE) + |bs[|bs| - 1]|) + b
  {
    assert (bs + [b])[..|bs|] == bs;
  }

  lemma FollowingStep(bs: seq<seq<Byte>>, j: nat)
    requires 0 < j < |bs|
    ensures Following(bs[j - 1..]) == [OP_ALT] + Two(1 + LINK_SIZE + |bs[j]|) + (bs[j] + Following(bs[j..]))
  {
    assert bs[j - 1..][1..] == bs[j..];
  }

  /** Offset, in an open bracket, of the ALT (or the bracket's own opcode) before branch `j`. */
  function HeadAt(header: nat, bs: seq<seq<Byte>>, j: nat): nat
    requires j < |bs|
  {
    if j == 0 then 0 else header + |OpenBytes(header, bs[..j])|
  }

  lemma HeadStep(header: nat, bs: seq<seq<Byte>>, j: nat)
    requires 0 < j < |bs|
    ensures BackLink(header, bs[..j + 1]) == (if j == 1 then header else 1 + LINK_SIZE) + |bs[j - 1]|
    ensures HeadAt(header, bs, j) == HeadAt(header, bs, j - 1) + BackLink(header, bs[..j + 1])
    ensures OpenBytes(header, bs[..j + 1])
         == OpenBytes(header, bs[..j]) + [OP_ALT] + Two(BackLink(header, bs[..j + 1])) + bs[j]
  {
    assert bs[..j + 1][..j] == bs[..j];
    if j > 1 {
      assert bs[..j][..j - 1] == bs[..j - 1];
    }
  }

  /** The units in use while branches `j` and later have been closed. */
  ghost predicate Halfway(units: seq<Byte>, front: seq<Byte>, num: seq<Byte>, bs: seq<seq<Byte>>, j: nat)
    requires j < |bs|
  {
    units == front + Two(0) + (num + (OpenBytes(1 + LINK_SIZE + |num|, bs[..j + 1]) + Following(bs[j..])))
  }

  /** Reverse the chain: `front` ends with the bracket's opcode, whose link is still 0; `num` is
      the number of a capturing group. */
  method ReverseChain(buf: array<Byte>, last: nat, code: nat, ghost front: seq<Byte>, ghost num: seq<Byte>, ghost bs: seq<seq<Byte>>)
    requires |bs| > 0 && |front| > 0 && code <= buf.Length <= MAX_PATTERN_SIZE
    requires Halfway(buf[..code], front, num, bs, |bs| - 1)
    requires last == |front| - 1 + HeadAt(1 + LINK_SIZE + |num|, bs, |bs| - 1)
    modifies buf
    ensures buf[..code] == front + Two(1 + LINK_SIZE + |num| + |bs[0]|) + (num + ClosedBytes(bs))
  {
    hide OpenBytes, Following, ClosedBytes, Two, Halfway;
    ghost var header := 1 + LINK_SIZE + |num|;
    ghost var j := |bs| - 1;
    var branch: nat := last;
    LastLength(buf[..code], front, num, bs);
    var length: nat := code - last;
    var more := true;
    while more
      invariant more ==> 0 <= j < |bs| && Halfway(buf[..code], front, num, bs, j)
      invariant more ==> branch == |front| - 1 + HeadAt(header, bs, j)
      invariant more ==> length == (if j == 0 then header else 1 + LINK_SIZE) + |bs[j]|
      invariant !more ==> buf[..code] == front + Two(header + |bs[0]|) + (num + ClosedBytes(bs))
      decreases more, j
    {
      var previous := CloseBranch(buf, branch, code, length, front, num, bs, j);
      length := previous;
      branch := branch - previous;
      more := length > 0;
      j := j - 1;
    }
  }

  lemma LastLength(units: seq<Byte>, front: seq<Byte>, num: seq<Byte>, bs: seq<seq<Byte>>)
    requires |bs| > 0 && |front| > 0 && Halfway(units, front, num, bs, |bs| - 1)
    ensures var h := 1 + LINK_SIZE + |num|; var j := |bs| - 1;
            |units| - (|front| - 1 + HeadAt(h, bs, j)) == (if j == 0 then h else 1 + LINK_SIZE) + |bs[j]|
  {
    hide Two;
    var h := 1 + LINK_SIZE + |num|;
    var j := |bs| - 1;
    assert bs[..j + 1] == bs;
    assert Following(bs[j..]) == [];
    if j > 0 {
      HeadStep(h, bs, j);
    }
  }

  lemma BeforeAlt(front: seq<Byte>, link: seq<Byte>, num: seq<Byte>, open: seq<Byte>, alt: seq<Byte>, back: seq<Byte>,
                  b: seq<Byte>, rest: seq<Byte>)
    ensures front + link + (num + ((open + alt + back + b) + rest)) == (front + link + num + open + alt) + back + (b + rest)
  {
    var p := front + link;
    assert p + (num + ((open + alt + back + b) + rest)) == (p + num + open + alt) + back + (b + rest);
  }

  lemma AfterAlt(front: seq<Byte>, link: seq<Byte>, num: seq<Byte>, open: seq<Byte>, alt: seq<Byte>, next: seq<Byte>, rest: seq<Byte>)
    ensures (front + link + num + open + alt) + next + rest == front + link + (num + (open + (alt + next + rest)))
  {
    var p := front + link;
    assert (p + num + open + alt) + next + rest == p + (num + (open + (alt + next + rest)));
  }

  /** The two units of a link, and what lies before and after them. */
  ghost predicate LinkedAs(units: seq<Byte>, before: seq<Byte>, d: nat, rest: seq<Byte>) {
    units == before + Two(d) + rest
  }

  lemma LaterLink(units: seq<Byte>, front: seq<Byte>, num: seq<Byte>, bs: seq<seq<Byte>>, j: nat)
    returns (before: seq<Byte>, back: nat, rest: seq<Byte>)
    requires 0 < j < |bs| && |front| > 0 && Halfway(units, front, num, bs, j)
    ensures LinkedAs(units, before, back, rest)
    ensures |before| == |front| + HeadAt(1 + LINK_SIZE + |num|, bs, j)
    ensures back == (if j == 1 then 1 + LINK_SIZE + |num| else 1 + LINK_SIZE) + |bs[j - 1]|
    ensures HeadAt(1 + LINK_SIZE + |num|, bs, j) == HeadAt(1 + LINK_SIZE + |num|, bs, j - 1) + back
    ensures Halfway(before + Two(1 + LINK_SIZE + |bs[j]|) + rest, front, num, bs, j - 1)
  {
    hide OpenBytes, Following, ClosedBytes, Two;
    var h := 1 + LINK_SIZE + |num|;
    var open := OpenBytes(h, bs[..j]);
    back := BackLink(h, bs[..j + 1]);
    before := front + Two(0) + num + open + [OP_ALT];
    rest := bs[j] + Following(bs[j..]);
    HeadStep(h, bs, j);
    BeforeAlt(front, Two(0), num, open, [OP_ALT], Two(back), bs[j], Following(bs[j..]));
    AfterAlt(front, Two(0), num, open, [OP_ALT], Two(1 + LINK_SIZE + |bs[j]|), rest);
    FollowingStep(bs, j);
  }

  lemma FirstLink(units: seq<Byte>, front: seq<Byte>, num: seq<Byte>, bs: seq<seq<Byte>>) returns (rest: seq<Byte>)
    requires |bs| > 0 && Halfway(units, front, num, bs, 0)
    ensures LinkedAs(units, front, 0, rest) && rest == num + ClosedBytes(bs)
  {
    hide Two;
    assert bs[0..] == bs;
    assert OpenBytes(1 + LINK_SIZE + |num|, bs[..1]) == bs[0];
    rest := num + ClosedBytes(bs);
  }

  /** One link: its place gets the length of its branch, and what it held leads to the one before. */
  method CloseBranch(buf: array<Byte>, branch: nat, code: nat, length: nat,
                     ghost front: seq<Byte>, ghost num: seq<Byte>, ghost bs: seq<seq<Byte>>, ghost j: nat)
    returns (previous: nat)
    requires j < |bs| && |front| > 0 && code <= buf.Length <= MAX_PATTERN_SIZE && Halfway(buf[..code], front, num, bs, j)
    requires branch == |front| - 1 + HeadAt(1 + LINK_SIZE + |num|, bs, j)
    requires length == (if j == 0 then 1 + LINK_SIZE + |num| else 1 + LINK_SIZE) + |bs[j]|
    modifies buf
    ensures j == 0 ==> previous == 0 && buf[..code] == front + Two(length) + (num + ClosedBytes(bs))
    ensures j > 0 ==>
      && Halfway(buf[..code], front, num, bs, j - 1)
      && previous == (if j == 1 then 1 + LINK_SIZE + |num| else 1 + LINK_SIZE) + |bs[j - 1]| && previous <= branch
      && branch - previous == |front| - 1 + HeadAt(1 + LINK_SIZE + |num|, bs, j - 1)
  {
    hide OpenBytes, Following, ClosedBytes, Two, Halfway, HeadAt;
    ghost var before, back, rest;
    if j > 0 {
      before, back, rest := LaterLink(buf[..code], front, num, bs, j);
    } else {
      before, back := front, 0;
      rest := FirstLink(buf[..code], front, num, bs);
      HeadAtZero(1 + LINK_SIZE + |num|, bs);
    }
    ReadBack(buf, code, before, back, rest);
    previous := GetIn(buf, branch + 1);
    Put(buf, branch + 1, length, before, Two(back), rest);
    assert LinkedAs(buf[..code], before, length, rest);
  }

  lemma HeadAtZero(h: nat, bs: seq<seq<Byte>>)
    requires |bs| > 0
    ensures HeadAt(h, bs, 0) == 0
  {
  }

  // ----- against the encoding -----

  /** `bs` are the encoded branches of `al`. */
  ghost predicate Encodings(al: Alts, back: bool, bs: seq<seq<Byte>>)
    requires ValidAlts(al) && (back ==> FixedAlts(al))
    decreases al
  {
    && |bs| > 0 && bs[0] == EncBranch(al.branch, back)
    && if al.More? then
         assert ValidAlts(al.rest) && (back ==> FixedAlts(al.rest));
         |bs| > 1 && Encodings(al.rest, back, bs[1..])
       else |bs| == 1
  }

  lemma {:induction false} ClosedIsEncoded(al: Alts, back: bool, bs: seq<seq<Byte>>)
    requires ValidAlts(al) && (back ==> FixedAlts(al)) && Encodings(al, back, bs)
    ensures ClosedBytes(bs) == EncAlts(al, back)
    decreases al
  {
    hide EncBranch, Two;
    if al.More? {
      assert ValidAlts(al.rest) && (back ==> FixedAlts(al.rest));
      ClosedIsEncoded(al.rest, back, bs[1..]);
      assert bs[1..][0] == bs[1];
      var s, alt, rest := bs[0], [OP_ALT] + Two(1 + LINK_SIZE + |bs[1]|), EncAlts(al.rest, back);
      assert s + (alt + rest) == s + alt + rest;
      assert s + [OP_ALT] + Two(1 + LINK_SIZE + |bs[1]|) == s + alt;
    } else {
      assert bs[0] + [] == bs[0];
    }
  }

  /** What lies in an open bracket when its next branch is begun. */
  function Opening(header: nat, bs: seq<seq<Byte>>): seq<Byte> {
    if bs == [] then []
    else OpenBytes(header, bs) + ([OP_ALT] + Two((if |bs| == 1 then header else 1 + LINK_SIZE) + |bs[|bs| - 1]|))
  }

  lemma OpeningStep(header: nat, bs: seq<seq<Byte>>, b: seq<Byte>)
    ensures OpenBytes(header, bs + [b]) == Opening(header, bs) + b
    ensures HeadAt(header, bs + [b], |bs|) == if bs == [] then 0 else header + |OpenBytes(header, bs)|
  {
    hide Two;
    assert (bs + [b])[..|bs|] == bs;
    if bs != [] {
      OpenStep(header, bs, b);
      var d := Two((if |bs| == 1 then header else 1 + LINK_SIZE) + |bs[|bs| - 1]|);
      assert OpenBytes(header, bs) + [OP_ALT] + d == OpenBytes(header, bs) + ([OP_ALT] + d);
    } else {
      assert [] + b == b;
      assert ([] + [b])[0] == b;
    }
  }
}
