/** Writing into the code buffer: single units, links, and the moves and copies of whole items. */
module Buffer {
  import opened Bytecode

  /** Store units one after another at `code`, which is the end of what is in use. */
  method Emit(buf: array<Byte>, code: nat, s: seq<Byte>) returns (next: nat)
    requires code + |s| <= buf.Length
    modifies buf
    ensures next == code + |s| && buf[..next] == old(buf[..code]) + s
  {
    next := code;
    for k := 0 to |s|
      invariant next == code + k
      invariant buf[..next] == old(buf[..code]) + s[..k]
    {
      buf[next] := s[k];
      next := next + 1;
    }
  }

  /** PUT: change the two units after `front`. */
  method Put(buf: array<Byte>, at: nat, d: nat, ghost front: seq<Byte>, ghost was: seq<Byte>, ghost rest: seq<Byte>)
    requires at == |front| && |was| == 2 && |front + was + rest| <= buf.Length
    requires buf[..|front + was + rest|] == front + was + rest
    modifies buf
    ensures buf[..|front + was + rest|] == front + Two(d) + rest
  {
    ghost var used := |front + was + rest|;
    assert buf[..at] == front && buf[at + 2..used] == rest by {
      assert (front + was + rest)[..at] == front && (front + was + rest)[at + 2..] == rest;
      assert buf[..used][..at] == buf[..at] && buf[..used][at + 2..] == buf[at + 2..used];
    }
    buf[at] := (d / 256) % 256;
    buf[at + 1] := d % 256;
    assert buf[..used] == buf[..at] + [buf[at], buf[at + 1]] + buf[at + 2..used];
  }

  /** GET: read a link. */
  function GetIn(buf: array<Byte>, at: nat): nat
    requires at + 2 <= buf.Length
    reads buf
  {
    (buf[at] as int) * 256 + buf[at + 1]
  }

  /** A stored value below 65536 is read back. */
  lemma ReadBack(buf: array<Byte>, used: nat, a: seq<Byte>, d: nat, b: seq<Byte>)
    requires used <= buf.Length && buf[..used] == a + Two(d) + b && d < 0x10000
    ensures |a| + 2 <= buf.Length && GetIn(buf, |a|) == d
  {
    assert buf[..used][|a|] == Two(d)[0] && buf[..used][|a| + 1] == Two(d)[1];
  }

  /** memmove: the last `len` units in use move up by `up` places; what lay there stays as it
      was until it is overwritten. */
  method MoveUp(buf: array<Byte>, at: nat, up: nat, len: nat)
    requires at + up + len <= buf.Length
    modifies buf
    ensures buf[..at] == old(buf[..at])
    ensures buf[at + up..at + up + len] == old(buf[at..at + len])
  {
    var k: nat := len;
    while k > 0
      invariant 0 <= k <= len
      invariant buf[..at + k] == old(buf[..at + k])
      invariant buf[at + up + k..at + up + len] == old(buf[at + k..at + len])
    {
      assert buf[at + k - 1] == buf[..at + k][at + k - 1] == old(buf[at + k - 1]);
      k := k - 1;
      buf[at + up + k] := buf[at + k];
    }
  }

  /** memcpy: append a copy of the `len` units at `from`. */
  method CopyUp(buf: array<Byte>, code: nat, from: nat, len: nat) returns (next: nat)
    requires from + len <= code && code + len <= buf.Length
    modifies buf
    ensures next == code + len && buf[..next] == old(buf[..code]) + old(buf[from..from + len])
  {
    for k := 0 to len
      invariant buf[..code] == old(buf[..code])
      invariant buf[code..code + k] == old(buf[from..from + k])
    {
      assert buf[..code][from + k] == old(buf[..code])[from + k];
      buf[code + k] := buf[from + k];
    }
    next := code + len;
    assert buf[..next] == buf[..code] + buf[code..next];
  }

  lemma SliceOf(buf: array<Byte>, n: nat, a: nat, b: nat)
    requires a <= b <= n <= buf.Length
    ensures buf[..n][a..b] == buf[a..b]
  {
  }

  lemma JoinSlices(buf: array<Byte>, a: nat, b: nat)
    requires a <= b <= buf.Length
    ensures buf[..b] == buf[..a] + buf[a..b]
  {
  }

  /** What lies inside stays when something is appended. */
  lemma Inside(was: seq<Byte>, from: nat, len: nat, more: seq<Byte>)
    requires from + len <= |was|
    ensures (was + more)[from..from + len] == was[from..from + len]
  {
  }

  /** Append some units and then a copy of the item at `from`. */
  method EmitCopy(buf: array<Byte>, code: nat, units: seq<Byte>, from: nat, len: nat, ghost u: seq<Byte>) returns (next: nat)
    requires from + len <= code && code + |units| + len <= buf.Length && buf[from..from + len] == u
    modifies buf
    ensures next == code + |units| + len
    ensures buf[..next] == old(buf[..code]) + (units + u) && buf[from..from + len] == u
  {
    ghost var was := buf[..code];
    SliceOf(buf, code, from, from + len);
    next := Emit(buf, code, units);
    Inside(was, from, len, units);
    SliceOf(buf, next, from, from + len);
    next := CopyUp(buf, next, from, len);
    assert was + units + u == was + (units + u);
    Inside(was, from, len, units + u);
    SliceOf(buf, next, from, from + len);
  }

  /** Insert units before the last item, which moves up. */
  method Insert(buf: array<Byte>, start: nat, end: nat, units: seq<Byte>, ghost base: seq<Byte>, ghost u: seq<Byte>)
    requires start == |base| && end + |units| <= buf.Length && end <= buf.Length && buf[..end] == base + u
    modifies buf
    ensures buf[..end + |units|] == base + (units + u)
  {
    var n := |units|;
    assert buf[..start] == buf[..end][..start] == base && buf[start..end] == buf[..end][start..] == u;
    MoveUp(buf, start, n, end - start);
    for k := 0 to n
      invariant buf[..start + k] == base + units[..k] && buf[start + n..end + n] == u
    {
      buf[start + k] := units[k];
    }
    assert units[..n] == units;
    JoinSlices(buf, start + n, end + n);
    assert base + units + u == base + (units + u);
  }
}
