/** The bit map of a character class, as the compiler fills it in while it reads the class. */
module CharClass {
  import opened Bytecode
  import opened Tree
  import opened Subject

  const MAP_SIZE := 32

  predicate HasBit(b: Byte, k: nat) { (b / Pow2(k)) % 2 == 1 }

  /** The byte with that bit set. */
  function SetBit(b: Byte, k: nat): Byte
    requires k < 8
  {
    BitFits(b, k);
    if HasBit(b, k) then b else b + Pow2(k)
  }

  lemma Powers()
    ensures Pow2(0) == 1 && Pow2(1) == 2 && Pow2(2) == 4 && Pow2(3) == 8
    ensures Pow2(4) == 16 && Pow2(5) == 32 && Pow2(6) == 64 && Pow2(7) == 128
  {
    assert Pow2(3) == 8 && Pow2(4) == 16 && Pow2(5) == 32 && Pow2(6) == 64;
  }

  lemma LastBit(b: Byte)
    ensures HasBit(b, 0) <==> b % 2 == 1
  {
  }

  lemma Times(p: nat, a: nat, b: nat)
    requires a <= b
    ensures p * a <= p * b
  {
  }

  lemma Quotient(p: nat, d: nat, m: nat)
    requires m < p
    ensures (p * d + m) / p == d
  {
    var n := p * d + m;
    var q, r := n / p, n % p;
    if q < d {
      Times(p, q + 1, d);
    } else if q > d {
      Times(p, d + 1, q);
    }
  }

  /** A bit is one of the half number's, or the last one. */
  lemma Halve(b: Byte, k: nat)
    requires k > 0
    ensures HasBit(b, k) <==> HasBit(b / 2, k - 1)
  {
    hide Pow2;
    PowerStep(k);
    HalfQuotient(b, Pow2(k - 1));
  }

  lemma HalfQuotient(b: nat, p: nat)
    requires p > 0
    ensures b / (2 * p) == (b / 2) / p
  {
    var h := b / 2;
    var d, r := h / p, h % p;
    var e := p * d;
    assert h == e + r && (2 * p) * d == 2 * e;
    Quotient(2 * p, d, 2 * r + b % 2);
  }

  lemma {:induction false} BitFits(b: Byte, k: nat)
    requires k < 8
    ensures !HasBit(b, k) ==> b + Pow2(k) < 256
  {
    hide Pow2;
    Powers();
  }

  /** Only that bit changes. */
  lemma {:induction false} SetBitExactly(b: Byte, k: nat, j: nat)
    requires k < 8 && j < 8
    ensures HasBit(SetBit(b, k), j) <==> j == k || HasBit(b, j)
    decreases k
  {
    hide HasBit, Pow2;
    LastBit(b);
    LastBit(SetBit(b, k));
    if j > 0 {
      Halve(b, j);
      Halve(SetBit(b, k), j);
    }
    PowerStep(k);
    if k > 0 {
      Halve(b, k);
      if j > 0 {
        assert SetBit(b, k) / 2 == SetBit(b / 2, k - 1);
        SetBitExactly(b / 2, k - 1, j - 1);
      }
    }
  }

  lemma PowerStep(k: nat)
    ensures Pow2(k) == if k == 0 then 1 else 2 * Pow2(k - 1)
  {
  }

  function Flip(b: Byte): Byte { 255 - b }

  lemma FlipExactly(b: Byte, k: nat)
    requires k < 8
    ensures HasBit(Flip(b), k) <==> !HasBit(b, k)
  {
    assert Ones(255, 7);
    FlipBit(b, 255, 7, k);
  }

  /** The last bits of `b`, up to the one at `k`, are set. */
  predicate Ones(b: Byte, k: nat) { b % 2 == 1 && (k > 0 ==> Ones(b / 2, k - 1)) }

  lemma {:induction false} FlipBit(b: Byte, all: Byte, n: nat, k: nat)
    requires b <= all && k <= n && Ones(all, n)
    ensures HasBit(all - b, k) <==> !HasBit(b, k)
  {
    hide HasBit;
    LastBit(b);
    LastBit(all - b);
    if k > 0 {
      Halve(b, k);
      Halve(all - b, k);
      FlipBit(b / 2, all / 2, n - 1, k - 1);
    }
  }

  /** The map under construction. */
  class ClassBits {
    const bits: array<Byte>

    constructor ()
      ensures bits.Length == MAP_SIZE && fresh(bits) && forall x: Byte :: !Holds(x)
    {
      bits := new Byte[MAP_SIZE](_ => 0);
      new;
      Powers();
    }

    ghost predicate Valid() { bits.Length == MAP_SIZE }

    ghost predicate Holds(x: Byte)
      requires Valid()
      reads bits
    {
      InClass(bits[..], x)
    }

    method Add(c: Byte)
      requires Valid()
      modifies bits
      ensures forall x: Byte :: Holds(x) <==> x == c || old(Holds(x))
    {
      var was := bits[c / 8];
      bits[c / 8] := SetBit(was, c % 8);
      forall x: Byte
        ensures Holds(x) <==> x == c || old(Holds(x))
      {
        SetBitExactly(was, c % 8, x % 8);
        assert x == c <==> x / 8 == c / 8 && x % 8 == c % 8;
      }
    }

    /** The characters from `c` to `d`; if case does not matter, in either case. */
    method AddRange(t: CharTables, c: Byte, d: Byte, caseless: bool)
      requires Valid() && c <= d
      modifies bits
      ensures forall x: Byte :: Holds(x) <==> c <= x <= d || (caseless && c <= t.flip[x] <= d) || old(Holds(x))
    {
      var n: int := c;
      while n <= d
        invariant c <= n <= d + 1
        invariant forall x: Byte :: Holds(x) <==> c <= x < n || (caseless && c <= t.flip[x] < n) || old(Holds(x))
      {
        Add(n);
        if caseless {
          Add(t.flip[n]);
          forall x: Byte
            ensures x == t.flip[n] <==> t.flip[x] == n
          {
            FlipTwice(t, n);
            FlipTwice(t, x);
          }
        }
        n := n + 1;
      }
    }

    /** A negated class holds the other characters. */
    method Negate()
      requires Valid()
      modifies bits
      ensures forall x: Byte :: Holds(x) <==> !old(Holds(x))
    {
      var c := 0;
      while c < MAP_SIZE
        invariant 0 <= c <= MAP_SIZE
        invariant forall i | 0 <= i < MAP_SIZE :: bits[i] == if i < c then Flip(old(bits[i])) else old(bits[i])
      {
        bits[c] := Flip(bits[c]);
        c := c + 1;
      }
      forall x: Byte
        ensures Holds(x) <==> !old(Holds(x))
      {
        FlipExactly(old(bits[x / 8]), x % 8);
      }
    }
  }

  lemma FlipTwice(t: CharTables, c: Byte)
    ensures t.flip[t.flip[c]] == c
  {
    var f := t.flip[c];
    assert t.lower[c] == t.lower[f];
    assert t.lower[f] == t.lower[c];
  }

  /** A class of one range matches a character, in the case or cases asked for, exactly if that is in the range; a
      negated one, exactly if not. */
  method RangeClass(t: CharTables, c: Byte, d: Byte, caseless: bool, negated: bool) returns (a: Atom)
    requires c <= d
    ensures a.Class? && ValidAtom(a) && a.nclass == negated
    ensures forall x: Byte :: AtomAt(t, a, x) <==> (c <= x <= d || (caseless && c <= t.flip[x] <= d)) != negated
  {
    var m := new ClassBits();
    m.AddRange(t, c, d, caseless);
    if negated {
      m.Negate();
    }
    a := Class(m.bits[..], negated);
    forall x: Byte
      ensures AtomAt(t, a, x) <==> m.Holds(x)
    {
    }
  }
}
