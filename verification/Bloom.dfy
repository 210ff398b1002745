/** The Bloom filter in front of the blocklist: a bit array and double hashing. */
module Bloom {
  const WORD_RANGE: nat := 0x1_0000_0000_0000_0000

  function Bit(k: nat): bv64
    requires k < 64
  {
    (1 as bv64) << (k as bv6)
  }

  lemma SetBit(w: bv64, k: nat)
    requires k < 64
    ensures (w | Bit(k)) & Bit(k) != 0
  {
    NonZero(k);
    OrKeeps(w, Bit(k));
  }

  lemma NonZero(k: nat)
    requires k < 64
    ensures Bit(k) != 0
  {
  }

  lemma OrKeeps(w: bv64, m: bv64)
    requires m != 0
    ensures (w | m) & m != 0
  {
  }

  lemma OtherBit(w: bv64, a: nat, b: nat)
    requires a < 64 && b < 64 && a != b
    ensures (w | Bit(a)) & Bit(b) == w & Bit(b)
  {
    DisjointBits(a, b);
    OrOther(w, Bit(a), Bit(b));
  }

  lemma DisjointBits(a: nat, b: nat)
    requires a < 64 && b < 64 && a != b
    ensures Bit(a) & Bit(b) == 0
  {
    DistinctShifts(a, b);
    ShiftsDisjoint(a as bv6, b as bv6);
  }

  lemma DistinctShifts(a: nat, b: nat)
    requires a < 64 && b < 64 && a != b
    ensures (a as bv6) != (b as bv6)
  {
    ShiftBack(a);
    ShiftBack(b);
  }

  lemma ShiftBack(k: nat)
    requires k < 64
    ensures (k as bv6) as nat == k
  {
  }

  lemma ShiftsDisjoint(a: bv6, b: bv6)
    requires a != b
    ensures ((1 as bv64) << a) & ((1 as bv64) << b) == 0
  {
  }

  lemma OrOther(w: bv64, m: bv64, x: bv64)
    requires m & x == 0
    ensures (w | m) & x == w & x
  {
  }

  /** Setting bit `a` of a word, as seen at bit `b`. */
  lemma WordOr(w: bv64, a: nat, b: nat)
    requires a < 64 && b < 64
    ensures (w | Bit(a)) & Bit(b) != 0 <==> w & Bit(b) != 0 || a == b
  {
    if a == b {
      SetBit(w, a);
    } else {
      OtherBit(w, a, b);
    }
  }

  /** The `i`-th hash of an element, in 64-bit arithmetic. */
  function NthHash(h1: nat, h2: nat, i: nat): (h: nat)
    ensures h < WORD_RANGE
  {
    (h1 + i * h2) % WORD_RANGE
  }

  /** Double hashing: the first is the first hash, and each next one is the second hash further on. */
  lemma DoubleHashing(h1: nat, h2: nat, i: nat)
    requires h1 < WORD_RANGE && h2 < WORD_RANGE
    ensures NthHash(h1, h2, 0) == h1
    ensures var h := NthHash(h1, h2, i) + h2;
            NthHash(h1, h2, i + 1) == if h < WORD_RANGE then h else h - WORD_RANGE
  {
    assert h1 + (i + 1) * h2 == (h1 + i * h2) + h2;
    WrapsOnce(h1 + i * h2, h2);
    assert 0 * h2 == 0;
  }

  lemma WrapsOnce(a: nat, b: nat)
    requires b < WORD_RANGE
    ensures (a + b) % WORD_RANGE == if a % WORD_RANGE + b < WORD_RANGE then a % WORD_RANGE + b
                                    else a % WORD_RANGE + b - WORD_RANGE
  {
  }

  class BloomFilter {
    const bits: array<bv64>
    const size: nat
    const hashCount: nat
    // Any two 64-bit hash functions; the program uses FNV-1a and FNV-1.
    const hash1: string -> nat
    const hash2: string -> nat

    ghost predicate Valid() {
      1 <= size < WORD_RANGE && hashCount >= 2 && bits.Length == (size + 63) / 64
    }

    constructor (m: nat, k: nat, hash1: string -> nat, hash2: string -> nat)
      requires 1 <= m < WORD_RANGE
      ensures Valid() && fresh(bits)
      ensures this.hash1 == hash1 && this.hash2 == hash2 && size == m
      ensures forall index :: 0 <= index < size ==> !IsSet(index)
    {
      size, hashCount := m, if k < 2 then 2 else k;
      this.hash1, this.hash2 := hash1, hash2;
      bits := new bv64[(m + 63) / 64](_ => 0);
    }

    ghost predicate IsSet(index: nat)
      requires Valid() && index < size
      reads bits
    {
      bits[index / 64] & Bit(index % 64) != 0
    }

    /** The `i`-th bit position of an element. */
    ghost function Index(element: string, i: nat): (index: nat)
      requires Valid()
      ensures index < size
    {
      NthHash(hash1(element), hash2(element), i) % size
    }

    /** All bits of the element are set. */
    ghost predicate Contains(element: string)
      requires Valid()
      reads bits
    {
      forall i :: 0 <= i < hashCount ==> IsSet(Index(element, i))
    }

    method Hash(element: string) returns (hashes: seq<nat>)
      requires Valid()
      ensures |hashes| == hashCount
      ensures forall i :: 0 <= i < hashCount ==> hashes[i] % size == Index(element, i)
    {
      var a, b := hash1(element), hash2(element);
      hashes := [];
      for i := 0 to hashCount
        invariant |hashes| == i && forall j :: 0 <= j < i ==> hashes[j] == NthHash(a, b, j)
      {
        hashes := hashes + [NthHash(a, b, i)];
      }
    }

    /** Sets one bit, and no other. */
    method SetIndex(index: nat)
      requires Valid() && index < size
      modifies bits
      ensures forall x: nat :: x < size ==> (IsSet(x) <==> old(IsSet(x)) || x == index)
    {
      var w := index / 64;
      ghost var was := bits[w];
      bits[w] := bits[w] | Bit(index % 64);
      forall x: nat | x < size ensures IsSet(x) <==> old(IsSet(x)) || x == index {
        if x / 64 == w {
          WordOr(was, index % 64, x % 64);
        }
      }
    }

    /** Sets exactly the bits of the element: it is contained from now on, and so is all that was before. */
    method Add(element: string)
      requires Valid()
      modifies bits
      ensures forall x: nat :: x < size ==>
                (IsSet(x) <==> old(IsSet(x)) || exists i :: 0 <= i < hashCount && Index(element, i) == x)
      ensures Contains(element)
      ensures forall e: string :: old(Contains(e)) ==> Contains(e)
    {
      var hashes := Hash(element);
      for n := 0 to hashCount
        invariant forall x: nat :: x < size ==>
                    (IsSet(x) <==> old(IsSet(x)) || exists i :: 0 <= i < n && Index(element, i) == x)
      {
        SetIndex(hashes[n] % size);
      }
    }

    method MayContain(element: string) returns (r: bool)
      requires Valid()
      ensures r <==> Contains(element)
    {
      var hashes := Hash(element);
      for n := 0 to hashCount
        invariant forall i :: 0 <= i < n ==> IsSet(Index(element, i))
      {
        var index := hashes[n] % size;
        assert index == Index(element, n);
        if bits[index / 64] & Bit(index % 64) == 0 {
          return false;
        }
      }
      return true;
    }

    method Clear()
      requires Valid()
      modifies bits
      ensures forall x: nat :: x < size ==> !IsSet(x)
    {
      for i := 0 to bits.Length
        invariant forall j :: 0 <= j < i ==> bits[j] == 0
      {
        bits[i] := 0;
      }
    }
  }
}
