/** The IPv4 allocator. Go's fixed-width integers are newtypes, so no step can overflow unnoticed. */
module IpAlloc {
  import opened Options

  newtype uint64 = n: int | 0 <= n < 0x1_0000_0000_0000_0000
  newtype byte = n: int | 0 <= n < 0x100

  const LIMIT: int := 0x1_0000_0000

  // ---- Addresses and their numbers ------------------------------------------------------

  datatype Addr = Addr(b0: byte, b1: byte, b2: byte, b3: byte)

  /** addrToUint32; the shifted octets have no bit in common, so their union is their sum. */
  function AddrToUint32(a: Addr): (n: int)
    ensures 0 <= n < LIMIT
  {
    a.b0 as int * 0x1_00_0000 + a.b1 as int * 0x1_0000 + a.b2 as int * 0x100 + a.b3 as int
  }

  function Uint32ToAddr(n: int): Addr
    requires 0 <= n < LIMIT
  {
    Addr((n / 0x1_00_0000 % 0x100) as byte, (n / 0x1_0000 % 0x100) as byte,
         (n / 0x100 % 0x100) as byte, (n % 0x100) as byte)
  }

  lemma NumberOfAddress(n: int)
    requires 0 <= n < LIMIT
    ensures AddrToUint32(Uint32ToAddr(n)) == n
  {
    var h, low := n / 0x100, n % 0x100;
    var g, middle := h / 0x100, h % 0x100;
    var f, high := g / 0x100, g % 0x100;
    assert n == f * 0x1_00_0000 + high * 0x1_0000 + middle * 0x100 + low;
    Quotients(n, g, 0x1_0000);
    Quotients(n, f, 0x1_00_0000);
    assert Uint32ToAddr(n) == Addr(f as byte, high as byte, middle as byte, low as byte);
  }

  lemma AddressOfNumber(a: Addr)
    ensures Uint32ToAddr(AddrToUint32(a)) == a
  {
    var n := AddrToUint32(a);
    Quotients(n, a.b0 as int * 0x1_0000 + a.b1 as int * 0x100 + a.b2 as int, 0x100);
    Quotients(n, a.b0 as int * 0x100 + a.b1 as int, 0x1_0000);
    Quotients(n, a.b0 as int, 0x1_00_0000);
  }

  /** Numbers are in the order of the octets, first octet first. */
  lemma OctetOrder(a: Addr, b: Addr)
    ensures AddrToUint32(a) < AddrToUint32(b) <==>
      || a.b0 < b.b0
      || (a.b0 == b.b0 && a.b1 < b.b1)
      || (a.b0 == b.b0 && a.b1 == b.b1 && a.b2 < b.b2)
      || (a.b0 == b.b0 && a.b1 == b.b1 && a.b2 == b.b2 && a.b3 < b.b3)
    ensures AddrToUint32(Addr(10, 0, 0, 1)) == 0x0A00_0001
  {
  }

  // ---- Prefixes -------------------------------------------------------------------------

  function Pow2(k: nat): (p: nat)
    ensures p > 0 && (k >= 2 ==> p >= 4)
  {
    if k == 0 then 1 else 2 * Pow2(k - 1)
  }

  lemma {:induction false} Pow2Bound(k: nat)
    requires k <= 32
    ensures Pow2(k) * Pow2(32 - k) == LIMIT
    decreases 32 - k
  {
    if k == 32 {
      assert Pow2(32) == LIMIT by { BigPower(); }
    } else {
      Pow2Bound(k + 1);
      assert Pow2(k + 1) == 2 * Pow2(k) && Pow2(32 - k) == 2 * Pow2(31 - k);
      Regroup(Pow2(k), Pow2(31 - k));
    }
  }

  lemma Regroup(a: nat, b: nat)
    ensures (2 * a) * b == a * (2 * b)
  {
  }

  lemma BigPower()
    ensures Pow2(32) == LIMIT
  {
    assert Pow2(8) == 0x100;
    assert Pow2(16) == 0x1_0000 by { assert Pow2(12) == 0x1000; }
    assert Pow2(24) == 0x1_00_0000 by { assert Pow2(20) == 0x10_0000; }
    assert Pow2(28) == 0x1000_0000;
  }

  /** The number of addresses in a prefix. */
  function Size(bits: nat): nat
    requires bits <= 32
  {
    Pow2(32 - bits)
  }

  /** Masked: the prefix with its host bits cleared. */
  function Network(prefix: int, bits: nat): int
    requires bits <= 32
  {
    prefix - prefix % Size(bits)
  }

  /** n has the leading bits of the prefix. */
  predicate InPrefix(n: int, prefix: int, bits: nat)
    requires bits <= 32
  {
    0 <= n < LIMIT && n / Size(bits) == prefix / Size(bits)
  }

  /** An address a node may have: up to /30, not the network address and not the broadcast address. */
  predicate Usable(n: int, prefix: int, bits: nat)
    requires bits <= 32
  {
    InPrefix(n, prefix, bits) && (bits <= 30 ==> n % Size(bits) != 0 && n % Size(bits) != Size(bits) - 1)
  }

  lemma Quotients(n: int, q: int, size: nat)
    requires size > 0 && q * size <= n < q * size + size
    ensures n / size == q && n % size == n - q * size
  {
    var d := n / size - q;
    assert n == (n / size) * size + n % size;
    assert d * size == (n / size) * size - q * size;
    Apart(d, size);
  }

  lemma Apart(d: int, size: nat)
    ensures (d > 0 ==> d * size >= size) && (d < 0 ==> d * size <= 0 - size)
  {
  }

  /** Below a multiple of size, whole slots fit. */
  lemma WholeSlots(p: int, size: nat, count: nat)
    requires size > 0 && 0 <= p < count * size
    ensures 0 <= p - p % size && p - p % size + size <= count * size
  {
    var q := p / size;
    assert p == q * size + p % size;
    var d := count - q;
    assert d * size == count * size - q * size;
    Apart(d, size);
    Apart(q, size);
  }

  lemma Slot(n: int, p: int, size: nat)
    requires size > 0
    ensures n / size == p / size <==> p - p % size <= n < p - p % size + size
    ensures n / size == p / size ==> n % size == n - (p - p % size)
  {
    assert p == (p / size) * size + p % size && n == (n / size) * size + n % size;
    if p - p % size <= n < p - p % size + size {
      Quotients(n, p / size, size);
    }
  }

  /** A prefix does not reach past the end of the address space. */
  lemma PrefixFits(prefix: int, bits: nat)
    requires 0 <= prefix < LIMIT && bits <= 32
    ensures 0 <= Network(prefix, bits) && Network(prefix, bits) + Size(bits) <= LIMIT
  {
    Pow2Bound(bits);
    hide Pow2;
    WholeSlots(prefix, Size(bits), Pow2(bits));
  }

  /** The scanned range holds exactly the usable addresses. */
  lemma RangeIsUsable(n: int, prefix: int, bits: nat)
    requires 0 <= prefix < LIMIT && bits <= 32
    ensures Usable(n, prefix, bits) <==> First(prefix, bits) <= n <= Last(prefix, bits)
  {
    PrefixFits(prefix, bits);
    Slot(n, prefix, Size(bits));
  }

  function First(prefix: int, bits: nat): int
    requires bits <= 32
  {
    if bits <= 30 then Network(prefix, bits) + 1 else Network(prefix, bits)
  }

  function Last(prefix: int, bits: nat): int
    requires bits <= 32
  {
    if bits <= 30 then Network(prefix, bits) + Size(bits) - 2 else Network(prefix, bits) + Size(bits) - 1
  }

  // ---- NextFreeIP -----------------------------------------------------------------------

  datatype Allocation = Free(addr: Addr) | Exhausted | BadPrefix | BadTaken

  ghost predicate Taken(taken: seq<Option<Addr>>, n: int) {
    exists k :: 0 <= k < |taken| && taken[k].Some? && AddrToUint32(taken[k].value) == n
  }

  function Numbers(taken: seq<Option<Addr>>): (s: set<int>)
    ensures forall n :: n in s <==> Taken(taken, n)
  {
    set k | 0 <= k < |taken| && taken[k].Some? :: AddrToUint32(taken[k].value)
  }

  /**
    The lowest usable address that is not taken, and how many addresses were looked at. An
    address that does not parse as IPv4 is None.
   */
  method NextFreeIP(prefix: Addr, bits: int, taken: seq<Option<Addr>>) returns (r: Allocation, ghost looked: nat)
    ensures r.BadPrefix? <==> !(0 <= bits <= 32)
    ensures r.BadTaken? <==> 0 <= bits <= 32 && None in taken
    ensures r.Free? ==>
      && Usable(AddrToUint32(r.addr), AddrToUint32(prefix), bits) && !Taken(taken, AddrToUint32(r.addr))
      && forall n :: Usable(n, AddrToUint32(prefix), bits) && n < AddrToUint32(r.addr) ==> Taken(taken, n)
    ensures r.Exhausted? <==>
      0 <= bits <= 32 && None !in taken && forall n :: Usable(n, AddrToUint32(prefix), bits) ==> Taken(taken, n)
    ensures looked <= |Numbers(taken)| + 1
  {
    looked := 0;
    if bits < 0 || bits > 32 {
      return BadPrefix, 0;
    }
    var p := AddrToUint32(prefix);
    var used := ReadTaken(taken);
    if used.None? {
      return BadTaken, 0;
    }
    hide Numbers, Taken, AddrToUint32;
    var first, last := Bounds(p, bits);
    r, looked := Search(first, last, used.value);
    forall n
      ensures Usable(n, p, bits) <==> first as int <= n <= last as int
    {
      RangeIsUsable(n, p, bits);
    }
  }

  /** The loop over the taken addresses. */
  method ReadTaken(taken: seq<Option<Addr>>) returns (used: Option<set<int>>)
    ensures used == if None in taken then None else Some(Numbers(taken))
  {
    hide AddrToUint32;
    var s: set<int> := {};
    for k := 0 to |taken|
      invariant None !in taken[..k] && s == Numbers(taken[..k])
    {
      if taken[k].None? {
        return None;
      }
      s := s + {AddrToUint32(taken[k].value)};
      NumbersNext(taken, k);
      assert taken[..k + 1] == taken[..k] + [taken[k]];
    }
    assert taken[..|taken|] == taken;
    return Some(s);
  }

  lemma NumbersNext(taken: seq<Option<Addr>>, k: nat)
    requires k < |taken| && taken[k].Some?
    ensures Numbers(taken[..k + 1]) == Numbers(taken[..k]) + {AddrToUint32(taken[k].value)}
  {
    hide AddrToUint32;
    var a, b := taken[..k], taken[..k + 1];
    assert forall j :: 0 <= j < k ==> a[j] == b[j];
    assert b[k] == taken[k];
    forall n
      ensures n in Numbers(b) <==> n in Numbers(a) || n == AddrToUint32(taken[k].value)
    {
      if n in Numbers(a) {
        var j :| 0 <= j < |a| && a[j].Some? && AddrToUint32(a[j].value) == n;
        assert b[j] == a[j];
      }
    }
  }

  method Bounds(p: int, bits: nat) returns (first: uint64, last: uint64)
    requires 0 <= p < LIMIT && bits <= 32
    ensures first as int == First(p, bits) && last as int == Last(p, bits) && last as int < LIMIT
  {
    PrefixFits(p, bits);
    var network := Network(p, bits) as uint64;
    var size := Size(bits) as uint64;
    hide Pow2;
    first := network;
    last := network + size - 1;
    if bits <= 30 {
      assert Size(bits) >= 4;
      first := first + 1;
      last := last - 1;
    }
  }

  method Search(first: uint64, last: uint64, used: set<int>) returns (r: Allocation, ghost looked: nat)
    requires last as int < LIMIT && first <= last + 1
    ensures r.Free? || r.Exhausted?
    ensures r.Free? ==>
      && first as int <= AddrToUint32(r.addr) <= last as int && AddrToUint32(r.addr) !in used
      && forall n: int :: first as int <= n < AddrToUint32(r.addr) ==> n in used
    ensures r.Exhausted? ==> forall n: int :: first as int <= n <= last as int ==> n in used
    ensures looked <= |used| + 1
  {
    hide AddrToUint32, Uint32ToAddr;
    looked := 0;
    var n := first;
    ghost var passed: set<int> := {};
    while n <= last
      invariant first <= n <= last + 1
      invariant passed <= used && |passed| == looked
      invariant forall k: int :: first as int <= k < n as int <==> k in passed
      decreases last + 1 - n
    {
      SubsetSize(passed, used);
      looked := looked + 1;
      var low := n as int % LIMIT;
      if low !in used {
        NumberOfAddress(low);
        return Free(Uint32ToAddr(low)), looked;
      }
      passed := passed + {low};
      n := n + 1;
    }
    SubsetSize(passed, used);
    return Exhausted, looked;
  }

  lemma {:induction false} SubsetSize<T>(a: set<T>, b: set<T>)
    requires a <= b
    ensures |a| <= |b|
  {
    if a != {} {
      var x :| x in a;
      SubsetSize(a - {x}, b - {x});
    }
  }
}
