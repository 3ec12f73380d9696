/**
  Bit strings and the regrouping of fixed-width units, the job of `convertBits`.

  The code works in a 32-bit accumulator that is never masked, so high bits fall off the
  top as it runs. The specification knows nothing of accumulators: a list of w-bit units
  denotes the concatenation of its units' bits, and regrouping must keep that string.
 */
module BitGroups {
  import opened Options
  import opened Multiples

  // ---- Bits of a machine word -----------------------------------------------------------
  // Every bit-vector operation is named, so that the structural proofs below never mix
  // bit-vector arithmetic with reasoning about sequences.

  function Half(x: bv32): bv32 { x >> 1 }
  function Double(x: bv32): bv32 { x << 1 }
  function Or(x: bv32, y: bv32): bv32 { x | y }
  function Word(b: bv8): bv32 { b as bv32 }
  predicate Odd(x: bv32) { x & 1 == 1 }
  predicate Differ(x: bv32, y: bv32, mask: bv32) { (x ^ y) & mask != 0 }

  /** The shifts convertBits performs, by an amount known only at run time. */
  function Left(x: bv32, n: nat): bv32
    requires n <= 8
  {
    x << n
  }

  function Right(x: bv32, n: nat): bv32
    requires n <= 8
  {
    x >> n
  }

  function Shl(x: bv32, n: nat): bv32
    decreases n
  {
    if n == 0 then x else Double(Shl(x, n - 1))
  }
  function Shr(x: bv32, n: nat): bv32
    decreases n
  {
    if n == 0 then x else Half(Shr(x, n - 1))
  }


  /** The n least significant bits of x, most significant first. */
  function LowBits(x: bv32, n: nat): (bits: seq<bool>)
    ensures |bits| == n
    decreases n
  {
    if n == 0 then [] else LowBits(Half(x), n - 1) + [Odd(x)]
  }

  lemma LowBitsStep(x: bv32, n: nat, rest: seq<bool>, last: bool)
    requires n > 0 && LowBits(Half(x), n - 1) == rest && Odd(x) == last
    ensures LowBits(x, n) == rest + [last]
  {
  }

  /** x has no bit set at position n or above. */
  ghost predicate FitsIn(x: bv32, n: nat)
    decreases n
  {
    if n == 0 then x == 0 else FitsIn(Half(x), n - 1)
  }

  /** The n lowest bits of m are all set. */
  ghost predicate Ones(m: bv32, n: nat)
    decreases n
  {
    n > 0 ==> Odd(m) && Ones(Half(m), n - 1)
  }

  lemma HalvesAgree(x: bv32, y: bv32, mask: bv32)
    requires !Differ(x, y, mask) && Odd(mask)
    ensures !Differ(Half(x), Half(y), Half(mask))
    ensures Odd(x) == Odd(y)
  {
  }

  lemma {:induction false} AgreeingWords(x: bv32, y: bv32, mask: bv32, n: nat)
    requires Ones(mask, n) && !Differ(x, y, mask)
    ensures LowBits(x, n) == LowBits(y, n)
    decreases n
  {
    if n > 0 {
      HalvesAgree(x, y, mask);
      AgreeingWords(Half(x), Half(y), Half(mask), n - 1);
      LowBitsStep(x, n, LowBits(Half(y), n - 1), Odd(y));
      LowBitsStep(y, n, LowBits(Half(y), n - 1), Odd(y));
    }
  }

  lemma {:induction false} FewerOnes(m: bv32, k: nat, n: nat)
    requires n <= k && Ones(m, k)
    ensures Ones(m, n)
    decreases n
  {
    if n > 0 {
      FewerOnes(Half(m), k - 1, n - 1);
    }
  }

  lemma SixteenOnes(n: nat)
    requires n <= 16
    ensures Ones(0xFFFF, n)
  {
    assert Ones(0xF, 4);
    assert Ones(0xFF, 8);
    assert Ones(0xFFF, 12);
    assert Ones(0xFFFF, 16);
    FewerOnes(0xFFFF, 16, n);
  }

  lemma DoubleStep(x: bv32, b: bv32)
    ensures !Differ(Half(Or(Double(x), b)), Or(x, Half(b)), 0xFFFF)
    ensures Odd(Or(Double(x), b)) == Odd(b)
    ensures b == 0 ==> Or(x, b) == x
  {
  }

  lemma ShiftSteps(x: bv32, n: nat)
    requires 1 <= n <= 8
    ensures Left(x, n) == Double(Left(x, n - 1)) && Right(x, n) == Half(Right(x, n - 1))
  {
    RawShiftSteps(x, n);
  }

  lemma RawShiftSteps(x: bv32, n: nat)
    requires 1 <= n <= 8
    ensures x << n == (x << (n - 1)) << 1 && x >> n == (x >> (n - 1)) >> 1
  {
    match n
    case 1 => case 2 => case 3 => case 4 => case 5 => case 6 => case 7 => case 8 =>
  }

  lemma {:induction false} ShiftsAre(x: bv32, n: nat)
    requires n <= 8
    ensures Left(x, n) == Shl(x, n) && Right(x, n) == Shr(x, n)
    decreases n
  {
    if n == 0 {
      assert x << 0 == x && x >> 0 == x;
    } else {
      hide Left, Right, Half, Double;
      ShiftSteps(x, n);
      ShiftsAre(x, n - 1);
    }
  }

  lemma {:induction false} ShrOfHalf(x: bv32, n: nat)
    ensures Shr(Half(x), n) == Half(Shr(x, n))
    decreases n
  {
    if n > 0 {
      ShrOfHalf(x, n - 1);
    }
  }

  lemma Assoc<T>(a: seq<T>, b: seq<T>, c: seq<T>)
    ensures (a + b) + c == a + (b + c)
  {
  }

  /** `acc<<f | b` appends the f bits of b below whatever acc still holds. */
  lemma {:induction false} AppendBits(acc: bv32, b: bv32, n: nat, f: nat)
    requires n + f <= 16 && FitsIn(b, f)
    ensures LowBits(Or(Shl(acc, f), b), n + f) == LowBits(acc, n) + LowBits(b, f)
    decreases f
  {
    if f == 0 {
      DoubleStep(acc, b);
      assert LowBits(acc, n) + [] == LowBits(acc, n);
    } else {
      DoubleStep(Shl(acc, f - 1), b);
      AppendBits(acc, Half(b), n, f - 1);
      var w := Or(Shl(acc, f), b);
      SixteenOnes(n + f - 1);
      AgreeingWords(Half(w), Or(Shl(acc, f - 1), Half(b)), 0xFFFF, n + f - 1);
      LowBitsStep(w, n + f, LowBits(acc, n) + LowBits(Half(b), f - 1), Odd(b));
      LowBitsStep(b, f, LowBits(Half(b), f - 1), Odd(b));
      Assoc(LowBits(acc, n), LowBits(Half(b), f - 1), [Odd(b)]);
    }
  }

  /** `acc>>m` exposes the k bits above the m lowest ones. */
  lemma {:induction false} SplitBits(acc: bv32, k: nat, m: nat)
    ensures LowBits(acc, k + m) == LowBits(Shr(acc, m), k) + LowBits(acc, m)
    decreases m
  {
    if m == 0 {
      assert LowBits(acc, k) + [] == LowBits(acc, k);
    } else {
      SplitBits(Half(acc), k, m - 1);
      ShrOfHalf(acc, m - 1);
      LowBitsStep(acc, k + m, LowBits(Shr(acc, m), k) + LowBits(Half(acc), m - 1), Odd(acc));
      LowBitsStep(acc, m, LowBits(Half(acc), m - 1), Odd(acc));
      Assoc(LowBits(Shr(acc, m), k), LowBits(Half(acc), m - 1), [Odd(acc)]);
    }
  }

  /** A value that fits in n bits is determined by those bits. */
  lemma {:induction false} LowBitsInjective(x: bv32, y: bv32, n: nat)
    requires FitsIn(x, n) && FitsIn(y, n) && LowBits(x, n) == LowBits(y, n)
    ensures x == y
    decreases n
  {
    if n > 0 {
      LowBitsStep(x, n, LowBits(Half(x), n - 1), Odd(x));
      LowBitsStep(y, n, LowBits(Half(y), n - 1), Odd(y));
      assert LowBits(x, n)[..n - 1] == LowBits(Half(x), n - 1);
      assert LowBits(y, n)[..n - 1] == LowBits(Half(y), n - 1);
      assert LowBits(x, n)[n - 1] == LowBits(y, n)[n - 1];
      LowBitsInjective(Half(x), Half(y), n - 1);
      SameHalves(x, y);
    }
  }

  lemma SameHalves(x: bv32, y: bv32)
    requires Half(x) == Half(y) && Odd(x) == Odd(y)
    ensures x == y
  {
  }

  ghost function Zeros(n: nat): (bits: seq<bool>)
    ensures |bits| == n
  {
    seq(n, i => false)
  }

  lemma {:induction false} ZeroBits(n: nat)
    ensures LowBits(0, n) == Zeros(n) && FitsIn(0, n)
  {
    if n > 0 {
      ZeroBits(n - 1);
      assert Half(0) == 0 && !Odd(0);
      LowBitsStep(0, n, Zeros(n - 1), false);
      assert Zeros(n) == Zeros(n - 1) + [false];
    }
  }

  // ---- Lists of units -------------------------------------------------------------------

  ghost predicate Fits(data: seq<bv8>, w: nat) {
    forall i :: 0 <= i < |data| ==> FitsIn(Word(data[i]), w)
  }

  /** The bit string a list of w-bit units denotes. */
  ghost function Units(data: seq<bv8>, w: nat): (bits: seq<bool>)
  {
    if data == [] then [] else
    Units(data[..|data| - 1], w) + LowBits(Word(data[|data| - 1]), w)
  }

  lemma {:induction false} UnitsLength(data: seq<bv8>, w: nat)
    ensures |Units(data, w)| == |data| * w
  {
    if data != [] {
      UnitsLength(data[..|data| - 1], w);
      assert (|data| - 1) * w + w == |data| * w;
    }
  }

  lemma UnitsAppend(data: seq<bv8>, b: bv8, w: nat)
    ensures Units(data + [b], w) == Units(data, w) + LowBits(Word(b), w)
  {
    assert (data + [b])[..|data|] == data;
  }

  /** Lists of fitting units that denote the same bits are equal. */
  lemma {:induction false} UnitsInjective(a: seq<bv8>, b: seq<bv8>, w: nat)
    requires w > 0 && Fits(a, w) && Fits(b, w) && Units(a, w) == Units(b, w)
    ensures a == b
  {
    UnitsLength(a, w);
    UnitsLength(b, w);
    SameQuotient(|a|, |b|, w);
    if a != [] {
      var n := |a| - 1;
      var u, v := Units(a[..n], w), Units(b[..n], w);
      UnitsLength(a[..n], w);
      UnitsLength(b[..n], w);
      LastUnit(u, LowBits(Word(a[n]), w), v, LowBits(Word(b[n]), w));
      UnitsInjective(a[..n], b[..n], w);
      LowBitsInjective(Word(a[n]), Word(b[n]), w);
      SameByte(a[n], b[n]);
      assert a == a[..n] + [a[n]] && b == b[..n] + [b[n]];
    }
  }

  lemma LastUnit<T>(u: seq<T>, x: seq<T>, v: seq<T>, y: seq<T>)
    requires |u| == |v| && u + x == v + y
    ensures u == v && x == y
  {
    assert (u + x)[..|u|] == u && (v + y)[..|v|] == v;
    assert (u + x)[|u|..] == x && (v + y)[|v|..] == y;
  }

  lemma SameByte(a: bv8, b: bv8)
    requires Word(a) == Word(b)
    ensures a == b
  {
  }

  // ---- Packing a bit string into units ---------------------------------------------------

  function And(x: bv32, y: bv32): bv32 { x & y }

  function Mask(w: nat): bv32
  {
    if w == 0 then 0 else Or(Double(Mask(w - 1)), 1)
  }

  lemma MaskIs(w: nat)
    requires w <= 8
    ensures Left(1, w) - 1 == Mask(w)
  {
    match w
    case 0 => case 1 => case 2 => case 3 => case 4 => case 5 => case 6 => case 7 => case 8 =>
  }

  lemma MaskIsSmall(w: nat)
    requires w <= 8
    ensures Mask(w) <= 255
  {
    match w
    case 0 => case 1 => case 2 => case 3 => case 4 => case 5 => case 6 => case 7 => case 8 =>
  }

  lemma PushOne(m: bv32, x: bv32)
    requires m <= 255
    ensures Half(Or(Double(m), 1)) == m && Odd(Or(Double(m), 1))
    ensures Half(And(x, Or(Double(m), 1))) == And(Half(x), m)
  {
  }

  lemma {:induction false} MaskOnes(w: nat)
    requires w <= 8
    ensures Ones(Mask(w), w)
  {
    if w > 0 {
      MaskIsSmall(w - 1);
      PushOne(Mask(w - 1), 0);
      MaskOnes(w - 1);
    }
  }

  lemma {:induction false} MaskFits(x: bv32, w: nat)
    requires w <= 8
    ensures FitsIn(And(x, Mask(w)), w)
    decreases w
  {
    if w == 0 {
      assert And(x, 0) == 0;
    } else {
      MaskIsSmall(w - 1);
      PushOne(Mask(w - 1), x);
      MaskFits(Half(x), w - 1);
    }
  }

  lemma {:induction false} FitsWider(x: bv32, n: nat, k: nat)
    requires n <= k && FitsIn(x, n)
    ensures FitsIn(x, k)
    decreases k
  {
    if n > 0 {
      FitsWider(Half(x), n - 1, k - 1);
    } else if k > 0 {
      assert Half(0) == 0;
      FitsWider(Half(x), 0, k - 1);
    }
  }

  lemma FitsByte(x: bv32, n: nat)
    requires n <= 8 && FitsIn(x, n)
    ensures x <= 255
  {
    FitsWider(x, n, 8);
    var y := Half(Half(Half(Half(x))));
    assert FitsIn(y, 4);
    assert FitsIn(Half(Half(Half(Half(y)))), 0);
    EightHalves(x);
  }

  lemma EightHalves(x: bv32)
    requires Half(Half(Half(Half(Half(Half(Half(Half(x)))))))) == 0
    ensures x <= 255
  {
  }

  function Bit(b: bool): bv32 { if b then 1 else 0 }

  /** The word whose |s| lowest bits are s. */
  function FromBits(s: seq<bool>): bv32 {
    if s == [] then 0 else Or(Double(FromBits(s[..|s| - 1])), Bit(s[|s| - 1]))
  }

  lemma PushBit(x: bv32, b: bool)
    requires x <= 255
    ensures Half(Or(Double(x), Bit(b))) == x && Odd(Or(Double(x), Bit(b))) == b
  {
  }

  lemma {:induction false} FromBitsFits(s: seq<bool>)
    requires |s| <= 8
    ensures FitsIn(FromBits(s), |s|) && LowBits(FromBits(s), |s|) == s
  {
    hide Half, Odd, Double, Or;
    if s != [] {
      var t := s[..|s| - 1];
      FromBitsFits(t);
      FitsByte(FromBits(t), |t|);
      PushBit(FromBits(t), s[|s| - 1]);
      LowBitsStep(FromBits(s), |s|, t, s[|s| - 1]);
      assert s == t + [s[|s| - 1]];
    }
  }

  function Byte(x: bv32): bv8
    requires x <= 255
  {
    x as bv8
  }

  lemma ByteIs(x: bv32)
    requires x <= 255
    ensures Word(Byte(x)) == x
  {
  }

  function UnitOf(s: seq<bool>): bv8
    requires |s| <= 8
  {
    FromBitsFits(s);
    FitsByte(FromBits(s), |s|);
    Byte(FromBits(s))
  }

  /** Cuts a bit string into w-bit units; a final part shorter than w bits is dropped. */
  function Pack(bits: seq<bool>, w: nat): (units: seq<bv8>)
    requires 1 <= w <= 8
  {
    if |bits| < w then [] else [UnitOf(bits[..w])] + Pack(bits[w..], w)
  }

  lemma UnitOfIs(s: seq<bool>)
    requires |s| <= 8
    ensures FitsIn(Word(UnitOf(s)), |s|) && LowBits(Word(UnitOf(s)), |s|) == s
  {
    FromBitsFits(s);
    FitsByte(FromBits(s), |s|);
    ByteIs(FromBits(s));
  }

  lemma {:induction false} UnitsConcat(a: seq<bv8>, b: seq<bv8>, w: nat)
    ensures Units(a + b, w) == Units(a, w) + Units(b, w)
  {
    if b == [] {
      assert a + b == a;
      assert Units(a, w) + [] == Units(a, w);
    } else {
      var b', last := b[..|b| - 1], b[|b| - 1];
      assert b == b' + [last] && a + b == (a + b') + [last];
      UnitsAppend(b', last, w);
      UnitsAppend(a + b', last, w);
      UnitsConcat(a, b', w);
      Assoc(Units(a, w), Units(b', w), LowBits(Word(last), w));
    }
  }

  /** Packing loses nothing but an incomplete final unit. */
  lemma {:induction false} PackDenotes(bits: seq<bool>, w: nat)
    requires 1 <= w <= 8
    ensures Fits(Pack(bits, w), w)
    ensures |Units(Pack(bits, w), w)| <= |bits| < |Units(Pack(bits, w), w)| + w
    ensures Units(Pack(bits, w), w) == bits[..|Units(Pack(bits, w), w)|]
  {
    if |bits| >= w {
      PackDenotes(bits[w..], w);
      PackStep(UnitOf(bits[..w]), Pack(bits[w..], w), bits, w);
    }
  }

  lemma PackStep(u: bv8, rest: seq<bv8>, bits: seq<bool>, w: nat)
    requires 1 <= w <= 8 && w <= |bits| && u == UnitOf(bits[..w])
    ensures FitsIn(Word(u), w)
    ensures Units([u] + rest, w) == bits[..w] + Units(rest, w)
  {
    UnitOfIs(bits[..w]);
    UnitsConcat([u], rest, w);
    UnitsAppend([], u, w);
    assert [] + [u] == [u];
  }

  /** Any list of fitting units is what packing its own bits gives. */
  lemma {:induction false} PackUnique(bits: seq<bool>, out: seq<bv8>, w: nat, tail: seq<bool>)
    requires 1 <= w <= 8 && Fits(out, w) && |tail| < w
    requires bits == Units(out, w) + tail
    ensures Pack(bits, w) == out
  {
    PackDenotes(bits, w);
    var m := Pack(bits, w);
    UnitsLength(m, w);
    UnitsLength(out, w);
    SameCount(|m|, |out|, |bits|, w);
    assert bits[..|out| * w] == Units(out, w);
    UnitsInjective(m, out, w);
  }

  // ---- convertBits ----------------------------------------------------------------------

  /** Regrouping with padding: the same bits, completed with zeros. */
  ghost function Regrouped(data: seq<bv8>, from: nat, to: nat): seq<bv8>
    requires 1 <= to <= 8
  {
    var bits := Units(data, from);
    Pack(bits + Zeros(PadLength(|bits|, to)), to)
  }

  /** Regrouping without padding: only fewer than `from` left-over zero bits may be dropped. */
  ghost function RegroupedExactly(data: seq<bv8>, from: nat, to: nat): Option<seq<bv8>>
    requires 1 <= to <= 8
  {
    var bits := Units(data, from);
    var k := |bits| % to;
    if k < from && bits[|bits| - k..] == Zeros(k) then Some(Pack(bits, to)) else None
  }

  /** The loop's state: the units emitted so far, then `bits` pending bits of acc. */
  ghost predicate Holds(out: seq<bv8>, to: nat, acc: bv32, bits: nat, consumed: seq<bool>) {
    Fits(out, to) && Units(out, to) + LowBits(acc, bits) == consumed
  }

  lemma Absorb(out: seq<bv8>, to: nat, acc: bv32, b: bv8, bits: nat, from: nat, done: seq<bv8>)
    requires from <= 8 && bits + from <= 16 && FitsIn(Word(b), from)
    requires Holds(out, to, acc, bits, Units(done, from))
    ensures Holds(out, to, Or(Left(acc, from), Word(b)), bits + from, Units(done + [b], from))
  {
    hide Left, Or, Word;
    ShiftsAre(acc, from);
    AppendBits(acc, Word(b), bits, from);
    UnitsAppend(done, b, from);
    Assoc(Units(out, to), LowBits(acc, bits), LowBits(Word(b), from));
  }

  lemma Masked(x: bv32, w: nat)
    requires w <= 8
    ensures LowBits(And(x, Mask(w)), w) == LowBits(x, w) && FitsIn(And(x, Mask(w)), w)
    ensures And(x, Mask(w)) <= 255
  {
    MaskOnes(w);
    MaskFits(x, w);
    FitsByte(And(x, Mask(w)), w);
    MaskKeeps(x, Mask(w));
    AgreeingWords(And(x, Mask(w)), x, Mask(w), w);
  }

  lemma MaskKeeps(x: bv32, m: bv32)
    ensures !Differ(And(x, m), x, m)
  {
  }

  /** The unit `byte(acc>>bits & maxv)` is the top `to` of the pending bits. */
  lemma Emit(out: seq<bv8>, acc: bv32, bits: nat, to: nat, v: bv32, consumed: seq<bool>)
    requires bits <= 7 && to <= 8 && v == And(Right(acc, bits), Mask(to))
    requires Holds(out, to, acc, to + bits, consumed)
    ensures v <= 255 && Holds(out + [Byte(v)], to, acc, bits, consumed)
  {
    hide Right, And, Mask;
    ShiftsAre(acc, bits);
    Masked(Right(acc, bits), to);
    SplitBits(acc, to, bits);
    GrowUnits(out, to, v, LowBits(acc, bits));
  }

  lemma GrowUnits(out: seq<bv8>, w: nat, v: bv32, rest: seq<bool>)
    requires v <= 255 && FitsIn(v, w) && Fits(out, w)
    ensures Fits(out + [Byte(v)], w)
    ensures Units(out + [Byte(v)], w) + rest == Units(out, w) + (LowBits(v, w) + rest)
  {
    hide FitsIn, LowBits;
    ByteIs(v);
    UnitsAppend(out, Byte(v), w);
    Assoc(Units(out, w), LowBits(v, w), rest);
  }

  /** The unit `byte(acc<<(toBits-bits) & maxv)` is the pending bits, then zeros. */
  lemma PadOut(acc: bv32, bits: nat, to: nat, v: bv32)
    requires bits <= to <= 8 && v == And(Left(acc, to - bits), Mask(to))
    ensures v <= 255
    ensures FitsIn(v, to) && LowBits(v, to) == LowBits(acc, bits) + Zeros(to - bits)
    ensures v == 0 <==> LowBits(acc, bits) == Zeros(bits)
  {
    hide Left, Half, Double, Or, Odd, And, Mask, Zeros;
    var f := to - bits;
    ShiftsAre(acc, f);
    ZeroBits(f);
    AppendBits(acc, 0, bits, f);
    DoubleStep(Shl(acc, f), 0);
    Masked(Left(acc, f), to);
    AllZero(v, LowBits(acc, bits), f);
  }

  lemma AllZero(v: bv32, pending: seq<bool>, f: nat)
    requires FitsIn(v, |pending| + f) && LowBits(v, |pending| + f) == pending + Zeros(f)
    ensures v == 0 <==> pending == Zeros(|pending|)
  {
    var n := |pending|;
    ZeroBits(n + f);
    assert Zeros(n + f) == Zeros(n) + Zeros(f);
    if pending == Zeros(n) {
      LowBitsInjective(v, 0, n + f);
    } else if v == 0 {
      LastUnit(pending, Zeros(f), Zeros(n), Zeros(f));
    }
  }

  lemma FinishPadded(data: seq<bv8>, from: nat, to: nat, out: seq<bv8>, acc: bv32, bits: nat, v: bv32)
    requires bits < to <= 8 && Holds(out, to, acc, bits, Units(data, from))
    requires v == And(Left(acc, to - bits), Mask(to))
    ensures v <= 255
    ensures Regrouped(data, from, to) == if bits > 0 then out + [Byte(v)] else out
  {
    hide Left, And, Mask, LowBits, FitsIn, Pack;
    PadOut(acc, bits, to, v);
    var all, tail := Units(data, from), LowBits(acc, bits);
    UnitsLength(out, to);
    Remainder(|all|, |out|, to, bits);
    if bits > 0 {
      var grown := out + [Byte(v)];
      GrowUnits(out, to, v, []);
      Assoc(Units(out, to), tail, Zeros(to - bits));
      assert LowBits(v, to) + [] == LowBits(v, to);
      PackUnique(all + Zeros(to - bits), grown, to, []);
    } else {
      assert all + Zeros(0) == Units(out, to) + [];
      PackUnique(all + Zeros(0), out, to, []);
    }
  }

  lemma FinishExactly(data: seq<bv8>, from: nat, to: nat, out: seq<bv8>, acc: bv32, bits: nat, v: bv32)
    requires bits < to <= 8 && Holds(out, to, acc, bits, Units(data, from))
    requires v == And(Left(acc, to - bits), Mask(to))
    ensures RegroupedExactly(data, from, to) == if bits >= from || v != 0 then None else Some(out)
  {
    hide Left, And, Mask, LowBits, FitsIn, Pack;
    PadOut(acc, bits, to, v);
    var all, tail := Units(data, from), LowBits(acc, bits);
    UnitsLength(out, to);
    Remainder(|all|, |out|, to, bits);
    assert all[|all| - bits..] == tail;
    PackUnique(all, out, to, tail);
  }

  lemma Start(to: nat, none: seq<bv8>, from: nat)
    requires none == []
    ensures Holds([], to, 0, 0, Units(none, from))
  {
  }

  lemma FitsAt(data: seq<bv8>, w: nat, i: nat)
    requires Fits(data, w) && i < |data|
    ensures FitsIn(Word(data[i]), w)
  {
  }

  /** convertBits: data must consist of `fromBits`-wide units, as both callers ensure. */
  method ConvertBits(data: seq<bv8>, fromBits: nat, toBits: nat, pad: bool)
    returns (result: Option<seq<bv8>>)
    requires 1 <= fromBits <= 8 && 1 <= toBits <= 8 && Fits(data, fromBits)
    ensures pad ==> result == Some(Regrouped(data, fromBits, toBits))
    ensures !pad ==> result == RegroupedExactly(data, fromBits, toBits)
  {
    hide *;
    var acc: bv32 := 0;
    var bits: nat := 0;
    MaskIs(toBits);
    var maxv := Left(1, toBits) - 1;
    var out: seq<bv8> := [];
    Start(toBits, data[..0], fromBits);
    for i := 0 to |data|
      invariant bits < toBits
      invariant Holds(out, toBits, acc, bits, Units(data[..i], fromBits))
    {
      var b := data[i];
      FitsAt(data, fromBits, i);
      assert data[..i + 1] == data[..i] + [b];
      Absorb(out, toBits, acc, b, bits, fromBits, data[..i]);
      acc := Or(Left(acc, fromBits), Word(b));
      bits := bits + fromBits;
      while bits >= toBits
        invariant bits < toBits + fromBits
        invariant Holds(out, toBits, acc, bits, Units(data[..i + 1], fromBits))
      {
        bits := bits - toBits;
        var v := And(Right(acc, bits), maxv);
        Emit(out, acc, bits, toBits, v, Units(data[..i + 1], fromBits));
        out := out + [Byte(v)];
      }
    }
    assert data[..|data|] == data;
    var v := And(Left(acc, toBits - bits), maxv);
    FinishPadded(data, fromBits, toBits, out, acc, bits, v);
    FinishExactly(data, fromBits, toBits, out, acc, bits, v);
    if pad {
      if bits > 0 {
        out := out + [Byte(v)];
      }
    } else if bits >= fromBits || v != 0 {
      return None;
    }
    return Some(out);
  }
}

/** Facts about multiples, kept apart from bit-vectors. */
module Multiples {
  /** How many zero bits complete n bits to a multiple of w. */
  function PadLength(n: nat, w: nat): nat
    requires w > 0
  {
    if n % w == 0 then 0 else w - n % w
  }

  lemma MultiplesApart(a: nat, b: nat, w: nat)
    ensures a < b ==> a * w + w <= b * w
  {
    var d := b - a - 1;
    assert b * w == a * w + w + d * w by {
      assert b == a + 1 + d;
      assert (a + 1 + d) * w == a * w + w + d * w;
    }
    if d >= 0 {
      assert d * w >= 0;
    }
  }

  lemma SameCount(a: nat, b: nat, n: nat, w: nat)
    requires w > 0
    requires a * w <= n < a * w + w && b * w <= n < b * w + w
    ensures a == b
  {
    MultiplesApart(a, b, w);
    MultiplesApart(b, a, w);
  }

  lemma Remainder(n: nat, q: nat, w: nat, r: nat)
    requires w > 0 && n == q * w + r && r < w
    ensures n % w == r && PadLength(n, w) == if r == 0 then 0 else w - r
  {
    var q', r' := n / w, n % w;
    assert n == q' * w + r';
    SameCount(q, q', n, w);
  }

  lemma SameQuotient(m: nat, n: nat, w: nat)
    requires w > 0 && m * w == n * w
    ensures m == n
  {
    MultiplesApart(m, n, w);
    MultiplesApart(n, m, w);
  }
}
