/**
  The BCH checksum of BIP-173, section "Checksum": a linear map on 30-bit states.

  As in BitGroups, each bit-vector operation has a name, so that proofs about runs of any
  length can leave the bit-level facts to lemmas about single steps.
 */
module Polymod {
  import B = BitGroups

  const GEN: seq<bv32> := [0x3b6a57b2, 0x26508e6d, 0x1ea119fa, 0x3d4233dd, 0x2a1462b3]

  predicate State30(c: bv32) { c < 0x4000_0000 }
  predicate Symbol(v: bv8) { v < 32 }
  function Xor(a: bv32, b: bv32): bv32 { a ^ b }
  function Top(chk: bv32): bv32 { chk >> 25 }
  function Shift(chk: bv32): bv32 { (chk & 0x1ffffff) << 5 }
  function Gen(i: nat): bv32 requires i < 5 { GEN[i] }
  predicate BitAt(x: bv32, i: nat) requires i < 5 { (x >> i) & 1 == 1 }

  /** The generator constants selected by the five bits of `top`. */
  function Feedback(top: bv32): bv32 {
    (if top & 1 == 1 then 0x3b6a57b2 else 0)
    ^ (if (top >> 1) & 1 == 1 then 0x26508e6d else 0)
    ^ (if (top >> 2) & 1 == 1 then 0x1ea119fa else 0)
    ^ (if (top >> 3) & 1 == 1 then 0x3d4233dd else 0)
    ^ (if (top >> 4) & 1 == 1 then 0x2a1462b3 else 0)
  }

  function Step(chk: bv32, v: bv8): bv32 {
    Xor(Xor(Shift(chk), B.Word(v)), Feedback(Top(chk)))
  }

  /** The state after feeding values, first to last, into state c. */
  function Run(c: bv32, values: seq<bv8>): bv32
    decreases |values|
  {
    if values == [] then c else Step(Run(c, values[..|values| - 1]), values[|values| - 1])
  }

  method Bech32Polymod(values: seq<bv8>) returns (chk: bv32)
    ensures chk == Run(1, values)
  {
    hide Gen, BitAt, Feedback, Xor, B.Word, Top, Shift;
    chk := 1;
    for k := 0 to |values|
      invariant chk == Run(1, values[..k])
    {
      var v := values[k];
      RunOne(1, values[..k], v);
      assert values[..k] + [v] == values[..k + 1];
      var top := Top(chk);
      chk := Xor(Shift(chk), B.Word(v));
      ghost var shifted := chk;
      for i := 0 to 5
        invariant chk == Selected(shifted, top, i)
      {
        if BitAt(top, i) {
          chk := Xor(chk, Gen(i));
        }
      }
      AllSelected(shifted, top);
    }
    assert values[..|values|] == values;
  }

  /** shifted, with the first n generators applied as the bits of top select them. */
  function Selected(shifted: bv32, top: bv32, n: nat): bv32
    requires n <= 5
    decreases n
  {
    if n == 0 then shifted
    else if BitAt(top, n - 1) then Xor(Selected(shifted, top, n - 1), Gen(n - 1))
    else Selected(shifted, top, n - 1)
  }

  function Tap(top: bv32, i: nat): bv32
    requires i < 5
  {
    if BitAt(top, i) then Gen(i) else 0
  }

  lemma TapsAreFeedback(top: bv32)
    ensures Feedback(top)
         == Xor(Xor(Xor(Xor(Tap(top, 0), Tap(top, 1)), Tap(top, 2)), Tap(top, 3)), Tap(top, 4))
  {
  }

  lemma XorLaws(a: bv32, b: bv32, c: bv32)
    ensures Xor(a, 0) == a && Xor(Xor(a, b), c) == Xor(a, Xor(b, c))
  {
  }

  lemma SelectedStep(shifted: bv32, top: bv32, n: nat, so: bv32)
    requires 1 <= n <= 5 && Selected(shifted, top, n - 1) == Xor(shifted, so)
    ensures Selected(shifted, top, n) == Xor(shifted, Xor(so, Tap(top, n - 1)))
  {
    hide Xor, BitAt, Gen;
    XorLaws(shifted, so, Tap(top, n - 1));
    XorLaws(so, 0, 0);
  }

  lemma AllSelected(shifted: bv32, top: bv32)
    ensures Selected(shifted, top, 5) == Xor(shifted, Feedback(top))
  {
    hide Tap, Feedback, Xor;
    TapsAreFeedback(top);
    var t := Tap(top, 0);
    XorLaws(shifted, 0, 0);
    ZeroXor(t);
    SelectedStep(shifted, top, 1, 0);
    SelectedStep(shifted, top, 2, t);
    t := Xor(t, Tap(top, 1));
    SelectedStep(shifted, top, 3, t);
    t := Xor(t, Tap(top, 2));
    SelectedStep(shifted, top, 4, t);
    t := Xor(t, Tap(top, 3));
    SelectedStep(shifted, top, 5, t);
  }

  lemma ZeroXor(a: bv32)
    ensures Xor(0, a) == a
  {
  }

  // ---- One step -------------------------------------------------------------------------

  lemma StepStays(c: bv32, v: bv8)
    requires State30(c) && Symbol(v)
    ensures State30(Step(c, v))
  {
  }

  /** The low five bits of the feedback determine which generators were selected. */
  lemma FeedbackInjective(s: bv32, t: bv32)
    requires s < 32 && t < 32 && Feedback(s) & 31 == Feedback(t) & 31
    ensures s == t
  {
  }

  lemma SameFeedback(a: bv32, b: bv32, w: bv32, f: bv32, g: bv32)
    requires Xor(Xor(Shift(a), w), f) == Xor(Xor(Shift(b), w), g)
    ensures f & 31 == g & 31
    ensures f == g ==> a & 0x1ffffff == b & 0x1ffffff
  {
  }

  lemma SameState(a: bv32, b: bv32)
    requires Top(a) == Top(b) && a & 0x1ffffff == b & 0x1ffffff
    ensures a == b
  {
  }

  lemma TopSmall(a: bv32)
    requires State30(a)
    ensures Top(a) < 32
  {
  }

  /** Each polymod step is injective on 30-bit states. */
  lemma StepInjective(a: bv32, b: bv32, v: bv8)
    requires State30(a) && State30(b) && Step(a, v) == Step(b, v)
    ensures a == b
  {
    hide Feedback, Xor, Shift, Top, B.Word, State30;
    SameFeedback(a, b, B.Word(v), Feedback(Top(a)), Feedback(Top(b)));
    TopSmall(a);
    TopSmall(b);
    FeedbackInjective(Top(a), Top(b));
    SameState(a, b);
  }

  lemma StepSeparates(c: bv32, v: bv8, w: bv8)
    requires v != w
    ensures Step(c, v) != Step(c, w)
  {
  }

  // ---- Whole runs -----------------------------------------------------------------------

  ghost predicate Symbols(values: seq<bv8>) {
    forall i :: 0 <= i < |values| ==> Symbol(values[i])
  }

  lemma RunOne(c: bv32, front: seq<bv8>, v: bv8)
    ensures Run(c, front + [v]) == Step(Run(c, front), v)
  {
    hide Step;
    assert (front + [v])[..|front|] == front;
  }

  lemma {:induction false} RunStays(c: bv32, values: seq<bv8>)
    requires State30(c) && Symbols(values)
    ensures State30(Run(c, values))
    decreases |values|
  {
    if values != [] {
      hide Step, State30, Symbol;
      RunStays(c, values[..|values| - 1]);
      StepStays(Run(c, values[..|values| - 1]), values[|values| - 1]);
    }
  }

  lemma {:induction false} RunConcat(c: bv32, a: seq<bv8>, b: seq<bv8>)
    ensures Run(c, a + b) == Run(Run(c, a), b)
    decreases |b|
  {
    hide Step;
    if b == [] {
      assert a + b == a;
    } else {
      assert (a + b)[..|a + b| - 1] == a + b[..|b| - 1];
      RunConcat(c, a, b[..|b| - 1]);
    }
  }

  /** Different states stay different under any further input, however long. */
  lemma {:induction false} RunInjective(a: bv32, b: bv32, values: seq<bv8>)
    requires State30(a) && State30(b) && Symbols(values)
    requires Run(a, values) == Run(b, values)
    ensures a == b
    decreases |values|
  {
    if values != [] {
      hide Step, State30, Symbol;
      var front := values[..|values| - 1];
      RunStays(a, front);
      RunStays(b, front);
      StepInjective(Run(a, front), Run(b, front), values[|values| - 1]);
      RunInjective(a, b, front);
    }
  }

  /** Changing exactly one symbol, anywhere in an input of any length, changes the checksum. */
  lemma SingleSubstitution(values: seq<bv8>, i: nat, v: bv8)
    requires Symbols(values) && Symbol(v) && i < |values| && v != values[i]
    ensures Run(1, values[i := v]) != Run(1, values)
  {
    hide Step, State30, Symbol;
    var front, was, back := values[..i], values[i], values[i + 1..];
    assert values == (front + [was]) + back && values[i := v] == (front + [v]) + back;
    InitialState();
    RunStays(1, front);
    RunConcat(1, front + [was], back);
    RunConcat(1, front + [v], back);
    RunOne(1, front, was);
    RunOne(1, front, v);
    var c := Run(1, front);
    StepSeparates(c, v, was);
    StepStays(c, v);
    StepStays(c, was);
    if Run(Step(c, v), back) == Run(Step(c, was), back) {
      RunInjective(Step(c, v), Step(c, was), back);
    }
  }

  lemma InitialState()
    ensures State30(1)
  {
  }

  // ---- The six checksum symbols ---------------------------------------------------------

  const ZEROS: seq<bv8> := [0, 0, 0, 0, 0, 0]

  /** d with one more symbol shifted in below. */
  function Push(d: bv32, v: bv8): bv32 { (d << 5) | B.Word(v) }

  /** Up to six symbols as one number, the first symbol highest. */
  function Pushed(s: seq<bv8>): bv32
  {
    if s == [] then 0 else Push(Pushed(s[..|s| - 1]), s[|s| - 1])
  }

  /** A difference below bit 25 in the state is simply shifted, untouched by the feedback. */
  lemma StepDifference(c: bv32, d: bv32, v: bv8)
    requires d < 0x200_0000 && Symbol(v)
    ensures Step(Xor(c, d), v) == Xor(Step(c, 0), Push(d, v))
  {
    hide Feedback;
    LowDifference(c, d);
    XorRegroup(c, d, v, Feedback(Top(c)));
  }

  lemma LowDifference(c: bv32, d: bv32)
    requires d < 0x200_0000
    ensures Top(Xor(c, d)) == Top(c)
  {
  }

  lemma XorRegroup(c: bv32, d: bv32, v: bv8, f: bv32)
    requires d < 0x200_0000 && Symbol(v)
    ensures Xor(Xor(Shift(Xor(c, d)), B.Word(v)), f) == Xor(Xor(Xor(Shift(c), B.Word(0)), f), Push(d, v))
  {
  }

  predicate Below(d: bv32, k: nat)
    requires k <= 6
  {
    match k
    case 0 => d < 1
    case 1 => d < 0x20
    case 2 => d < 0x400
    case 3 => d < 0x8000
    case 4 => d < 0x10_0000
    case 5 => d < 0x200_0000
    case 6 => d < 0x4000_0000
  }

  lemma PushBelow(d: bv32, v: bv8, k: nat)
    requires k < 6 && Below(d, k) && Symbol(v)
    ensures Below(Push(d, v), k + 1) && d < 0x200_0000
  {
  }

  lemma {:induction false} PushedBelow(s: seq<bv8>)
    requires |s| <= 6 && Symbols(s)
    ensures Below(Pushed(s), |s|)
    decreases |s|
  {
    hide Symbol, Push;
    if s != [] {
      hide Below;
      PushedBelow(s[..|s| - 1]);
      PushBelow(Pushed(s[..|s| - 1]), s[|s| - 1], |s| - 1);
    }
  }

  /** Six trailing symbols enter the state exactly as they are, on top of six zeros. */
  lemma {:induction false} TrailingSymbols(c: bv32, s: seq<bv8>)
    requires |s| <= 6 && Symbols(s)
    ensures Run(c, s) == Xor(Run(c, ZEROS[..|s|]), Pushed(s))
    decreases |s|
  {
    hide Step, Xor, Push, Symbol;
    if s == [] {
      XorLaws(c, 0, 0);
    } else {
      var front, v := s[..|s| - 1], s[|s| - 1];
      TrailingSymbols(c, front);
      PushedBelow(front);
      PushBelow(Pushed(front), v, |front|);
      StepDifference(Run(c, ZEROS[..|front|]), Pushed(front), v);
      assert ZEROS[..|s|] == ZEROS[..|front|] + [0];
      RunOne(c, ZEROS[..|front|], 0);
    }
  }

  function Low5(x: bv32): bv8 { (x & 31) as bv8 }
  function Drop5(x: bv32): bv32 { x >> 5 }
  function Shifted(m: bv32, n: nat): bv32 requires n <= 25 { m >> n }

  /** The five bits of m that become checksum symbol i: `byte((mod >> uint(5*(5-i))) & 31)`. */
  function SymbolAt(m: bv32, i: nat): bv8
    requires i < 6
  {
    Low5(Shifted(m, 5 * (5 - i)))
  }

  function Unpacked(m: bv32): (s: seq<bv8>)
  {
    [SymbolAt(m, 0), SymbolAt(m, 1), SymbolAt(m, 2), SymbolAt(m, 3), SymbolAt(m, 4), SymbolAt(m, 5)]
  }

  function Push6(a: bv8, b: bv8, c: bv8, d: bv8, e: bv8, f: bv8): bv32 {
    Push(Push(Push(Push(Push(Push(0, a), b), c), d), e), f)
  }

  lemma PushLow5(x: bv32)
    ensures Push(Drop5(x), Low5(x)) == x && Symbol(Low5(x))
  {
  }

  lemma Drops(m: bv32)
    requires State30(m)
    ensures Drop5(Drop5(Drop5(Drop5(Drop5(Drop5(m)))))) == 0
  {
  }

  lemma ShiftedLow(m: bv32)
    ensures Shifted(m, 0) == m && Shifted(m, 5) == Drop5(m) && Shifted(m, 10) == Drop5(Drop5(m))
  {
  }

  lemma ShiftedMiddle(m: bv32)
    ensures Shifted(m, 15) == Drop5(Drop5(Drop5(m)))
  {
  }

  lemma ShiftedHigh(m: bv32)
    ensures Shifted(m, 20) == Drop5(Drop5(Drop5(Drop5(m))))
    ensures Shifted(m, 25) == Drop5(Drop5(Drop5(Drop5(Drop5(m)))))
  {
  }

  lemma Push6Unpacked(m: bv32)
    requires State30(m)
    ensures Push6(SymbolAt(m, 0), SymbolAt(m, 1), SymbolAt(m, 2), SymbolAt(m, 3), SymbolAt(m, 4), SymbolAt(m, 5)) == m
    ensures forall i :: 0 <= i < 6 ==> Symbol(SymbolAt(m, i))
  {
    hide State30, Symbol, Shifted, Low5, Drop5, Push;
    ShiftedLow(m);
    ShiftedMiddle(m);
    ShiftedHigh(m);
    Drops(m);
    var m4 := Drop5(m);
    var m3 := Drop5(m4);
    var m2 := Drop5(m3);
    var m1 := Drop5(m2);
    var m0 := Drop5(m1);
    PushLow5(m);
    PushLow5(m4);
    PushLow5(m3);
    PushLow5(m2);
    PushLow5(m1);
    PushLow5(m0);
  }

  lemma PushedSix(s: seq<bv8>)
    requires |s| == 6
    ensures Pushed(s) == Push6(s[0], s[1], s[2], s[3], s[4], s[5])
  {
    hide Push;
    assert s[..5][..4] == s[..4] && s[..4][..3] == s[..3] && s[..3][..2] == s[..2] && s[..2][..1] == s[..1];
    assert Pushed(s) == Push(Push(Pushed(s[..4]), s[4]), s[5]);
    assert Pushed(s[..4]) == Push(Push(Pushed(s[..2]), s[2]), s[3]);
    assert s[..1] == [s[0]] && Pushed([s[0]]) == Push(Pushed([]), s[0]);
  }

  lemma PushInjective(d: bv32, e: bv32, v: bv8, w: bv8)
    requires d < 0x200_0000 && e < 0x200_0000 && Symbol(v) && Symbol(w) && Push(d, v) == Push(e, w)
    ensures d == e && v == w
  {
  }

  lemma {:induction false} PushedInjective(s: seq<bv8>, t: seq<bv8>)
    requires |s| == |t| <= 6 && Symbols(s) && Symbols(t) && Pushed(s) == Pushed(t)
    ensures s == t
    decreases |s|
  {
    hide Push, Symbol, Below;
    if s != [] {
      var n := |s| - 1;
      PushedBelow(s[..n]);
      PushedBelow(t[..n]);
      PushBelow(Pushed(s[..n]), s[n], n);
      PushBelow(Pushed(t[..n]), t[n], n);
      PushInjective(Pushed(s[..n]), Pushed(t[..n]), s[n], t[n]);
      PushedInjective(s[..n], t[..n]);
      assert s == s[..n] + [s[n]] && t == t[..n] + [t[n]];
    }
  }

  /** The checksum symbols of a message whose symbols left the state c. */
  function ChecksumOf(c: bv32): seq<bv8> {
    Unpacked(Xor(Run(c, ZEROS), 1))
  }

  lemma XorCancels(a: bv32, b: bv32)
    ensures Xor(a, b) == 1 <==> b == Xor(a, 1)
  {
    hide Xor;
    XorTwice(a, b);
    XorTwice(a, 1);
  }

  lemma XorTwice(a: bv32, b: bv32)
    ensures Xor(a, Xor(a, b)) == b
  {
  }

  lemma XorOneStays(a: bv32)
    requires State30(a)
    ensures State30(Xor(a, 1))
  {
  }

  lemma ZerosAreSymbols()
    ensures Symbols(ZEROS) && ZEROS[..6] == ZEROS
  {
  }

  lemma UnpackedIs(m: bv32)
    requires State30(m)
    ensures |Unpacked(m)| == 6 && Symbols(Unpacked(m)) && Pushed(Unpacked(m)) == m
  {
    hide Symbol, SymbolAt, Push6, State30;
    Push6Unpacked(m);
    PushedSix(Unpacked(m));
  }

  /** The checksum is the one and only list of six symbols that brings the state to 1. */
  lemma ChecksumUnique(c: bv32, s: seq<bv8>)
    requires State30(c) && |s| == 6 && Symbols(s)
    ensures Run(c, s) == 1 <==> s == ChecksumOf(c)
    ensures Symbols(ChecksumOf(c)) && |ChecksumOf(c)| == 6
  {
    hide Step, Xor, Symbol, State30, Unpacked, Pushed, Run;
    ZerosAreSymbols();
    RunStays(c, ZEROS);
    var z := Run(c, ZEROS);
    XorCancels(z, Pushed(s));
    XorOneStays(z);
    UnpackedIs(Xor(z, 1));
    TrailingSymbols(c, s);
    if Pushed(s) == Xor(z, 1) {
      PushedInjective(s, ChecksumOf(c));
    }
  }

  // ---- An anchor ------------------------------------------------------------------------

  lemma AnchorSteps()
    ensures Step(1, 3) == 0x23 && Step(0x23, 0) == 0x460 && Step(0x460, 1) == 0x8c01
    ensures Step(0x8c01, 10) == 0x11802a && Step(0x11802a, 28) == 0x230055c && Step(0x230055c, 25) == 0x3d6afc2b
    ensures Step(0x3d6afc2b, 31) == 0x2f84386 && Step(0x2f84386, 20) == 0x24622766 && Step(0x24622766, 31) == 1
  {
  }

  lemma RunThree(c: bv32, a: bv8, b: bv8, d: bv8)
    ensures Run(c, [a, b, d]) == Step(Step(Step(c, a), b), d)
  {
    hide Step;
    assert Run(c, []) == c;
    RunOne(c, [], a);
    assert [] + [a] == [a];
    RunOne(c, [a], b);
    assert [a] + [b] == [a, b];
    RunOne(c, [a, b], d);
    assert [a, b] + [d] == [a, b, d];
  }

  lemma RunSingle(c: bv32, a: bv8)
    ensures Run(c, [a]) == Step(c, a)
  {
    hide Step;
    assert Run(c, []) == c;
    RunOne(c, [], a);
    assert [] + [a] == [a];
  }

  lemma RunTwo(c: bv32, a: bv8, b: bv8)
    ensures Run(c, [a, b]) == Step(Step(c, a), b)
  {
    hide Step;
    RunSingle(c, a);
    RunOne(c, [a], b);
    assert [a] + [b] == [a, b];
  }

  lemma RunSix(c: bv32, a: bv8, b: bv8, d: bv8, e: bv8, f: bv8, g: bv8)
    ensures Run(c, [a, b, d, e, f, g]) == Step(Step(Step(Step(Step(Step(c, a), b), d), e), f), g)
  {
    hide Step;
    RunThree(c, a, b, d);
    RunThree(Run(c, [a, b, d]), e, f, g);
    hide Run;
    RunConcat(c, [a, b, d], [e, f, g]);
    assert [a, b, d] + [e, f, g] == [a, b, d, e, f, g];
  }

  /** The states of the empty message under the prefix "a", as in BIP-173's test vector. */
  lemma AnchorStates()
    ensures Run(1, [3, 0, 1]) == 0x8c01 && Run(0x8c01, [10, 28, 25, 31, 20, 31]) == 1
  {
    AnchorSteps();
    hide Step, Run;
    RunThree(1, 3, 0, 1);
    RunSix(0x8c01, 10, 28, 25, 31, 20, 31);
  }
}
