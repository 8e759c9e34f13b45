/** The list hash of the api: three xor-shifts and an addition per value. */
module ListHash {
  type U64 = bv64

  function Xor(x: U64, y: U64): U64 { x ^ y }
  function Plus(x: U64, y: U64): U64 { x + y }
  function R4(x: U64): U64 { x >> 4 }
  function R8(x: U64): U64 { x >> 8 }
  function R16(x: U64): U64 { x >> 16 }
  function R21(x: U64): U64 { x >> 21 }
  function R32(x: U64): U64 { x >> 32 }
  function R42(x: U64): U64 { x >> 42 }
  function L35(x: U64): U64 { x << 35 }

  function Mix(x: U64): U64 {
    var a := Xor(x, R21(x));
    var b := Xor(a, L35(a));
    Xor(b, R4(b))
  }

  // HashUpdate as a function of the old state; the addition is modulo 2^64.
  function Update(already: U64, value: U64): U64 { Plus(Mix(already), value) }

  // Xor and shifts

  lemma XorAssoc(x: U64, y: U64, z: U64)
    ensures Xor(Xor(x, y), z) == Xor(x, Xor(y, z))
  {
  }

  lemma XorSelf(x: U64, y: U64)
    ensures Xor(x, y) == Xor(y, x) && Xor(x, x) == 0 && Xor(x, 0) == x
  {
  }

  ghost predicate Linear(f: U64 -> U64) { forall x, y :: f(Xor(x, y)) == Xor(f(x), f(y)) }

  lemma R4Linear() ensures Linear(R4) {
    forall x, y ensures R4(Xor(x, y)) == Xor(R4(x), R4(y)) {
    }
  }

  lemma R8Linear() ensures Linear(R8) {
    forall x, y ensures R8(Xor(x, y)) == Xor(R8(x), R8(y)) {
    }
  }

  lemma R16Linear() ensures Linear(R16) {
    forall x, y ensures R16(Xor(x, y)) == Xor(R16(x), R16(y)) {
    }
  }

  lemma R21Linear() ensures Linear(R21) {
    forall x, y ensures R21(Xor(x, y)) == Xor(R21(x), R21(y)) {
    }
  }

  lemma R32Linear() ensures Linear(R32) {
    forall x, y ensures R32(Xor(x, y)) == Xor(R32(x), R32(y)) {
    }
  }

  lemma R42Linear() ensures Linear(R42) {
    forall x, y ensures R42(Xor(x, y)) == Xor(R42(x), R42(y)) {
    }
  }

  lemma L35Linear() ensures Linear(L35) {
    forall x, y ensures L35(Xor(x, y)) == Xor(L35(x), L35(y)) {
    }
  }

  lemma R4Twice(x: U64)
    ensures R4(R4(x)) == R8(x)
  {
  }

  lemma R8Twice(x: U64)
    ensures R8(R8(x)) == R16(x)
  {
  }

  lemma R16Twice(x: U64)
    ensures R16(R16(x)) == R32(x)
  {
  }

  lemma R21Twice(x: U64)
    ensures R21(R21(x)) == R42(x)
  {
  }

  lemma ShiftedOut(x: U64)
    ensures R32(R32(x)) == 0 && R42(R42(x)) == 0 && L35(L35(x)) == 0
  {
  }

  // One xor-shift step after the other with the same shift is one step with twice the shift.
  lemma Doubling(f: U64 -> U64, x: U64)
    requires Linear(f)
    ensures Xor(Xor(x, f(x)), f(Xor(x, f(x)))) == Xor(x, f(f(x)))
  {
    hide Xor;
    var a, b := f(x), f(f(x));
    assert f(Xor(x, a)) == Xor(a, b);
    XorAssoc(x, a, Xor(a, b));
    XorAssoc(a, a, b);
    XorSelf(a, a);
    XorSelf(0, b);
    XorSelf(b, 0);
  }

  // Undoing the three steps in the opposite order.
  function Undo4(y: U64): U64 {
    var y1 := Xor(y, R4(y));
    var y2 := Xor(y1, R8(y1));
    var y3 := Xor(y2, R16(y2));
    Xor(y3, R32(y3))
  }

  function Undo35(y: U64): U64 { Xor(y, L35(y)) }

  function Undo21(y: U64): U64 {
    var y1 := Xor(y, R21(y));
    Xor(y1, R42(y1))
  }

  function Unmix(y: U64): U64 { Undo21(Undo35(Undo4(y))) }

  lemma Undoes4(x: U64)
    ensures Undo4(Xor(x, R4(x))) == x
  {
    hide Xor, R4, R8, R16, R32;
    R4Linear();
    R8Linear();
    R16Linear();
    R32Linear();
    Doubling(R4, x);
    R4Twice(x);
    Doubling(R8, x);
    R8Twice(x);
    Doubling(R16, x);
    R16Twice(x);
    Doubling(R32, x);
    ShiftedOut(x);
    XorSelf(x, 0);
  }

  lemma Undoes35(x: U64)
    ensures Undo35(Xor(x, L35(x))) == x
  {
    hide Xor, L35;
    L35Linear();
    Doubling(L35, x);
    ShiftedOut(x);
    XorSelf(x, 0);
  }

  lemma Undoes21(x: U64)
    ensures Undo21(Xor(x, R21(x))) == x
  {
    hide Xor, R21, R42;
    R21Linear();
    R42Linear();
    Doubling(R21, x);
    R21Twice(x);
    Doubling(R42, x);
    ShiftedOut(x);
    XorSelf(x, 0);
  }

  lemma UnmixMix(x: U64)
    ensures Unmix(Mix(x)) == x
  {
    hide Xor, R4, R21, L35, Undo4, Undo35, Undo21;
    var a := Xor(x, R21(x));
    var b := Xor(a, L35(a));
    Undoes4(b);
    Undoes35(a);
    Undoes21(x);
  }

  lemma FourXor(x: U64, a: U64, b: U64, c: U64)
    ensures Xor(Xor(x, b), Xor(a, c)) == Xor(Xor(x, a), Xor(b, c))
  {
    hide Xor;
    XorAssoc(x, b, Xor(a, c));
    XorAssoc(x, a, Xor(b, c));
    XorAssoc(b, a, c);
    XorAssoc(a, b, c);
    XorSelf(a, b);
  }

  lemma ShiftsCommute(x: U64)
    ensures R4(R8(x)) == R8(R4(x)) && R4(R16(x)) == R16(R4(x)) && R4(R32(x)) == R32(R4(x)) && R21(R42(x)) == R42(R21(x))
  {
    hide R4, R8, R16, R32, R21, R42;
    Eight(x);
    Eight(R8(x));
    Sixteen(x);
    Sixteen(R16(x));
    R16Twice(x);
    R16Twice(R4(x));
    R21Twice(x);
    R21Twice(R21(x));
  }

  lemma Eight(x: U64)
    ensures R4(R8(x)) == R8(R4(x))
  {
    hide R4, R8;
    R4Twice(x);
    R4Twice(R4(x));
  }

  lemma Sixteen(x: U64)
    ensures R4(R16(x)) == R16(R4(x))
  {
    hide R4, R8, R16;
    R8Twice(x);
    R8Twice(R4(x));
    Eight(x);
    Eight(R8(x));
  }

  lemma Redoes4(y: U64)
    ensures Xor(Undo4(y), R4(Undo4(y))) == y
  {
    hide Xor, R4, R8, R16, R32;
    R4Linear();
    R8Linear();
    R16Linear();
    R32Linear();
    var y1 := Xor(y, R4(y));
    var y2 := Xor(y1, R8(y1));
    var y3 := Xor(y2, R16(y2));
    // Steps with shifts in the same direction commute, so the undoing can come first.
    ShiftsCommute(y3);
    FourXor(y3, R4(y3), R32(y3), R4(R32(y3)));
    ShiftsCommute(y2);
    FourXor(y2, R4(y2), R16(y2), R4(R16(y2)));
    ShiftsCommute(y1);
    FourXor(y1, R4(y1), R8(y1), R4(R8(y1)));
    Undoes4(y);
  }

  lemma Redoes21(y: U64)
    ensures Xor(Undo21(y), R21(Undo21(y))) == y
  {
    hide Xor, R21, R42;
    R21Linear();
    R42Linear();
    var y1 := Xor(y, R21(y));
    ShiftsCommute(y1);
    FourXor(y1, R21(y1), R42(y1), R21(R42(y1)));
    Undoes21(y);
  }

  lemma MixUnmix(y: U64)
    ensures Mix(Unmix(y)) == y
  {
    hide Xor, R4, R21, L35, Undo4, Undo21;
    var b := Undo4(y);
    var a := Undo35(b);
    Redoes21(a);
    Undoes35(b);
    Redoes4(y);
  }

  // Equality under a name, so that the equation of two sums reaches Cancel as it stands.
  predicate Same(x: U64, y: U64) { x == y }

  lemma Cancel(x: U64, y: U64, v: U64)
    requires Same(x + v, y + v)
    ensures x == y
  {
  }

  lemma PlusCommutes(x: U64, y: U64)
    ensures Plus(x, y) == Plus(y, x)
  {
  }

  lemma PlusLeft(x: U64, y: U64, v: U64)
    requires Plus(x, v) == Plus(y, v)
    ensures x == y
  {
    assert Same(Plus(x, v), Plus(y, v));
    hide Same;
    assert Same(x + v, y + v);
    Cancel(x, y, v);
  }

  // For a fixed value different states stay different, so an update permutes the 64-bit states;
  // for a fixed state different values give different results.
  lemma UpdateInjective(s: U64, t: U64, v: U64, w: U64)
    ensures Update(s, v) == Update(t, v) <==> s == t
    ensures Update(s, v) == Update(s, w) <==> v == w
  {
    hide Mix, Unmix, Plus;
    if Update(s, v) == Update(t, v) {
      PlusLeft(Mix(s), Mix(t), v);
      UnmixMix(s);
      UnmixMix(t);
    }
    if Update(s, v) == Update(s, w) {
      PlusCommutes(v, Mix(s));
      PlusCommutes(w, Mix(s));
      PlusLeft(v, w, Mix(s));
    }
  }

  // The result and the value determine the state before: no other state gives this result.
  ghost predicate Determines(r: U64, value: U64, already: U64) { forall s :: Update(s, value) == r <==> s == already }

  method HashUpdate(already: U64, value: U64) returns (r: U64)
    ensures r == Update(already, value) && Determines(r, value, already)
  {
    hide Xor, Plus, R21, L35, R4;
    r := already;
    r := Xor(r, R21(r));
    r := Xor(r, L35(r));
    r := Xor(r, R4(r));
    r := Plus(r, value);
    assert r == Update(already, value);
    hide Update;
    forall s ensures Update(s, value) == r <==> s == already {
      UpdateInjective(s, already, value, value);
    }
  }

  lemma PlusMinus(t: U64, v: U64)
    ensures Plus(t - v, v) == t
  {
  }

  // And every state is reached: the update by a fixed value is a bijection of the states.
  lemma UpdateOnto(t: U64, v: U64)
    ensures Update(Unmix(t - v), v) == t
  {
    hide Mix, Unmix, Plus;
    PlusMinus(t, v);
    MixUnmix(t - v);
  }

  // Lists

  function HashFrom(state: U64, values: seq<U64>): U64 {
    if values == [] then state else Update(HashFrom(state, values[..|values| - 1]), values[|values| - 1])
  }

  function HashOf(values: seq<U64>): U64 { HashFrom(0, values) }

  method CountHash(range: seq<U64>) returns (result: U64)
    ensures result == HashOf(range)
  {
    hide Update, Determines;
    result := 0;
    for i := 0 to |range|
      invariant result == HashFrom(0, range[..i])
    {
      assert range[..i + 1][..i] == range[..i];
      result := HashUpdate(result, range[i]);
    }
    assert range[..|range|] == range;
  }

  lemma {:induction false} HashFromAppend(state: U64, a: seq<U64>, b: seq<U64>)
    ensures HashFrom(state, a + b) == HashFrom(HashFrom(state, a), b)
    decreases |b|
  {
    hide Update;
    if b == [] {
      assert a + b == a;
    } else {
      var n := |b| - 1;
      assert (a + b)[..|a| + n] == a + b[..n];
      HashFromAppend(state, a, b[..n]);
    }
  }

  // Any list permutes the states.
  lemma {:induction false} HashFromInjective(s: U64, t: U64, values: seq<U64>)
    ensures HashFrom(s, values) == HashFrom(t, values) <==> s == t
    decreases |values|
  {
    hide Update;
    if values != [] {
      var n := |values| - 1;
      HashFromInjective(s, t, values[..n]);
      UpdateInjective(HashFrom(s, values[..n]), HashFrom(t, values[..n]), values[n], 0);
    }
  }

  // Two lists that differ in exactly one position hash differently, whatever stands around it.
  lemma OneValueDecides(before: seq<U64>, v: U64, w: U64, after: seq<U64>)
    ensures HashOf(before + [v] + after) == HashOf(before + [w] + after) <==> v == w
  {
    hide Update;
    HashFromAppend(0, before + [v], after);
    HashFromAppend(0, before + [w], after);
    HashFromAppend(0, before, [v]);
    HashFromAppend(0, before, [w]);
    var s := HashOf(before);
    assert [v][..0] == [] && [w][..0] == [];
    HashFromInjective(Update(s, v), Update(s, w), after);
    UpdateInjective(s, s, v, w);
  }

  lemma OnePositionDecides(a: seq<U64>, b: seq<U64>, k: nat)
    requires |a| == |b| && k < |a| && a[..k] == b[..k] && a[k + 1..] == b[k + 1..]
    ensures HashOf(a) == HashOf(b) <==> a == b
  {
    hide HashOf;
    assert a == a[..k] + [a[k]] + a[k + 1..] && b == a[..k] + [b[k]] + a[k + 1..];
    OneValueDecides(a[..k], a[k], b[k], a[k + 1..]);
  }

  // Lists of different lengths may collide: zeros in front of a list leave its hash unchanged.
  lemma LeadingZeroInvisible(values: seq<U64>)
    ensures HashOf([0] + values) == HashOf(values)
  {
    assert Update(0, 0) == 0;
    hide Update;
    HashFromAppend(0, [0], values);
    assert [0 as U64][..0] == [];
  }

  // One update of a word whose bits reach every shift, with a value that carries out.
  lemma KnownUpdate()
    ensures Update(0x8123_4567_89ab_cdef, 0xfedc_ba98_7654_3210) == 0x1bd3_3b51_f10d_30c8
    ensures Update(0, 1) == 1 && Update(0x0000_0000_0000_0001, 1) == 0x0000_0008_8000_0002
  {
  }
}
