/** Two's-complement reading of 64-bit words, as `ctypes` and the lane mask do it. */
module Words {

  const TWO_TO_THE_63: int := 0x8000_0000_0000_0000
  const TWO_TO_THE_64: int := 0x1_0000_0000_0000_0000
  const TWO_TO_THE_32: int := 0x1_0000_0000

  /** A `uint64_t` lane. */
  type Word = w: int | 0 <= w < TWO_TO_THE_64

  /** What an `int64_t` cell can hold. */
  predicate InInt64(v: int) {
    -TWO_TO_THE_63 <= v < TWO_TO_THE_63
  }

  /** `v & 0xFFFFFFFFFFFFFFFF` on an unbounded Python integer. */
  function ToWord(v: int): Word {
    v % TWO_TO_THE_64
  }

  /** `ctypes.c_int64(w).value` of a word. */
  function ToSigned(w: Word): int {
    if w < TWO_TO_THE_63 then w else w - TWO_TO_THE_64
  }

  /** What an `int64_t` array cell holds after a Python integer is stored: ctypes wraps silently. */
  function WrapInt64(v: int): int {
    ToSigned(ToWord(v))
  }

  /** `ctypes.c_uint32(n).value`: the count the C side receives. */
  function CUint32(n: nat): nat {
    n % TWO_TO_THE_32
  }

  predicate Congruent(a: int, b: int) {
    (a - b) % TWO_TO_THE_64 == 0
  }

  /** Wrapping yields the one value of the signed range congruent to `v`. */
  lemma WrapIsTheSignedResidue(v: int, r: int)
    ensures r == WrapInt64(v) <==> InInt64(r) && Congruent(r, v)
  {
    var q := v / TWO_TO_THE_64;
    assert v == q * TWO_TO_THE_64 + ToWord(v);
    if InInt64(r) && Congruent(r, v) {
      var k := (r - v) / TWO_TO_THE_64;
      assert r - v == k * TWO_TO_THE_64;
    }
  }

  lemma WrapOfInRange(v: int)
    requires InInt64(v)
    ensures WrapInt64(v) == v
  {
    WrapIsTheSignedResidue(v, v);
  }

  /** Masking yields the one value of the unsigned range congruent to `v`. */
  lemma MaskIsTheUnsignedResidue(v: int, r: int)
    ensures r == ToWord(v) <==> 0 <= r < TWO_TO_THE_64 && Congruent(r, v)
  {
    var q := v / TWO_TO_THE_64;
    assert v == q * TWO_TO_THE_64 + ToWord(v);
    if 0 <= r < TWO_TO_THE_64 && Congruent(r, v) {
      var k := (r - v) / TWO_TO_THE_64;
      assert r - v == k * TWO_TO_THE_64;
    }
  }

  /** Two integers share a word exactly when they are congruent. */
  lemma SharedWordIffCongruent(v: int, r: int)
    ensures ToWord(v) == ToWord(r) <==> Congruent(v, r)
  {
    var p, q := r / TWO_TO_THE_64, v / TWO_TO_THE_64;
    assert v - r == (q - p) * TWO_TO_THE_64 + (ToWord(v) - ToWord(r));
    if Congruent(v, r) {
      var k := (v - r) / TWO_TO_THE_64;
      assert v - r == k * TWO_TO_THE_64;
    }
  }

  lemma WordOfSigned(w: Word)
    ensures ToWord(ToSigned(w)) == w
    ensures InInt64(ToSigned(w))
  {
  }
}
