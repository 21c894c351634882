/** The Rabin hash is a remainder: long division of polynomials over GF(2). */
module RabinDivision {
  import opened Rabin

  /** A polynomial, highest coefficient first: those of degree 32 and up, then the lower 32. */
  datatype Poly = Poly(hi: seq<bool>, lo: bv32)

  function Bit(b: bool): bv32 { if b then 1 else 0 }

  /** p * t + b */
  function ShiftIn(p: Poly, b: bool): Poly {
    Poly(p.hi + [Top(p.lo)], Xor(Shl(p.lo), Bit(b)))
  }

  function FromBits(bits: seq<bool>): Poly {
    if bits == [] then Poly([], 0) else ShiftIn(FromBits(bits[..|bits| - 1]), bits[|bits| - 1])
  }

  /** p + c * (t^32 + irr) */
  function AddModulus(p: Poly, c: bool, irr: bv32): Poly
    requires p.hi != []
  {
    if c then Poly(p.hi[|p.hi| - 1 := !p.hi[|p.hi| - 1]], Xor(p.lo, irr)) else p
  }

  /** q * (t^32 + irr), by schoolbook multiplication. */
  function Product(q: seq<bool>, irr: bv32): (p: Poly)
    ensures |p.hi| == |q|
  {
    if q == [] then Poly([], 0)
    else AddModulus(ShiftIn(Product(q[..|q| - 1], irr), false), q[|q| - 1], irr)
  }

  function AddLow(p: Poly, r: bv32): Poly { p.(lo := Xor(p.lo, r)) }

  /** The bits fed one by one into a register that is reduced at every shift. */
  function Rem(bits: seq<bool>, irr: bv32): bv32 {
    if bits == [] then 0 else Xor(MulT(Rem(bits[..|bits| - 1], irr), irr), Bit(bits[|bits| - 1]))
  }

  /** The bits that fall out of that register. */
  function Quot(bits: seq<bool>, irr: bv32): (q: seq<bool>)
    ensures |q| == |bits|
  {
    if bits == [] then [] else Quot(bits[..|bits| - 1], irr) + [Top(Rem(bits[..|bits| - 1], irr))]
  }

  lemma ProductNext(q: seq<bool>, c: bool, irr: bv32)
    ensures Product(q + [c], irr) == AddModulus(ShiftIn(Product(q, irr), false), c, irr)
  {
    hide Xor, Shl, Top, Bit;
    assert (q + [c])[..|q|] == q;
  }

  lemma DivideStep(p: Poly, r: bv32, b: bool, irr: bv32)
    ensures ShiftIn(AddLow(p, r), b) ==
            AddLow(AddModulus(ShiftIn(p, false), Top(r), irr), Xor(MulT(r, irr), Bit(b)))
  {
    hide Xor, Shl, Top, Bit;
    ShlXorWord(p.lo, r);
    TopXor(p.lo, r);
    LowStep(Shl(p.lo), Shl(r), irr, Bit(b));
  }

  /** The register holds the remainder of the division by t^32 + irr. */
  lemma {:induction false} Division(bits: seq<bool>, irr: bv32)
    ensures FromBits(bits) == AddLow(Product(Quot(bits, irr), irr), Rem(bits, irr))
  {
    hide Xor, Top, Bit, ShiftIn, AddModulus, MulT, Product;
    if bits == [] {
      ProductNone(irr);
      XorSelf(0);
    } else {
      var n := |bits| - 1;
      Division(bits[..n], irr);
      var q, r := Quot(bits[..n], irr), Rem(bits[..n], irr);
      ProductNext(q, Top(r), irr);
      DivideStep(Product(q, irr), r, bits[n], irr);
    }
  }

  lemma ProductNone(irr: bv32)
    ensures Product([], irr) == Poly([], 0)
  {
  }

  lemma LowStep(p: bv32, r: bv32, irr: bv32, b: bv32)
    ensures Xor(Xor(p, r), b) == Xor(Xor(p, Bit(false)), Xor(r, b))
    ensures Xor(Xor(p, r), b) == Xor(Xor(Xor(p, Bit(false)), irr), Xor(Xor(r, irr), b))
  {
    hide Xor;
    XorSelf(p);
    XorAssoc(p, r, b);
    XorLaws(p, Xor(r, b), irr);
    XorLaws(r, irr, b);
  }

  lemma HighNext(p: Poly, c: bool, irr: bv32)
    ensures AddModulus(ShiftIn(p, false), c, irr).hi == p.hi + [Top(p.lo) != c]
  {
    hide Xor, Shl, Top, Bit;
  }

  /** The quotient is determined by the coefficients of degree 32 and up of its product. */
  lemma {:induction false} ProductInjective(q: seq<bool>, q': seq<bool>, irr: bv32)
    requires |q| == |q'| && Product(q, irr).hi == Product(q', irr).hi
    ensures q == q'
  {
    hide Xor, Top, Bit, ShiftIn, AddModulus, Product;
    if q != [] {
      var n := |q| - 1;
      var a, a' := q[..n], q'[..n];
      assert q == a + [q[n]] && q' == a' + [q'[n]];
      ProductNext(a, q[n], irr);
      ProductNext(a', q'[n], irr);
      var p, p' := Product(a, irr), Product(a', irr);
      HighNext(p, q[n], irr);
      HighNext(p', q'[n], irr);
      LastEqual(p.hi, Top(p.lo) != q[n], p'.hi, Top(p'.lo) != q'[n]);
      ProductInjective(a, a', irr);
    }
  }

  lemma LastEqual(a: seq<bool>, x: bool, b: seq<bool>, y: bool)
    requires |a| == |b| && a + [x] == b + [y]
    ensures a == b && x == y
  {
    assert (a + [x])[..|a|] == a && (b + [y])[..|b|] == b && (a + [x])[|a|] == x && (b + [y])[|b|] == y;
  }

  /** No other pair of a quotient and a remainder of degree below 32 gives the polynomial. */
  lemma DivisionUnique(bits: seq<bool>, q: seq<bool>, r: bv32, irr: bv32)
    requires |q| == |bits| && FromBits(bits) == AddLow(Product(q, irr), r)
    ensures q == Quot(bits, irr) && r == Rem(bits, irr)
  {
    hide Xor, FromBits, Product, Quot, Rem;
    Division(bits, irr);
    ProductInjective(q, Quot(bits, irr), irr);
    XorLaws(Product(q, irr).lo, r, 0);
    XorLaws(Product(q, irr).lo, Rem(bits, irr), 0);
    XorCancel(Product(q, irr).lo, r, Rem(bits, irr));
  }

  lemma XorCancel(a: bv32, b: bv32, c: bv32)
    requires Xor(a, b) == Xor(a, c)
    ensures b == c
  {
    hide Xor;
    XorAssoc(a, a, b);
    XorAssoc(a, a, c);
    XorSelf(a);
    XorComm(0, b);
    XorComm(0, c);
    XorSelf(b);
    XorSelf(c);
  }

  lemma {:induction false} RemAppend(a: seq<bool>, c: seq<bool>, irr: bv32)
    ensures Rem(a + c, irr) == Xor(Times(Rem(a, irr), |c|, irr), Rem(c, irr))
  {
    hide Xor, MulT, Bit;
    if c == [] {
      assert a + c == a;
      XorSelf(Rem(a, irr));
    } else {
      var n := |c| - 1;
      assert (a + c)[..|a| + n] == a + c[..n];
      RemAppend(a, c[..n], irr);
      MulTLinear(Times(Rem(a, irr), n, irr), Rem(c[..n], irr), irr);
      XorAssoc(MulT(Times(Rem(a, irr), n, irr), irr), MulT(Rem(c[..n], irr), irr), Bit(c[n]));
    }
  }

  /** The bits of a byte, highest first. */
  function ByteBits(b: Uchar): seq<bool> {
    seq(8, (i: nat) requires i < 8 => b & BITS[7 - i] != 0)
  }

  function BitsOf(w: seq<Uchar>): seq<bool> {
    if w == [] then [] else BitsOf(w[..|w| - 1]) + ByteBits(w[|w| - 1])
  }

  function Feed(v: bv32, b: Uchar, j: nat): bv32
    requires j < 8
  {
    Xor(Shl(v), Bit(b & BITS[j] != 0))
  }

  /** The register after the first i bits of a byte, as long as no bit falls out. */
  function Fed(b: Uchar, i: nat): bv32
    requires i <= 8
  {
    if i == 0 then 0 else Feed(Fed(b, i - 1), b, 8 - i)
  }

  lemma FeedByte(b: Uchar)
    ensures var v0 := Feed(0, b, 7); var v1 := Feed(v0, b, 6); var v2 := Feed(v1, b, 5); var v3 := Feed(v2, b, 4);
            var v4 := Feed(v3, b, 3); var v5 := Feed(v4, b, 2); var v6 := Feed(v5, b, 1);
            Feed(v6, b, 0) == b
  {
  }

  lemma FeedNoTop(b: Uchar)
    ensures var v0 := Feed(0, b, 7); var v1 := Feed(v0, b, 6); var v2 := Feed(v1, b, 5); var v3 := Feed(v2, b, 4);
            var v4 := Feed(v3, b, 3); var v5 := Feed(v4, b, 2); var v6 := Feed(v5, b, 1);
            !Top(v0) && !Top(v1) && !Top(v2) && !Top(v3) && !Top(v4) && !Top(v5) && !Top(v6)
  {
  }

  lemma FedIs(b: Uchar, i: nat)
    requires i < 8
    ensures !Top(Fed(b, i)) && Fed(b, 8) == b
  {
    hide Feed, Top;
    FeedByte(b);
    FeedNoTop(b);
    ShlZero();
    assert Fed(b, 1) == Feed(0, b, 7);
    assert Fed(b, 2) == Feed(Fed(b, 1), b, 6);
    assert Fed(b, 3) == Feed(Fed(b, 2), b, 5);
    assert Fed(b, 4) == Feed(Fed(b, 3), b, 4);
    assert Fed(b, 5) == Feed(Fed(b, 4), b, 3);
    assert Fed(b, 6) == Feed(Fed(b, 5), b, 2);
    assert Fed(b, 7) == Feed(Fed(b, 6), b, 1);
  }

  lemma RemNext(b: Uchar, i: nat, irr: bv32)
    requires 0 < i <= 8
    ensures |ByteBits(b)| == 8
    ensures Rem(ByteBits(b)[..i], irr) == Xor(MulT(Rem(ByteBits(b)[..i - 1], irr), irr), Bit(b & BITS[8 - i] != 0))
  {
    hide Xor, MulT, Bit, ByteBits, Rem;
    var c := ByteBits(b);
    ByteBit(b, i - 1);
    assert c[..i] == c[..i - 1] + [c[i - 1]];
    RemMore(c[..i - 1], c[i - 1], irr);
  }

  lemma ByteBit(b: Uchar, k: nat)
    requires k < 8
    ensures |ByteBits(b)| == 8 && ByteBits(b)[k] == (b & BITS[7 - k] != 0)
  {
    hide BITS;
  }

  lemma RemMore(c: seq<bool>, x: bool, irr: bv32)
    ensures Rem(c + [x], irr) == Xor(MulT(Rem(c, irr), irr), Bit(x))
  {
    hide Xor, MulT, Bit;
    assert (c + [x])[..|c|] == c;
  }

  lemma {:induction false} RemFed(b: Uchar, i: nat, irr: bv32)
    requires i <= 8
    ensures Rem(ByteBits(b)[..i], irr) == Fed(b, i)
  {
    hide Xor, Shl, Top, Bit, ByteBits;
    if i > 0 {
      RemFed(b, i - 1, irr);
      FedIs(b, i - 1);
      RemNext(b, i, irr);
    }
  }

  lemma RemByte(b: Uchar, irr: bv32)
    ensures Rem(ByteBits(b), irr) == b
  {
    hide Fed, Rem;
    RemFed(b, 8, irr);
    FedIs(b, 0);
    assert ByteBits(b)[..8] == ByteBits(b);
  }

  /** The hash of a string is the remainder of the polynomial its bits are the coefficients of. */
  lemma {:induction false} HashIsRemainder(w: seq<Uchar>, irr: bv32)
    ensures Hash(w, irr) == Rem(BitsOf(w), irr)
  {
    hide Xor, Times, ByteBits;
    if w != [] {
      var n := |w| - 1;
      HashIsRemainder(w[..n], irr);
      RemAppend(BitsOf(w[..n]), ByteBits(w[n]), irr);
      RemByte(w[n], irr);
      ByteBitsLength(w[n]);
    }
  }

  lemma ByteBitsLength(b: Uchar)
    ensures |ByteBits(b)| == 8
  {
  }

  /** With the window length NWINDOW the hash in the search is, at every position, the remainder of
      the last NWINDOW bytes, and nothing else is. */
  lemma RollingIsRemainder(p: seq<Uchar>, i: nat, irr: bv32, q: seq<bool>, r: bv32)
    requires NWINDOW <= i <= |p| && |q| == |BitsOf(Window(p, i))|
    ensures var bits := BitsOf(Window(p, i));
            FromBits(bits) == AddLow(Product(q, irr), r) <==>
            q == Quot(bits, irr) && r == Rolling(p, i, Reach(NWINDOW), irr)
  {
    hide Xor, FromBits, Product, Quot, Rem, Rolling, Hash, BitsOf;
    var bits := BitsOf(Window(p, i));
    RollingIsWindow(p, i, irr);
    HashIsRemainder(Window(p, i), irr);
    Division(bits, irr);
    if FromBits(bits) == AddLow(Product(q, irr), r) {
      DivisionUnique(bits, q, r, irr);
    }
  }
}
