/** Content-defined chunking: the Rabin tables, the rolling hash and the search for a cut. */
module Rabin {

  const NWINDOW: nat := 32
  const RABIN_MASK: bv32 := 0xfff
  const IRRPOLY: bv32 := 0x45c2b6a1

  type Uchar = b: bv32 | b < 256

  /** Addition of polynomials over GF(2). */
  function Xor(a: bv32, b: bv32): bv32 { a ^ b }

  function Shl(x: bv32): bv32 { x << 1 }

  function Shl8(x: bv32): bv32 { x << 8 }

  predicate Top(x: bv32) { x >> 31 != 0 }

  lemma XorComm(a: bv32, b: bv32)
    ensures Xor(a, b) == Xor(b, a)
  {
  }

  lemma XorAssoc(a: bv32, b: bv32, c: bv32)
    ensures Xor(Xor(a, b), c) == Xor(a, Xor(b, c))
  {
  }

  lemma XorSelf(a: bv32)
    ensures Xor(a, a) == 0 && Xor(a, 0) == a
  {
  }

  lemma XorLaws(a: bv32, b: bv32, c: bv32)
    ensures Xor(a, b) == Xor(b, a) && Xor(a, 0) == a && Xor(a, a) == 0
    ensures Xor(Xor(a, b), c) == Xor(a, Xor(b, c)) == Xor(Xor(a, c), b)
    ensures Xor(Xor(a, c), Xor(b, c)) == Xor(a, b)
  {
    hide Xor;
    XorComm(a, b);
    XorComm(b, c);
    XorSelf(a);
    XorSelf(c);
    XorAssoc(a, b, c);
    XorAssoc(a, c, b);
    XorAssoc(a, c, Xor(b, c));
    XorComm(c, Xor(b, c));
    XorAssoc(b, c, c);
    XorSelf(b);
  }

  lemma ShlXorWord(x: bv32, y: bv32)
    ensures Shl(Xor(x, y)) == Xor(Shl(x), Shl(y))
  {
  }

  lemma TopXor(x: bv32, y: bv32)
    ensures Top(Xor(x, y)) <==> Top(x) != Top(y)
  {
  }

  lemma ShlZero()
    ensures Shl(0) == 0 && !Top(0)
  {
  }

  /** Multiplication by t modulo t^32 + irr over GF(2). */
  function MulT(x: bv32, irr: bv32): bv32 {
    if Top(x) then Xor(Shl(x), irr) else Shl(x)
  }

  /** Multiplication by t^k. */
  function Times(x: bv32, k: nat, irr: bv32): bv32 {
    if k == 0 then x else MulT(Times(x, k - 1, irr), irr)
  }

  lemma MulTLinear(x: bv32, y: bv32, irr: bv32)
    ensures MulT(Xor(x, y), irr) == Xor(MulT(x, irr), MulT(y, irr))
  {
    hide Xor, Shl, Top;
    ShlXorWord(x, y);
    TopXor(x, y);
    XorLaws(Shl(x), Shl(y), irr);
  }

  lemma {:induction false} TimesLinear(x: bv32, y: bv32, k: nat, irr: bv32)
    ensures Times(Xor(x, y), k, irr) == Xor(Times(x, k, irr), Times(y, k, irr))
  {
    hide Xor, MulT;
    if k > 0 {
      TimesLinear(x, y, k - 1, irr);
      MulTLinear(Times(x, k - 1, irr), Times(y, k - 1, irr), irr);
    }
  }

  lemma {:induction false} TimesAdd(x: bv32, j: nat, k: nat, irr: bv32)
    ensures Times(Times(x, j, irr), k, irr) == Times(x, j + k, irr)
  {
    hide MulT;
    if k > 0 {
      TimesAdd(x, j, k - 1, irr);
    }
  }

  lemma {:induction false} TimesZero(k: nat, irr: bv32)
    ensures Times(0, k, irr) == 0
  {
    hide Shl, Top;
    if k > 0 {
      TimesZero(k - 1, irr);
      ShlZero();
    }
  }

  lemma ShiftFacts(x: bv32)
    requires x < 0x100_0000
    ensures var x1 := Shl(x); var x2 := Shl(x1); var x3 := Shl(x2); var x4 := Shl(x3);
            var x5 := Shl(x4); var x6 := Shl(x5); var x7 := Shl(x6);
            && !Top(x) && !Top(x1) && !Top(x2) && !Top(x3) && !Top(x4) && !Top(x5) && !Top(x6) && !Top(x7)
            && Shl(x7) == Shl8(x)
  {
  }

  /** Eight steps on a word whose top byte is zero are a plain shift. */
  lemma Shift8(x: bv32, irr: bv32)
    requires x < 0x100_0000
    ensures Times(x, 8, irr) == Shl8(x)
  {
    hide Shl, Top, Xor, Shl8;
    ShiftFacts(x);
    var x1 := Shl(x);
    var x2 := Shl(x1);
    var x3 := Shl(x2);
    var x4 := Shl(x3);
    var x5 := Shl(x4);
    var x6 := Shl(x5);
    assert Times(x, 1, irr) == x1;
    assert Times(x, 2, irr) == x2;
    assert Times(x, 3, irr) == x3;
    assert Times(x, 4, irr) == x4;
    assert Times(x, 5, irr) == x5;
    assert Times(x, 6, irr) == x6;
    assert Times(x, 7, irr) == Shl(x6);
  }

  /** h taken apart: its low three bytes and its top byte. */
  function TopByte(h: bv32): (b: Uchar) { h >> 24 }

  function LowBytes(h: bv32): (b: bv32)
    ensures b < 0x100_0000
  {
    h & 0xff_ffff
  }

  lemma SplitSmall(h: bv32)
    ensures var top := TopByte(h); top < 0x100_0000 && Shl8(top) < 0x100_0000 && Shl8(Shl8(top)) < 0x100_0000
  {
  }

  lemma SplitWhole(h: bv32)
    ensures h == Xor(LowBytes(h), Shl8(Shl8(Shl8(TopByte(h)))))
  {
  }

  lemma SplitShift(h: bv32)
    ensures Shl8(LowBytes(h)) == Shl8(h)
  {
  }

  /** The table turns eight steps into one shift and one exclusive or. */
  lemma TableStep(h: bv32, irr: bv32)
    ensures Times(h, 8, irr) == Xor(Shl8(h), Times(TopByte(h), 32, irr))
  {
    hide Shl, Top, Xor, Shl8, MulT, TopByte, LowBytes, Times;
    SplitSmall(h);
    SplitWhole(h);
    SplitShift(h);
    var low, top := LowBytes(h), TopByte(h);
    TimesLinear(low, Shl8(Shl8(Shl8(top))), 8, irr);
    Shift8(low, irr);
    Shift8(top, irr);
    Shift8(Shl8(top), irr);
    Shift8(Shl8(Shl8(top)), irr);
    TimesAdd(top, 8, 8, irr);
    TimesAdd(top, 16, 8, irr);
    TimesAdd(top, 24, 8, irr);
  }

  function Index(x: Uchar): (i: nat)
    ensures i < 256
  {
    x as nat
  }

  lemma IndexInjective(x: Uchar, y: Uchar)
    ensures Index(x) == Index(y) ==> x == y
  {
  }

  /** fpreduce: 32 conditional shifts. */
  method FpReduce(x0: bv32, irr: bv32) returns (x: bv32)
    ensures x == Times(x0, 32, irr)
  {
    hide Xor, Shl, Top;
    x := x0;
    var i := 32;
    while i != 0
      invariant 0 <= i <= 32 && x == Times(x0, 32 - i, irr)
    {
      if Top(x) {
        x := Shl(x);
        x := Xor(x, irr);
      } else {
        x := Shl(x);
      }
      i := i - 1;
    }
  }

  /** The table holds the remainder of x * t^32 for every byte x. */
  ghost predicate IsRedTab(tab: seq<bv32>, irr: bv32) {
    |tab| == 256 && forall x: Uchar :: tab[Index(x)] == Times(x, 32, irr)
  }

  /** The table holds, for every byte x, what x contributes to a hash k bytes later. */
  ghost predicate IsWinTab(tab: seq<bv32>, k: nat, irr: bv32) {
    |tab| == 256 && forall x: Uchar :: tab[Index(x)] == Times(x, 8 * k, irr)
  }

  lemma NextByte(i: bv32)
    requires i < 256
    ensures i + 1 <= 256 && 256 - (i + 1) < 256 - i
  {
  }

  lemma BelowNext(i: bv32, x: Uchar)
    requires i < 256
    ensures x < i + 1 <==> x < i || x == i
    ensures Index(x) == Index(i) ==> x == i
  {
    IndexInjective(x, i);
  }

  /** The shift by s places that fpmkredtab applies to a byte first. */
  function ShlBy(x: bv32, s: bv32): bv32
    requires s < 32
  {
    x << s
  }

  lemma ShlByNone(x: bv32)
    ensures ShlBy(x, 0) == x
  {
  }

  lemma ShlByNext(x: Uchar, s: bv32)
    requires s < 24
    ensures ShlBy(x, s + 1) == Shl(ShlBy(x, s)) && !Top(ShlBy(x, s))
  {
  }

  lemma ShiftNumber(s: bv32)
    requires 0 < s <= 24
    ensures s - 1 < 24 && (s - 1) as nat == s as nat - 1
  {
  }

  /** No bit of a byte is lost in the first 24 shifts, so they need no reduction. */
  lemma {:induction false} ShlByIsTimes(x: Uchar, s: bv32, irr: bv32)
    requires s <= 24
    ensures ShlBy(x, s) == Times(x, s as nat, irr)
    decreases s as nat
  {
    hide ShlBy, Shl, Top;
    if s == 0 {
      ShlByNone(x);
    } else {
      ShiftNumber(s);
      ShlByIsTimes(x, s - 1, irr);
      ShlByNext(x, s - 1);
    }
  }

  /** The table holds the remainder of x * t^(32 + n) for every byte x. */
  ghost predicate IsShiftTab(tab: seq<bv32>, n: nat, irr: bv32) {
    |tab| == 256 && forall x: Uchar :: tab[Index(x)] == Times(x, 32 + n, irr)
  }

  /** fpmkredtab; the program calls it with the shift 0. */
  method FpMkRedTab(irr: bv32, s: bv32, tab: array<bv32>)
    requires tab.Length == 256 && s < 32
    modifies tab
    ensures forall x: Uchar :: tab[..][Index(x)] == Times(ShlBy(x, s), 32, irr)
    ensures s <= 24 ==> IsShiftTab(tab[..], s as nat, irr)
  {
    hide Times, Index, ShlBy;
    var i: bv32 := 0;
    while i < 256
      invariant i <= 256
      invariant forall x: Uchar :: x < i ==> tab[Index(x)] == Times(ShlBy(x, s), 32, irr)
      decreases 256 - i
    {
      var v := FpReduce(ShlBy(i, s), irr);
      forall x: Uchar
        ensures (x < i + 1 <==> x < i || x == i) && (Index(x) == Index(i) ==> x == i)
      {
        BelowNext(i, x);
      }
      tab[Index(i)] := v;
      NextByte(i);
      i := i + 1;
    }
    if s <= 24 {
      ShiftTab(tab[..], s, irr);
    }
  }

  lemma ShiftTab(tab: seq<bv32>, s: bv32, irr: bv32)
    requires |tab| == 256 && s <= 24
    requires forall x: Uchar :: tab[Index(x)] == Times(ShlBy(x, s), 32, irr)
    ensures IsShiftTab(tab, s as nat, irr)
  {
    hide Times, Index, ShlBy;
    forall x: Uchar
      ensures tab[Index(x)] == Times(x, 32 + s as nat, irr)
    {
      ShlByIsTimes(x, s, irr);
      TimesAdd(x, s as nat, 32, irr);
    }
  }

  /** One byte in: shift, or the byte in, and reduce through the table. */
  function Push(h: bv32, b: Uchar, redtab: seq<bv32>): bv32
    requires |redtab| == 256
  {
    Xor(Or(Shl8(h), b), redtab[Index(TopByte(h))])
  }

  function Or(a: bv32, b: bv32): bv32 { a | b }

  lemma OrIsXor(h: bv32, b: Uchar)
    ensures Or(Shl8(h), b) == Xor(Shl8(h), b)
  {
  }

  lemma PushXor(h: bv32, b: Uchar, redtab: seq<bv32>)
    requires |redtab| == 256
    ensures Push(h, b, redtab) == Xor(Xor(Shl8(h), b), redtab[Index(TopByte(h))])
  {
    hide Shl8, TopByte, Index, Xor, Or;
    OrIsXor(h, b);
  }

  lemma PushIsStep(h: bv32, b: Uchar, redtab: seq<bv32>, irr: bv32)
    requires IsRedTab(redtab, irr)
    ensures Push(h, b, redtab) == Xor(Times(h, 8, irr), b)
  {
    hide Shl8, TopByte, Index, Xor, Push, Times;
    PushXor(h, b, redtab);
    TableStep(h, irr);
    XorLaws(Shl8(h), b, redtab[Index(TopByte(h))]);
  }

  /** How many bytes later the window table thinks a byte leaves. */
  function Reach(winlen: int): nat { if winlen > 1 then winlen - 1 else 0 }

  method FpWinReduce(irr: bv32, winlen: int, x: Uchar, redtab: array<bv32>) returns (winval: bv32)
    requires redtab.Length == 256 && IsRedTab(redtab[..], irr)
    ensures winval == Times(x, 8 * Reach(winlen), irr)
  {
    hide Shl8, TopByte, Index, Xor, Times, Push;
    winval := 0;
    winval := Push(winval, x, redtab[..]);
    PushIsStep(0, x, redtab[..], irr);
    TimesZero(8, irr);
    XorLaws(0, x, 0);
    XorSelf(x);
    TimesNone(x, irr);
    var i := 1;
    while i < winlen
      invariant 1 <= i && (i <= winlen || i == 1)
      invariant winval == Times(x, 8 * (i - 1), irr)
    {
      PushIsStep(winval, 0, redtab[..], irr);
      XorSelf(Times(winval, 8, irr));
      TimesAdd(x, 8 * (i - 1), 8, irr);
      winval := Push(winval, 0, redtab[..]);
      i := i + 1;
    }
  }

  lemma TimesNone(x: bv32, irr: bv32)
    ensures Times(x, 0, irr) == x
  {
  }

  method FpMkWinRedTab(irr: bv32, winlen: int, redtab: array<bv32>, wintab: array<bv32>)
    requires redtab.Length == 256 && IsRedTab(redtab[..], irr) && wintab.Length == 256 && wintab != redtab
    modifies wintab
    ensures IsWinTab(wintab[..], Reach(winlen), irr)
  {
    hide Times, Index;
    var i: bv32 := 0;
    while i < 256
      invariant i <= 256
      invariant forall x: Uchar :: x < i ==> wintab[Index(x)] == Times(x, 8 * Reach(winlen), irr)
      decreases 256 - i
    {
      var v := FpWinReduce(irr, winlen, i, redtab);
      forall x: Uchar
        ensures (x < i + 1 <==> x < i || x == i) && (Index(x) == Index(i) ==> x == i)
      {
        BelowNext(i, x);
      }
      wintab[Index(i)] := v;
      NextByte(i);
      i := i + 1;
    }
  }

  method RabinInit(winlen: int, redtab: array<bv32>, wintab: array<bv32>)
    requires redtab.Length == 256 && wintab.Length == 256 && wintab != redtab
    modifies redtab, wintab
    ensures IsRedTab(redtab[..], IRRPOLY) && IsWinTab(wintab[..], Reach(winlen), IRRPOLY)
  {
    FpMkRedTab(IRRPOLY, 0, redtab);
    FpMkWinRedTab(IRRPOLY, winlen, redtab, wintab);
  }

  /** The hash of a string of bytes by Horner's rule: each byte multiplies by t^8 and is added. */
  function Hash(w: seq<Uchar>, irr: bv32): bv32 {
    if w == [] then 0 else Xor(Times(Hash(w[..|w| - 1], irr), 8, irr), w[|w| - 1])
  }

  /** The hash that the search keeps after i bytes: from byte NWINDOW on, the byte that leaves is
      first taken out through the window table. */
  function Rolling(p: seq<Uchar>, i: nat, reach: nat, irr: bv32): bv32
    requires i <= |p|
  {
    if i == 0 then 0
    else
      var h := Rolling(p, i - 1, reach, irr);
      var h' := if i <= NWINDOW then h else Xor(h, Times(p[i - 1 - NWINDOW], 8 * reach, irr));
      Xor(Times(h', 8, irr), p[i - 1])
  }

  predicate Hit(h: bv32) { h & RABIN_MASK == 0 }

  /** The twelve low bits are zero: nothing is left when the others are shifted out, and a hash has the same
      masked value as any other that differs from it in the others alone. */
  lemma HitIs(h: bv32, x: bv32)
    ensures Hit(h) <==> h << 20 == 0
    ensures Hit(Xor(h, x << 12)) <==> Hit(h)
  {
  }

  /** The search returns the first position from NWINDOW on where the masked hash is zero. */
  ghost predicate IsCut(p: seq<Uchar>, reach: nat, irr: bv32, r: nat) {
    && r <= |p|
    && (r < |p| ==> r >= NWINDOW && Hit(Rolling(p, r, reach, irr)))
    && forall i :: NWINDOW <= i < r ==> !Hit(Rolling(p, i, reach, irr))
  }

  method RabinSeg(p: seq<Uchar>, redtab: array<bv32>, wintab: array<bv32>, ghost reach: nat, ghost irr: bv32)
    returns (r: nat)
    requires redtab.Length == 256 && wintab.Length == 256
    requires IsRedTab(redtab[..], irr) && IsWinTab(wintab[..], reach, irr)
    ensures IsCut(p, reach, irr, r)
    ensures p != [] ==> r > 0
  {
    hide Shl8, TopByte, Index, Xor, Times, Push, Hit;
    if |p| < NWINDOW {
      return |p|;
    }
    var h: bv32 := 0;
    var i := 0;
    while i < NWINDOW
      invariant 0 <= i <= NWINDOW && h == Rolling(p, i, reach, irr)
    {
      PushIsStep(h, p[i], redtab[..], irr);
      h := Push(h, p[i], redtab[..]);
      i := i + 1;
    }
    if Hit(h) {
      return i;
    }
    while i < |p|
      invariant NWINDOW <= i <= |p| && h == Rolling(p, i, reach, irr)
      invariant forall j :: NWINDOW <= j <= i ==> !Hit(Rolling(p, j, reach, irr))
    {
      h := Xor(h, wintab[Index(p[i - NWINDOW])]);
      PushIsStep(h, p[i], redtab[..], irr);
      h := Push(h, p[i], redtab[..]);
      i := i + 1;
      if Hit(h) {
        return i;
      }
    }
    return |p|;
  }

  /** The rolling hash at a position depends on the bytes before it alone. */
  lemma {:induction false} RollingPrefix(p: seq<Uchar>, q: seq<Uchar>, i: nat, reach: nat, irr: bv32)
    requires i <= |p| && i <= |q| && p[..i] == q[..i]
    ensures Rolling(p, i, reach, irr) == Rolling(q, i, reach, irr)
  {
    hide Xor, Times;
    if i > 0 {
      assert p[..i - 1] == p[..i][..i - 1] && q[..i - 1] == q[..i][..i - 1];
      RollingPrefix(p, q, i - 1, reach, irr);
      assert p[i - 1] == p[..i][i - 1] && q[i - 1] == q[..i][i - 1];
      if i > NWINDOW {
        assert p[i - 1 - NWINDOW] == p[..i][i - 1 - NWINDOW] && q[i - 1 - NWINDOW] == q[..i][i - 1 - NWINDOW];
      }
    }
  }

  lemma HitFlips(h: bv32)
    ensures !(Hit(Xor(h, 0)) && Hit(Xor(h, 1)))
  {
  }

  /** Of two strings that differ in their last byte, 0 or 1, at most one has a cut at its end. */
  lemma LastByteDecides(p: seq<Uchar>, reach: nat, irr: bv32)
    ensures var i := |p| + 1;
            !(Hit(Rolling(p + [0], i, reach, irr)) && Hit(Rolling(p + [1], i, reach, irr)))
  {
    hide Xor, Times, Hit;
    var i := |p| + 1;
    RollingPrefix(p + [0], p + [1], i - 1, reach, irr);
    var h := Rolling(p + [0], i - 1, reach, irr);
    var h' := if i <= NWINDOW then h else Xor(h, Times((p + [0])[i - 1 - NWINDOW], 8 * reach, irr));
    assert i > NWINDOW ==> (p + [0])[i - 1 - NWINDOW] == (p + [1])[i - 1 - NWINDOW];
    HitFlips(Times(h', 8, irr));
  }

  /** There are strings of every length in which the search finds no cut. */
  lemma {:induction false} NoCutInput(n: nat, reach: nat, irr: bv32) returns (p: seq<Uchar>)
    ensures |p| == n && forall i :: 1 <= i <= n ==> !Hit(Rolling(p, i, reach, irr))
  {
    hide Rolling, Hit;
    if n == 0 {
      p := [];
    } else {
      var q := NoCutInput(n - 1, reach, irr);
      LastByteDecides(q, reach, irr);
      p := if Hit(Rolling(q + [0], n, reach, irr)) then q + [1] else q + [0];
      forall i | 1 <= i < n
        ensures !Hit(Rolling(p, i, reach, irr))
      {
        assert p[..i] == q[..i];
        RollingPrefix(p, q, i, reach, irr);
      }
    }
  }

  lemma {:induction false} HashFirst(b: Uchar, w: seq<Uchar>, irr: bv32)
    ensures Hash([b] + w, irr) == Xor(Times(b, 8 * |w|, irr), Hash(w, irr))
  {
    hide Xor, MulT, Times;
    if w == [] {
      assert [b] + w == [b] && [b][..0] == [];
      TimesZero(8, irr);
      TimesNone(b, irr);
      XorLaws(0, b, 0);
    } else {
      var n := |w| - 1;
      assert ([b] + w)[..n + 1] == [b] + w[..n];
      HashFirst(b, w[..n], irr);
      var x, y := Times(b, 8 * n, irr), Hash(w[..n], irr);
      TimesLinear(x, y, 8, irr);
      TimesAdd(b, 8 * n, 8, irr);
      XorAssoc(Times(x, 8, irr), Times(y, 8, irr), w[n]);
    }
  }

  lemma {:induction false} RollingStart(p: seq<Uchar>, i: nat, reach: nat, irr: bv32)
    requires i <= |p| && i <= NWINDOW
    ensures Rolling(p, i, reach, irr) == Hash(p[..i], irr)
  {
    hide Xor, Times;
    if i > 0 {
      RollingStart(p, i - 1, reach, irr);
      assert p[..i][..i - 1] == p[..i - 1];
    }
  }

  /** The last NWINDOW bytes before position i. */
  function Window(p: seq<Uchar>, i: nat): seq<Uchar>
    requires NWINDOW <= i <= |p|
  {
    p[i - NWINDOW..i]
  }

  /** How far the rolling hash is from the hash of the window. */
  function Drift(p: seq<Uchar>, i: nat, reach: nat, irr: bv32): bv32
    requires NWINDOW <= i <= |p|
  {
    Xor(Rolling(p, i, reach, irr), Hash(Window(p, i), irr))
  }

  /** What a byte leaves behind when it drops out of the window. */
  function Residue(x: Uchar, reach: nat, irr: bv32): bv32 {
    Xor(Times(x, 8 * reach, irr), Times(x, 8 * (NWINDOW - 1), irr))
  }

  lemma DriftStep(p: seq<Uchar>, i: nat, reach: nat, irr: bv32)
    requires NWINDOW <= i < |p|
    ensures Drift(p, i + 1, reach, irr) ==
            Times(Xor(Drift(p, i, reach, irr), Residue(p[i - NWINDOW], reach, irr)), 8, irr)
  {
    hide Xor, Times, Hash;
    var x, rest := p[i - NWINDOW], p[i - NWINDOW + 1..i];
    assert Window(p, i) == [x] + rest && Window(p, i + 1) == rest + [p[i]];
    HashFirst(x, rest, irr);
    HashLast(rest, p[i], irr);
    var r, out, far, h := Rolling(p, i, reach, irr), Times(x, 8 * reach, irr), Times(x, 8 * (NWINDOW - 1), irr),
        Hash(rest, irr);
    DriftAlgebra(r, out, far, h, p[i], irr);
  }

  lemma HashLast(w: seq<Uchar>, b: Uchar, irr: bv32)
    ensures Hash(w + [b], irr) == Xor(Times(Hash(w, irr), 8, irr), b)
  {
    assert (w + [b])[..|w|] == w;
  }

  lemma DriftAlgebra(r: bv32, out: bv32, far: bv32, h: bv32, b: bv32, irr: bv32)
    ensures Xor(Xor(Times(Xor(r, out), 8, irr), b), Xor(Times(h, 8, irr), b)) ==
            Times(Xor(Xor(r, Xor(far, h)), Xor(out, far)), 8, irr)
  {
    hide Xor, Times, MulT;
    XorLaws(Times(Xor(r, out), 8, irr), Times(h, 8, irr), b);
    TimesLinear(Xor(r, out), h, 8, irr);
    XorFour(r, out, far, h);
  }

  lemma XorFour(r: bv32, out: bv32, far: bv32, h: bv32)
    ensures Xor(Xor(r, Xor(far, h)), Xor(out, far)) == Xor(Xor(r, out), h)
  {
    hide Xor;
    XorLaws(far, h, 0);
    XorLaws(r, Xor(h, far), 0);
    XorAssoc(r, h, far);
    XorLaws(Xor(r, h), out, far);
    XorLaws(r, h, out);
  }

  /** With the window length NWINDOW the rolling hash is the hash of the last NWINDOW bytes alone. */
  lemma {:induction false} RollingIsWindow(p: seq<Uchar>, i: nat, irr: bv32)
    requires NWINDOW <= i <= |p|
    ensures Rolling(p, i, Reach(NWINDOW), irr) == Hash(Window(p, i), irr)
  {
    hide Xor, Times, Rolling, Hash;
    RollingStart(p, NWINDOW, Reach(NWINDOW), irr);
    var j := NWINDOW;
    XorSelf(Hash(Window(p, j), irr));
    while j < i
      invariant NWINDOW <= j <= i && Drift(p, j, Reach(NWINDOW), irr) == 0
    {
      DriftStep(p, j, Reach(NWINDOW), irr);
      XorSelf(Times(p[j - NWINDOW], 8 * (NWINDOW - 1), irr));
      XorSelf(0);
      TimesZero(8, irr);
      j := j + 1;
    }
    XorEqual(Rolling(p, i, Reach(NWINDOW), irr), Hash(Window(p, i), irr));
  }

  lemma XorEqual(a: bv32, b: bv32)
    ensures Xor(a, b) == 0 <==> a == b
  {
  }

  lemma MulTInjective(x: bv32, irr: bv32)
    requires irr & 1 == 1
    ensures MulT(x, irr) == 0 <==> x == 0
  {
  }

  lemma {:induction false} TimesInjective(x: bv32, k: nat, irr: bv32)
    requires irr & 1 == 1
    ensures Times(x, k, irr) == 0 <==> x == 0
  {
    hide MulT;
    if k > 0 {
      TimesInjective(x, k - 1, irr);
      MulTInjective(Times(x, k - 1, irr), irr);
    }
  }

  /** Every byte but zero leaves something behind in the hash when it drops out. */
  ghost predicate LeavesResidue(reach: nat, irr: bv32) {
    forall x: Uchar :: x != 0 ==> Residue(x, reach, irr) != 0
  }

  /** The rolling hash agrees with the hash of the window at every position up to i. */
  ghost predicate Agrees(p: seq<Uchar>, i: nat, reach: nat, irr: bv32)
    requires NWINDOW <= i <= |p|
  {
    forall j :: NWINDOW <= j <= i ==> Rolling(p, j, reach, irr) == Hash(Window(p, j), irr)
  }

  /** With a wrong window length they agree exactly as long as only zero bytes have dropped out. */
  lemma {:induction false} AgreesIff(p: seq<Uchar>, i: nat, reach: nat, irr: bv32)
    requires NWINDOW <= i <= |p| && irr & 1 == 1 && LeavesResidue(reach, irr)
    ensures Agrees(p, i, reach, irr) <==> forall k :: 0 <= k < i - NWINDOW ==> p[k] == 0
  {
    hide Xor, Times, Rolling, Hash, Residue;
    if i == NWINDOW {
      RollingStart(p, i, reach, irr);
    } else {
      var j, x := i - 1, p[i - 1 - NWINDOW];
      AgreesIff(p, j, reach, irr);
      if Agrees(p, j, reach, irr) {
        XorEqual(Rolling(p, j, reach, irr), Hash(Window(p, j), irr));
        XorEqual(Rolling(p, i, reach, irr), Hash(Window(p, i), irr));
        DriftStep(p, j, reach, irr);
        XorZero(Residue(x, reach, irr));
        TimesInjective(Residue(x, reach, irr), 8, irr);
        ZeroResidue(reach, irr);
        assert Agrees(p, i, reach, irr) <==> Rolling(p, i, reach, irr) == Hash(Window(p, i), irr);
      }
    }
  }

  lemma XorZero(a: bv32)
    ensures Xor(0, a) == a
  {
  }

  lemma ZeroResidue(reach: nat, irr: bv32)
    ensures Residue(0, reach, irr) == 0
  {
    hide Xor, Times;
    TimesZero(8 * reach, irr);
    TimesZero(8 * (NWINDOW - 1), irr);
    XorSelf(0);
  }

  /** The encoder builds its tables with the window length 0. Its rolling hash is the hash of the last
      NWINDOW bytes exactly as long as every byte before these is zero. */
  lemma LengthZeroWindow(p: seq<Uchar>, i: nat)
    requires NWINDOW <= i <= |p|
    ensures Agrees(p, i, Reach(0), IRRPOLY) <==> forall k :: 0 <= k < i - NWINDOW ==> p[k] == 0
  {
    ResidueOfLengthZero();
    AgreesIff(p, i, Reach(0), IRRPOLY);
  }

  /** The smallest failure: 33 bytes of which the first is 1 and the others 0. */
  lemma LengthZeroDiffers()
    ensures !Agrees([1] + seq(NWINDOW, _ => 0), NWINDOW + 1, Reach(0), IRRPOLY)
  {
    hide Agrees;
    var p: seq<Uchar> := [1] + seq(NWINDOW, _ => 0);
    LengthZeroWindow(p, NWINDOW + 1);
    assert p[0] != 0;
  }

  function Step8(x: bv32): bv32 {
    MulT(MulT(MulT(MulT(MulT(MulT(MulT(MulT(x, IRRPOLY), IRRPOLY), IRRPOLY), IRRPOLY), IRRPOLY), IRRPOLY), IRRPOLY),
        IRRPOLY)
  }

  lemma Step8IsTimes(x: bv32)
    ensures Step8(x) == Times(x, 8, IRRPOLY)
  {
    hide MulT;
    assert Times(x, 1, IRRPOLY) == MulT(x, IRRPOLY);
    assert Times(x, 2, IRRPOLY) == MulT(Times(x, 1, IRRPOLY), IRRPOLY);
    assert Times(x, 3, IRRPOLY) == MulT(Times(x, 2, IRRPOLY), IRRPOLY);
    assert Times(x, 4, IRRPOLY) == MulT(Times(x, 3, IRRPOLY), IRRPOLY);
    assert Times(x, 5, IRRPOLY) == MulT(Times(x, 4, IRRPOLY), IRRPOLY);
    assert Times(x, 6, IRRPOLY) == MulT(Times(x, 5, IRRPOLY), IRRPOLY);
    assert Times(x, 7, IRRPOLY) == MulT(Times(x, 6, IRRPOLY), IRRPOLY);
  }

  /** t^(8k) modulo the polynomial of the program, for k up to 31. */
  const POWERS: seq<bv32> := [
    0x00000001, 0x00000100, 0x00010000, 0x01000000, 0x45c2b6a1, 0xee306350, 0x1decac3b, 0x50d53ffb,
    0xe050e5e1, 0x01b7c416, 0xf206a0a1, 0xd294ef61, 0x5d1d230b, 0x9ad6172f, 0x81f9ad95, 0xcb771209,
    0x505123d5, 0x644ccbe1, 0x3849999b, 0xff2c4915, 0x4ae759af, 0xf2c002dc, 0x14369261, 0x6ab90b10,
    0xb154b1b6, 0x754e3b56, 0x71989e0f, 0xf5f5ab2a, 0xbd10d3a7, 0xc6749e39, 0xe147111b, 0x538188b7]

  lemma PowersFrom0(k: nat)
    requires 0 <= k < 8
    ensures Step8(POWERS[k]) == POWERS[k + 1]
  {
  }

  lemma PowersFrom8(k: nat)
    requires 8 <= k < 16
    ensures Step8(POWERS[k]) == POWERS[k + 1]
  {
  }

  lemma PowersFrom16(k: nat)
    requires 16 <= k < 24
    ensures Step8(POWERS[k]) == POWERS[k + 1]
  {
  }

  lemma PowersFrom24(k: nat)
    requires 24 <= k < 31
    ensures Step8(POWERS[k]) == POWERS[k + 1]
  {
  }

  lemma PowersStep(k: nat)
    requires k < 31
    ensures Step8(POWERS[k]) == POWERS[k + 1]
  {
    hide Step8;
    if k < 8 {
      PowersFrom0(k);
    } else if k < 16 {
      PowersFrom8(k);
    } else if k < 24 {
      PowersFrom16(k);
    } else {
      PowersFrom24(k);
    }
  }

  lemma {:induction false} PowersAre(k: nat)
    requires k < 32
    ensures Times(1, 8 * k, IRRPOLY) == POWERS[k]
  {
    hide MulT, Step8, Times, POWERS;
    FirstPower();
    if k == 0 {
      TimesNone(1, IRRPOLY);
    } else {
      PowersAre(k - 1);
      PowersStep(k - 1);
      Step8IsTimes(POWERS[k - 1]);
      TimesAdd(1, 8 * (k - 1), 8, IRRPOLY);
    }
  }

  lemma FirstPower()
    ensures |POWERS| == 32 && POWERS[0] == 1
  {
  }

  const BITS: seq<bv32> := [1, 2, 4, 8, 16, 32, 64, 128]

  /** Where the eight bits of a byte are after 31 more bytes. */
  const IMAGES: seq<bv32> := [0x538188b7, 0xa703116e, 0x0bc4947d, 0x178928fa,
                              0x2f1251f4, 0x5e24a3e8, 0xbc4947d0, 0x3d503901]

  lemma ImagesStep(j: nat)
    requires j < 7
    ensures BITS[j + 1] == MulT(BITS[j], IRRPOLY) && IMAGES[j + 1] == MulT(IMAGES[j], IRRPOLY)
  {
  }

  lemma TimesNext(x: bv32, k: nat)
    ensures Times(MulT(x, IRRPOLY), k, IRRPOLY) == MulT(Times(x, k, IRRPOLY), IRRPOLY)
  {
    hide MulT;
    assert Times(x, 1, IRRPOLY) == MulT(Times(x, 0, IRRPOLY), IRRPOLY);
    TimesAdd(x, 1, k, IRRPOLY);
  }

  lemma {:induction false} ImagesAre(j: nat)
    requires j < 8
    ensures Times(BITS[j], 248, IRRPOLY) == IMAGES[j]
  {
    hide MulT;
    if j == 0 {
      PowersAre(31);
    } else {
      ImagesAre(j - 1);
      ImagesStep(j - 1);
      TimesNext(BITS[j - 1], 248);
    }
  }

  /** Bit j of x, in place. */
  function Part(x: Uchar, j: nat): bv32
    requires j < 8
  {
    x & BITS[j]
  }

  /** What bit j of x becomes after 31 more bytes. */
  function ImagePart(x: Uchar, j: nat): bv32
    requires j < 8
  {
    if x & BITS[j] == 0 then 0 else IMAGES[j]
  }

  /** The bits of x from bit j up. */
  function From(x: Uchar, j: nat): bv32
    requires j <= 8
    decreases 8 - j
  {
    if j == 8 then 0 else Xor(Part(x, j), From(x, j + 1))
  }

  function Image(x: Uchar, j: nat): bv32
    requires j <= 8
    decreases 8 - j
  {
    if j == 8 then 0 else Xor(ImagePart(x, j), Image(x, j + 1))
  }

  lemma OneBit(x: Uchar, j: nat)
    requires j < 8
    ensures (Part(x, j) == 0 && ImagePart(x, j) == 0) || (Part(x, j) == BITS[j] && ImagePart(x, j) == IMAGES[j])
  {
  }

  lemma {:induction false} ImageIsTimes(x: Uchar, j: nat)
    requires j <= 8
    ensures Times(From(x, j), 248, IRRPOLY) == Image(x, j)
    decreases 8 - j
  {
    hide Xor, Times, Part, ImagePart;
    if j == 8 {
      TimesZero(248, IRRPOLY);
    } else {
      ImageIsTimes(x, j + 1);
      OneBit(x, j);
      ImagesAre(j);
      TimesZero(248, IRRPOLY);
      TimesLinear(Part(x, j), From(x, j + 1), 248, IRRPOLY);
    }
  }

  function Parts(x: Uchar): bv32 {
    Xor(Part(x, 0), Xor(Part(x, 1), Xor(Part(x, 2),
        Xor(Part(x, 3), Xor(Part(x, 4), Xor(Part(x, 5), Xor(Part(x, 6), Xor(Part(x, 7), 0))))))))
  }

  function ImageParts(x: Uchar): bv32 {
    Xor(ImagePart(x, 0), Xor(ImagePart(x, 1), Xor(ImagePart(x, 2), Xor(ImagePart(x, 3),
      Xor(ImagePart(x, 4), Xor(ImagePart(x, 5), Xor(ImagePart(x, 6), Xor(ImagePart(x, 7), 0))))))))
  }

  lemma PartsAre(x: Uchar)
    ensures Parts(x) == x
  {
  }

  /** No byte but zero is its own image. */
  lemma NoFixedByte(x: Uchar)
    requires x != 0
    ensures ImageParts(x) != x
  {
  }

  lemma FromAll(x: Uchar)
    ensures From(x, 0) == Parts(x)
  {
    hide Xor, Part;
    assert From(x, 7) == Xor(Part(x, 7), From(x, 8));
    assert From(x, 6) == Xor(Part(x, 6), From(x, 7));
    assert From(x, 5) == Xor(Part(x, 5), From(x, 6));
    assert From(x, 4) == Xor(Part(x, 4), From(x, 5));
    assert From(x, 3) == Xor(Part(x, 3), From(x, 4));
    assert From(x, 2) == Xor(Part(x, 2), From(x, 3));
    assert From(x, 1) == Xor(Part(x, 1), From(x, 2));
    assert From(x, 0) == Xor(Part(x, 0), From(x, 1));
  }

  lemma ImageAll(x: Uchar)
    ensures Image(x, 0) == ImageParts(x)
  {
    hide Xor, ImagePart;
    assert Image(x, 7) == Xor(ImagePart(x, 7), Image(x, 8));
    assert Image(x, 6) == Xor(ImagePart(x, 6), Image(x, 7));
    assert Image(x, 5) == Xor(ImagePart(x, 5), Image(x, 6));
    assert Image(x, 4) == Xor(ImagePart(x, 4), Image(x, 5));
    assert Image(x, 3) == Xor(ImagePart(x, 3), Image(x, 4));
    assert Image(x, 2) == Xor(ImagePart(x, 2), Image(x, 3));
    assert Image(x, 1) == Xor(ImagePart(x, 1), Image(x, 2));
    assert Image(x, 0) == Xor(ImagePart(x, 0), Image(x, 1));
  }

  lemma ResidueOfLengthZero()
    ensures LeavesResidue(Reach(0), IRRPOLY)
  {
    hide Xor, Times, From, Image, Parts, ImageParts;
    forall x: Uchar | x != 0
      ensures Residue(x, Reach(0), IRRPOLY) != 0
    {
      TimesNone(x, IRRPOLY);
      ImageIsTimes(x, 0);
      FromAll(x);
      ImageAll(x);
      PartsAre(x);
      NoFixedByte(x);
      XorEqual(x, Image(x, 0));
    }
  }
}
