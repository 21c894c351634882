/** Bit masks over the most frequent items, and sums over them. */
module FpMasks {
  import opened FpForest

  function Pow2(k: nat): (p: nat)
    ensures p > 0
  {
    if k == 0 then 1 else 2 * Pow2(k - 1)
  }

  lemma {:induction false} Pow2Monotone(j: nat, k: nat)
    requires j <= k
    ensures Pow2(j) <= Pow2(k) && (j < k ==> 2 * Pow2(j) <= Pow2(k))
  {
    if j < k {
      Pow2Monotone(j, k - 1);
    }
  }

  /** hot_node_index: the highest bit of a mask. */
  function High(i: nat): (h: nat)
    requires i > 0
    ensures Pow2(h) <= i < 2 * Pow2(h)
  {
    if i == 1 then 0 else 1 + High(i / 2)
  }

  lemma HighUnique(i: nat, h: nat)
    requires i > 0 && Pow2(h) <= i < 2 * Pow2(h)
    ensures High(i) == h
  {
    if High(i) < h {
      Pow2Monotone(High(i), h);
    } else {
      Pow2Monotone(h, High(i));
    }
  }

  /** The mask without its highest bit: the parent of a hot node. */
  function Parent(i: nat): (p: nat)
    requires i > 0
    ensures p < i && p < Pow2(High(i))
  {
    i - Pow2(High(i))
  }

  /** The bits of a mask, ascending: the branch that leads to its hot node. */
  function Bits(i: nat): seq<nat> {
    if i == 0 then [] else Bits(Parent(i)) + [High(i)]
  }

  lemma {:induction false} BitsBelow(i: nat, k: nat)
    requires i < Pow2(k)
    ensures Ascending(Bits(i)) && forall j :: 0 <= j < |Bits(i)| ==> Bits(i)[j] < k
    decreases i
  {
    if i > 0 {
      var h := High(i);
      if h >= k {
        Pow2Monotone(k, h);
      }
      BitsBelow(Parent(i), h);
    }
  }

  /** ntype |= 1 << item */
  function SetBit(mask: nat, item: nat): nat {
    if item in Bits(mask) then mask else mask + Pow2(item)
  }

  lemma {:induction false} RoomFor(i: nat, item: nat, k: nat)
    requires i < Pow2(k) && item < k && item !in Bits(i)
    ensures i + Pow2(item) < Pow2(k)
    decreases k
  {
    if i < Pow2(k - 1) {
      if item < k - 1 {
        RoomFor(i, item, k - 1);
      }
    } else {
      HighUnique(i, k - 1);
      assert Bits(i) == Bits(Parent(i)) + [k - 1];
      assert item != k - 1;
      RoomFor(Parent(i), item, k - 1);
    }
  }

  lemma {:induction false} AddBit(i: nat, item: nat)
    requires item !in Bits(i)
    ensures ToSet(Bits(i + Pow2(item))) == ToSet(Bits(i)) + {item}
    decreases i
  {
    hide Pow2;
    var i' := i + Pow2(item);
    if i == 0 || High(i) < item {
      if i > 0 {
        Pow2Monotone(High(i), item);
      }
      HighUnique(i', item);
      ToSetAppend(Bits(i), [item]);
    } else {
      var h := High(i);
      assert Bits(i) == Bits(Parent(i)) + [h] && item != h;
      RoomFor(Parent(i), item, h);
      HighUnique(i', h);
      assert Parent(i') == Parent(i) + Pow2(item);
      AddBit(Parent(i), item);
      ToSetAppend(Bits(Parent(i)), [h]);
      ToSetAppend(Bits(Parent(i')), [h]);
    }
  }

  lemma SetBitIs(mask: nat, item: nat, k: nat)
    requires mask < Pow2(k) && item < k
    ensures SetBit(mask, item) < Pow2(k) && ToSet(Bits(SetBit(mask, item))) == ToSet(Bits(mask)) + {item}
  {
    if item in Bits(mask) {
    } else {
      RoomFor(mask, item, k);
      AddBit(mask, item);
    }
  }

  /** The sum of g over all masks below i. */
  ghost function SumTo(g: nat -> int, i: nat): int {
    if i == 0 then 0 else SumTo(g, i - 1) + g(i - 1)
  }

  lemma {:induction false} SumSame(g: nat -> int, g': nat -> int, i: nat)
    requires forall k: nat :: k < i ==> g'(k) == g(k)
    ensures SumTo(g', i) == SumTo(g, i)
  {
    if i > 0 {
      SumSame(g, g', i - 1);
    }
  }

  lemma {:induction false} SumChange(g: nat -> int, g': nat -> int, i: nat, q: nat)
    requires q < i && forall k: nat :: k < i && k != q ==> g'(k) == g(k)
    ensures SumTo(g', i) == SumTo(g, i) + g'(q) - g(q)
  {
    if q == i - 1 {
      SumSame(g, g', i - 1);
    } else {
      SumChange(g, g', i - 1, q);
    }
  }

  lemma {:induction false} SumZero(g: nat -> int, i: nat)
    requires forall k: nat :: k < i ==> g(k) == 0
    ensures SumTo(g, i) == 0
  {
    if i > 0 {
      SumZero(g, i - 1);
    }
  }
}
