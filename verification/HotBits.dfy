/** The bitmask index of the hot items (fp_tree.cpp: hot_node_index, hot_node_depth, `parent = i ^ (1 << step)`).
  * A bitmask is a natural number; its meaning is the ascending list of the positions of its set bits.
  */
module HotBits {

  function Pow2(b: nat): (r: nat)
    ensures r > 0
  {
    if b == 0 then 1 else 2 * Pow2(b - 1)
  }

  predicate HasBit(n: nat, b: nat) {
    if b == 0 then n % 2 == 1 else HasBit(n / 2, b - 1)
  }

  /** `n |= 1 << b` */
  function SetBit(n: nat, b: nat): nat {
    if b == 0 then (if n % 2 == 1 then n else n + 1) else 2 * SetBit(n / 2, b - 1) + n % 2
  }

  /** hot_node_index[n]: the position of the highest set bit. */
  function TopBit(n: nat): nat
    requires n > 0
  {
    if n == 1 then 0 else 1 + TopBit(n / 2)
  }

  /** `n ^ (1 << TopBit(n))`: the parent of hot node n. */
  function ClearTop(n: nat): nat
    requires n > 0
  {
    if n == 1 then 0 else 2 * ClearTop(n / 2) + n % 2
  }

  lemma {:induction false} ClearTopValue(n: nat)
    requires n > 0
    ensures n == ClearTop(n) + Pow2(TopBit(n))
    ensures ClearTop(n) < Pow2(TopBit(n)) <= n
  {
    if n > 1 { ClearTopValue(n / 2); }
  }

  /** The set bits in ascending order: the items on the path to hot node n. */
  function Bits(n: nat): seq<nat>
  {
    if n == 0 then [] else ClearTopValue(n); Bits(ClearTop(n)) + [TopBit(n)]
  }

  lemma {:induction false} HasBitSetBit(n: nat, b: nat, c: nat)
    ensures HasBit(SetBit(n, b), c) <==> c == b || HasBit(n, c)
  {
    if b == 0 {
      if c > 0 { assert SetBit(n, 0) / 2 == n / 2; }
    } else {
      assert SetBit(n, b) / 2 == SetBit(n / 2, b - 1) && SetBit(n, b) % 2 == n % 2;
      if c > 0 { HasBitSetBit(n / 2, b - 1, c - 1); }
    }
  }

  lemma {:induction false} HasBitZero(c: nat)
    ensures !HasBit(0, c)
  {
    if c > 0 { HasBitZero(c - 1); }
  }

  lemma {:induction false} HasBitClearTop(n: nat, c: nat)
    requires n > 0
    ensures HasBit(n, c) <==> c == TopBit(n) || HasBit(ClearTop(n), c)
    ensures HasBit(ClearTop(n), c) ==> c < TopBit(n)
  {
    if n == 1 {
      HasBitZero(c);
      if c > 0 { HasBitZero(c - 1); }
    } else {
      assert ClearTop(n) / 2 == ClearTop(n / 2) && ClearTop(n) % 2 == n % 2;
      if c > 0 { HasBitClearTop(n / 2, c - 1); }
    }
  }

  lemma {:induction false} InBits(n: nat, c: nat)
    ensures c in Bits(n) <==> HasBit(n, c)
  {
    if n == 0 { HasBitZero(c); } else {
      ClearTopValue(n);
      InBits(ClearTop(n), c);
      HasBitClearTop(n, c);
    }
  }

  lemma {:induction false} BitsAscend(n: nat)
    ensures forall i, j :: 0 <= i < j < |Bits(n)| ==> Bits(n)[i] < Bits(n)[j]
  {
    if n > 0 {
      ClearTopValue(n);
      BitsAscend(ClearTop(n));
      forall i | 0 <= i < |Bits(n)| - 1 ensures Bits(n)[i] < TopBit(n) {
        assert Bits(n)[i] in Bits(ClearTop(n));
        InBits(ClearTop(n), Bits(n)[i]);
        HasBitClearTop(n, Bits(n)[i]);
      }
    }
  }

  lemma {:induction false} BitsInjective(n: nat, m: nat)
    requires Bits(n) == Bits(m)
    ensures n == m
  {
    if n > 0 && m > 0 {
      ClearTopValue(n);
      ClearTopValue(m);
      assert Bits(n)[..|Bits(n)| - 1] == Bits(ClearTop(n));
      assert Bits(m)[..|Bits(m)| - 1] == Bits(ClearTop(m));
      BitsInjective(ClearTop(n), ClearTop(m));
    }
  }

  lemma {:induction false} Pow2Mono(a: nat, b: nat)
    requires a <= b
    ensures Pow2(a) <= Pow2(b)
  {
    if a < b { Pow2Mono(a, b - 1); }
  }

  /** Bitmasks below 2^h are exactly those whose bits are all below h. */
  lemma {:induction false} BelowPow2(n: nat, h: nat)
    ensures n < Pow2(h) <==> forall c :: c in Bits(n) ==> c < h
  {
    if n > 0 {
      ClearTopValue(n);
      BitsAscend(n);
      assert Bits(n)[|Bits(n)| - 1] == TopBit(n);
      if TopBit(n) >= h {
        Pow2Mono(h, TopBit(n));
        assert TopBit(n) in Bits(n);
      } else {
        Pow2Mono(TopBit(n) + 1, h);
        forall c | c in Bits(n) ensures c < h {
          var i :| 0 <= i < |Bits(n)| && Bits(n)[i] == c;
        }
      }
    } else {
      Pow2Mono(0, h);
    }
  }

  /** What is left of m after clearing top bits until it is at most i: the slot of hot_node_count that
    * holds m's weight once the linking loop has processed every index above i. */
  function Settle(m: nat, i: nat): nat
    decreases m
  {
    if m <= i then m else ClearTopValue(m); Settle(ClearTop(m), i)
  }

  lemma {:induction false} SettleStep(m: nat, i: nat)
    requires i > 0
    ensures Settle(m, i - 1) == if Settle(m, i) == i then ClearTop(i) else Settle(m, i)
    ensures Settle(m, i) <= i
    decreases m
  {
    if m > i {
      ClearTopValue(m);
      SettleStep(ClearTop(m), i);
    } else if m == i {
      ClearTopValue(i);
    }
  }

  /** m settles on i exactly when i's path is a prefix of m's path. */
  lemma {:induction false} SettleIsPrefix(m: nat, i: nat)
    ensures Settle(m, i) == i <==> Bits(i) <= Bits(m)
    decreases m
  {
    if m == i {
    } else if m < i {
      if Bits(i) <= Bits(m) {
        PrefixSmaller(i, m);
      }
    } else {
      ClearTopValue(m);
      SettleIsPrefix(ClearTop(m), i);
      var up := Bits(ClearTop(m));
      if Bits(i) <= Bits(m) {
        if |Bits(i)| == |Bits(m)| { assert Bits(i) == Bits(m); BitsInjective(i, m); }
        assert Bits(i) == Bits(m)[..|Bits(i)|] == up[..|Bits(i)|];
      }
    }
  }

  lemma {:induction false} PrefixSmaller(i: nat, m: nat)
    requires Bits(i) <= Bits(m)
    ensures i <= m
    decreases m
  {
    if m > 0 {
      ClearTopValue(m);
      if |Bits(i)| == |Bits(m)| {
        assert Bits(i) == Bits(m);
        BitsInjective(i, m);
      } else {
        assert Bits(i) == Bits(ClearTop(m))[..|Bits(i)|];
        PrefixSmaller(i, ClearTop(m));
      }
    }
  }
}
