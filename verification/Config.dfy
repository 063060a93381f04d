/** The sizes config.rs derives from the estimated network size, with the
    rounded logarithm in exact integer form. */
module Config {

  datatype Config = Config(networkSize: nat, activeViewFactor: nat, passiveViewFactor: nat) {

    // (log2(n) + c).round() as usize; for n = 0 the logarithm is -inf and the
    // cast saturates.
    function MaxActiveViewSize(): nat {
      if networkSize == 0 then 0 else RoundLog2(networkSize) + activeViewFactor
    }

    function MinActiveViewSize(): nat {
      if MaxActiveViewSize() / 2 < 1 then 1 else MaxActiveViewSize() / 2
    }

    function MaxPassiveViewSize(): nat {
      MaxActiveViewSize() * passiveViewFactor
    }

    function ActiveWalkLength(): nat {
      var log := if networkSize == 0 then 0 else FloorLog2(networkSize);
      if log < 2 then 2 else if log > 6 then 6 else log
    }

    function ShuffleMaxSize(): nat {
      MaxActiveViewSize() * 2
    }
  }

  const DEFAULT := Config(1000, 1, 6)

  function Pow2(k: nat): nat {
    if k == 0 then 1 else 2 * Pow2(k - 1)
  }

  function FloorLog2(n: nat): nat
    requires n > 0
  {
    if n == 1 then 0 else 1 + FloorLog2(n / 2)
  }

  // The square root of two decides between rounding down and up.
  function RoundLog2(n: nat): nat
    requires n > 0
  {
    var k := FloorLog2(n);
    if n * n < 2 * (Pow2(k) * Pow2(k)) then k else k + 1
  }

  lemma {:induction false} FloorLog2Bounds(n: nat)
    requires n > 0
    ensures Pow2(FloorLog2(n)) <= n < 2 * Pow2(FloorLog2(n))
  {
    if n > 1 {
      FloorLog2Bounds(n / 2);
    }
  }

  lemma {:induction false} SquareNotTwicePower(n: nat, k: nat)
    ensures n * n != 2 * (Pow2(k) * Pow2(k))
  {
    var m := n / 2;
    if n % 2 == 1 {
      assert n * n == (2 * m + 1) * (2 * m + 1) == 2 * (2 * (m * m) + 2 * m) + 1;
    } else {
      assert n * n == (2 * m) * (2 * m) == 4 * (m * m);
      if k > 0 {
        var q := Pow2(k - 1);
        assert Pow2(k) * Pow2(k) == (2 * q) * (2 * q) == 4 * (q * q);
        SquareNotTwicePower(m, k - 1);
      }
    }
  }

  // |log2(n) - RoundLog2(n)| < 1/2, squared and cleared of the logarithm: never a tie.
  lemma RoundLog2IsNearest(n: nat)
    requires n > 0
    ensures var p := Pow2(RoundLog2(n)); p * p < 2 * (n * n) && n * n < 2 * (p * p)
  {
    var k := FloorLog2(n);
    FloorLog2Bounds(n);
    SquareNotTwicePower(n, k);
    SquaresWithin(Pow2(k), n);
    DoubleSquare(Pow2(k));
    assert Pow2(k + 1) == 2 * Pow2(k);
  }

  lemma SquaresWithin(p: nat, n: nat)
    requires 0 < n && p <= n < 2 * p
    ensures p * p <= n * n < 4 * (p * p)
    ensures 0 < n * n
  {
    assert p * p <= p * n <= n * n;
    assert n * n < n * (2 * p) <= (2 * p) * (2 * p);
    DoubleSquare(p);
  }

  lemma DoubleSquare(p: nat)
    ensures (2 * p) * (2 * p) == 4 * (p * p)
  {}

  // Exactly which settings leave room for two active peers.
  lemma TwoActiveSlots(c: Config)
    ensures c.MaxActiveViewSize() >= 2 <==>
            c.networkSize >= 1
            && (c.activeViewFactor >= 2 || (c.activeViewFactor == 1 && c.networkSize >= 2) || c.networkSize >= 3)
  {
    var n := c.networkSize;
    if n >= 3 {
      assert FloorLog2(n) >= 1;
      if n == 3 {
        assert FloorLog2(3) == 1 && Pow2(1) == 2;
      } else {
        assert FloorLog2(n) == 1 + FloorLog2(n / 2) && FloorLog2(n / 2) >= 1;
      }
    } else if n == 2 {
      assert FloorLog2(2) == 1 && Pow2(1) == 2;
    } else if n == 1 {
      assert FloorLog2(1) == 0 && Pow2(0) == 1;
    }
  }

  // The minimum is below the maximum as soon as there is one slot at all.
  lemma ViewSizesOrdered(c: Config)
    ensures 1 <= c.MinActiveViewSize()
    ensures c.MinActiveViewSize() <= c.MaxActiveViewSize() <==> c.MaxActiveViewSize() >= 1
    ensures c.MaxActiveViewSize() >= 2 ==>
      2 * c.MinActiveViewSize() <= c.MaxActiveViewSize() < 2 * c.MinActiveViewSize() + 2
    ensures 2 <= c.ActiveWalkLength() <= 6
  {}

  lemma {:induction false} Pow2Grows(i: nat, j: nat)
    requires i < j
    ensures 2 * Pow2(i) <= Pow2(j)
  {
    if j > i + 1 {
      Pow2Grows(i, j - 1);
    }
  }

  // Walks are as long as the logarithm, rounded down, between two and six.
  lemma WalkLengthExact(c: Config)
    ensures c.networkSize < 4 ==> c.ActiveWalkLength() == 2
    ensures 4 <= c.networkSize < 128 ==>
      Pow2(c.ActiveWalkLength()) <= c.networkSize < 2 * Pow2(c.ActiveWalkLength())
    ensures c.networkSize >= 128 ==> c.ActiveWalkLength() == 6
  {
    var n := c.networkSize;
    if n > 0 {
      var k := FloorLog2(n);
      FloorLog2Bounds(n);
      assert Pow2(2) == 4;
      assert Pow2(7) == 128 by {
        assert Pow2(4) == 16;
      }
      if k >= 3 {
        Pow2Grows(2, k);
      }
      if k < 2 {
        Pow2Grows(k, 2);
      }
      if k < 7 {
        Pow2Grows(k, 7);
      } else if k > 7 {
        Pow2Grows(7, k);
      }
    }
  }

  lemma DefaultSizes()
    ensures DEFAULT.MaxActiveViewSize() == 11 && DEFAULT.MinActiveViewSize() == 5
    ensures DEFAULT.MaxPassiveViewSize() == 66 && DEFAULT.ActiveWalkLength() == 6 && DEFAULT.ShuffleMaxSize() == 22
  {
    assert FloorLog2(1000) == 9 by {
      assert FloorLog2(15) == 3;
      assert FloorLog2(125) == 6;
    }
    assert Pow2(9) == 512 by {
      assert Pow2(3) == 8;
      assert Pow2(6) == 64;
    }
  }
}
