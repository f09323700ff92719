/** The two clocks of the memory controller. The outside counts system cycles, the controller memory cycles. */
module DdrCycles {
  import Arith

  /** The frequencies. The constructor panics unless memFreq < sysFreq / 2. */
  datatype Clocks = Clocks(sysFreq: nat, memFreq: nat)

  ghost predicate Ok(c: Clocks) {
    0 < c.memFreq < c.sysFreq / 2
  }

  function SysToMemCycle(c: Clocks, sysCycle: nat): nat
    requires c.sysFreq > 0
  {
    sysCycle * c.memFreq / c.sysFreq + 1
  }

  function MemToSysCycle(c: Clocks, memCycle: nat): nat
    requires c.memFreq > 0
  {
    (memCycle + 1) * c.sysFreq / c.memFreq
  }

  function MatchingMemToSysCycle(c: Clocks, memCycle: nat): nat
    requires c.memFreq > 0 && memCycle >= 1
  {
    assert (2 * memCycle - 1) * c.sysFreq >= 0 by {
      Arith.MulMono(0, 2 * memCycle - 1, c.sysFreq);
    }
    (2 * memCycle - 1) * c.sysFreq / c.memFreq / 2
  }

  /** n / d is the only q with q * d <= n < (q + 1) * d. */
  lemma DivIs(n: nat, d: nat, q: nat)
    requires d > 0 && q * d <= n < (q + 1) * d
    ensures n / d == q
  {
    Arith.DivFits(n, d);
    if n / d < q {
      Arith.MulMono(n / d + 1, q, d);
    } else if n / d > q {
      Arith.MulMono(q + 1, n / d, d);
    }
  }

  /** Dividing twice is dividing once by the product. */
  lemma HalfDiv(n: nat, f: nat)
    requires f > 0
    ensures 2 * f * (n / f / 2) <= n < 2 * f * (n / f / 2 + 1)
  {
    var a := n / f;
    var h := a / 2;
    Arith.DivFits(n, f);
    assert 2 * h <= a <= 2 * h + 1;
    Arith.MulMono(2 * h, a, f);
    Arith.MulMono(a + 1, 2 * h + 2, f);
    assert 2 * h * f == 2 * f * h && (2 * h + 2) * f == 2 * f * (h + 1);
  }

  /** A system cycle chosen to match a memory cycle translates back to it. */
  lemma MatchingComesBack(c: Clocks, m: nat)
    requires Ok(c) && m >= 1
    ensures SysToMemCycle(c, MatchingMemToSysCycle(c, m)) == m
  {
    var n, f, s := (2 * m - 1) * c.sysFreq, c.memFreq, c.sysFreq;
    Arith.MulMono(0, 2 * m - 1, s);
    var q := n / f / 2;
    HalfDiv(n, f);
    MatchingBounds(m, s, f, q);
    DivIs(q * f, s, m - 1);
  }

  lemma MatchingBounds(m: nat, s: nat, f: nat, q: nat)
    requires m >= 1 && 2 * f <= s && 0 < f
    requires 2 * f * q <= (2 * m - 1) * s < 2 * f * (q + 1)
    ensures (m - 1) * s <= q * f < m * s
  {
    assert 2 * f * q == 2 * (q * f) && 2 * f * (q + 1) == 2 * (q * f) + 2 * f;
    assert (2 * m - 1) * s == 2 * (m * s) - s && (m - 1) * s == m * s - s;
  }

  /** Later system cycles do not translate to earlier memory cycles. */
  lemma SysToMemMono(c: Clocks, a: nat, b: nat)
    requires c.sysFreq > 0 && a <= b
    ensures SysToMemCycle(c, a) <= SysToMemCycle(c, b)
  {
    Arith.MulMono(a, b, c.memFreq);
    Arith.DivMono(a * c.memFreq, b * c.memFreq, c.sysFreq);
  }

  /** An event for memory cycle `m`, put off to the current system cycle if that is later, still falls on `m`. */
  lemma EventFallsOn(c: Clocks, m: nat, sysCycle: nat)
    requires Ok(c) && m >= SysToMemCycle(c, sysCycle)
    ensures SysToMemCycle(c, Arith.Max(MatchingMemToSysCycle(c, m), sysCycle)) == m
  {
    var back := MatchingMemToSysCycle(c, m);
    MatchingComesBack(c, m);
    if back < sysCycle {
      SysToMemMono(c, back, sysCycle);
    }
  }

  /** What ends no earlier than the current memory cycle does not end before the current system cycle. */
  lemma DoneNotBefore(c: Clocks, m: nat, sysCycle: nat)
    requires Ok(c) && m >= SysToMemCycle(c, sysCycle)
    ensures MemToSysCycle(c, m) >= sysCycle
  {
    var f, s := c.memFreq, c.sysFreq;
    Arith.DivFits(sysCycle * f, s);
    Arith.MulMono(sysCycle * f / s + 1, m + 1, s);
    Arith.DivFits((m + 1) * s, f);
    if (m + 1) * s / f < sysCycle {
      Arith.MulMono((m + 1) * s / f + 1, sysCycle, f);
    }
  }

  /** Memory cycle m lasts from (m - 1) * sysFreq / memFreq to m * sysFreq / memFreq, in system cycles. */
  lemma MemCycleIs(c: Clocks, sysCycle: nat, m: nat)
    requires Ok(c) && m >= 1
    ensures SysToMemCycle(c, sysCycle) == m <==> (m - 1) * c.sysFreq <= sysCycle * c.memFreq < m * c.sysFreq
  {
    var n, s := sysCycle * c.memFreq, c.sysFreq;
    if (m - 1) * s <= n < m * s {
      DivIs(n, s, m - 1);
    } else {
      Arith.DivFits(n, s);
    }
  }

  /** What ends in memory cycle m is answered in the next one, or at the very beginning of the one after. */
  lemma DoneSoon(c: Clocks, m: nat)
    requires Ok(c)
    ensures m + 1 <= SysToMemCycle(c, MemToSysCycle(c, m)) <= m + 2
    ensures SysToMemCycle(c, MemToSysCycle(c, m)) == m + 2 <==> (m + 1) * c.sysFreq % c.memFreq == 0
  {
    var f, s := c.memFreq, c.sysFreq;
    var n := (m + 1) * s;
    var q := n / f;
    assert n == q * f + n % f;
    assert m * s == n - s && (m + 2) * s == n + s;
    MemCycleIs(c, q, if n % f == 0 then m + 2 else m + 1);
  }
}
