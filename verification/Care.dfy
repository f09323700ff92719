/** The CARE replacement policy: it predicts from a table how likely a line is used again and how costly it is to fetch
    again, and mirrors the addresses of the array it serves. */
module Care {
  import opened Sequences
  import opened Wrappers

  const RC_MAX: nat := 7
  const PD_MAX: nat := 7
  const LOW_REUSE: nat := 3
  const MOD_LOW_COST: nat := 2
  const MOD_HIGH_COST: nat := 1
  const HIGH_REUSE: nat := 0

  /** What the policy keeps for a line. */
  datatype Info = Info(rc: nat, pd: nat, pmcs: nat, rBit: bool, epv: nat, addr: nat)

  /** A prediction for the addresses with one hash. */
  datatype Prediction = Prediction(rc: nat, pd: nat)

  function ComputeEPV(rc: nat, pd: nat): (epv: nat)
    ensures epv == LOW_REUSE <==> rc == 0
    ensures epv == HIGH_REUSE <==> rc == RC_MAX
    ensures epv == MOD_LOW_COST <==> rc != 0 && rc != RC_MAX && pd == 0
    ensures epv == MOD_HIGH_COST <==> rc != 0 && rc != RC_MAX && pd != 0
  {
    if rc == 0 then LOW_REUSE
    else if rc == RC_MAX then HIGH_REUSE
    else if pd == 0 then MOD_LOW_COST
    else MOD_HIGH_COST
  }

  /** `a` is to be evicted rather than `b`. */
  predicate Rather(a: Info, b: Info) {
    a.epv > b.epv || (a.epv == b.epv && (a.rc < b.rc || (a.rc == b.rc && a.pd < b.pd)))
  }

  predicate InfoOk(i: Info) {
    i.rc <= RC_MAX && i.pd <= PD_MAX && i.epv == ComputeEPV(i.rc, i.pd)
  }

  function AddressesOf(lines: seq<Info>): (m: seq<nat>)
    ensures |m| == |lines| && forall i :: 0 <= i < |lines| ==> m[i] == lines[i].addr
  {
    if lines == [] then [] else AddressesOf(lines[..|lines| - 1]) + [lines[|lines| - 1].addr]
  }

  // ----- the share of costly misses, in single precision -----

  /** A positive number in single precision: mantissa / 2^exponent. */
  datatype Single = Single(mantissa: nat, exponent: nat)

  const MANTISSA_MIN: nat := 0x80_0000                // 2^23
  const FIVE_PERCENT: nat := 7205759403792794         // 0.05 in double precision, times 2^57
  const HALF_PERCENT: nat := 5764607523034235         // 0.005 in double precision, times 2^60

  function Pow2(e: nat): (r: nat)
    ensures r > 0
  {
    if e == 0 then 1 else 2 * Pow2(e - 1)
  }

  /** How often n/d is to be doubled until it has as many digits as a mantissa. */
  function Exponent(n: nat, d: nat): (e: nat)
    requires 0 < n <= 2 * MANTISSA_MIN * d
    ensures MANTISSA_MIN * d <= n * Pow2(e) <= 2 * MANTISSA_MIN * d
    decreases 2 * MANTISSA_MIN * d - n
  {
    if n >= MANTISSA_MIN * d then 0
    else
      var e := Exponent(2 * n, d);
      assert (2 * n) * Pow2(e) == n * Pow2(e + 1);
      e + 1
  }

  /** n/d, rounded to the nearest number in single precision. */
  function Quotient(n: nat, d: nat): Single
    requires n <= d && d > 0
  {
    if n == 0 then Single(0, 0)
    else
      var e := Exponent(n, d);
      var scaled := n * Pow2(e);
      Single((2 * scaled + d) / (2 * d), e)
  }

  /** Comparison with the number that is `a` / 2^`e` in double precision. */
  predicate Exceeds(f: Single, a: nat, e: nat) {
    f.mantissa * Pow2(e) > a * Pow2(f.exponent)
  }

  predicate FallsBelow(f: Single, a: nat, e: nat) {
    f.mantissa * Pow2(e) < a * Pow2(f.exponent)
  }

  lemma {:induction false} Pow2Monotone(a: nat, b: nat)
    requires a <= b
    ensures Pow2(a) <= Pow2(b)
  {
    if a < b {
      Pow2Monotone(a, b - 1);
    }
  }

  lemma Pow2Values()
    ensures Pow2(27) == 0x800_0000 && Pow2(28) == 0x1000_0000 && Pow2(29) == 0x2000_0000
    ensures Pow2(30) == 0x4000_0000 && Pow2(31) == 0x8000_0000 && Pow2(32) == 0x1_0000_0000
    ensures Pow2(57) == 0x200_0000_0000_0000 && Pow2(60) == 0x1000_0000_0000_0000
  {
    assert Pow2(10) == 0x400;
    assert Pow2(20) == 0x10_0000;
    assert Pow2(27) == 0x800_0000;
    assert Pow2(32) == 0x1_0000_0000;
    assert Pow2(40) == 0x100_0000_0000;
    assert Pow2(50) == 0x4_0000_0000_0000;
  }

  /** The only power of two strictly between two others. */
  lemma Pow2Between(e: nat, k: nat)
    requires k > 0 && Pow2(k - 1) < Pow2(e) < Pow2(k + 1)
    ensures e == k
  {
    if e < k {
      Pow2Monotone(e, k - 1);
    } else if e > k {
      Pow2Monotone(k + 1, e);
    }
  }

  /** n of 16000 times p, rounded: between bounds that are linear in p. */
  lemma MantissaBounds(n: nat, p: nat, lo: nat, hi: nat)
    requires lo <= n <= hi
    ensures var m := (2 * (n * p) + 16000) / 32000;
            32000 * m <= 2 * (hi * p) + 16000 && 2 * (lo * p) < 32000 * m + 16000
  {
    assert lo * p <= n * p <= hi * p;
    var x := 2 * (n * p) + 16000;
    assert x == 32000 * (x / 32000) + x % 32000;
  }

  lemma ScaleIsLarge(n: nat, p: nat, hi: nat)
    requires 0 < n <= hi && MANTISSA_MIN * 16000 <= n * p
    ensures MANTISSA_MIN * 16000 <= hi * p
  {
  }

  lemma QuotientIs(n: nat) returns (p: nat)
    requires 0 < n <= 16000
    ensures p == Pow2(Quotient(n, 16000).exponent) && Quotient(n, 16000).mantissa == (2 * (n * p) + 16000) / 32000
    ensures MANTISSA_MIN * 16000 <= n * p <= 2 * MANTISSA_MIN * 16000
  {
    p := Pow2(Exponent(n, 16000));
  }

  /** What is rounded when n of 16000 is: its power of two, and bounds for its mantissa. */
  lemma QuotientBounds(n: nat, lo: nat, hi: nat)
    requires 0 < n <= 16000 && lo <= n <= hi
    ensures var f := Quotient(n, 16000);
            var p := Pow2(f.exponent);
            && MANTISSA_MIN * 16000 <= hi * p && lo * p <= 2 * MANTISSA_MIN * 16000
            && 32000 * f.mantissa <= 2 * (hi * p) + 16000 && 2 * (lo * p) < 32000 * f.mantissa + 16000
  {
    var p := QuotientIs(n);
    MantissaBounds(n, p, lo, hi);
    ScaleIsLarge(n, p, hi);
    assert lo * p <= n * p;
  }

  lemma FivePercentOf(m: nat, p: nat)
    ensures MANTISSA_MIN * 16000 <= 799 * p && 32000 * m <= 2 * (799 * p) + 16000 ==>
              m * 0x200_0000_0000_0000 <= FIVE_PERCENT * p
    ensures MANTISSA_MIN * 16000 <= 16000 * p && 2 * (801 * p) < 32000 * m + 16000 ==>
              m * 0x200_0000_0000_0000 > FIVE_PERCENT * p
  {
  }

  lemma HalfPercentOf(m: nat, p: nat)
    ensures MANTISSA_MIN * 16000 <= 79 * p && 32000 * m <= 2 * (79 * p) + 16000 ==>
              m * 0x1000_0000_0000_0000 < HALF_PERCENT * p
    ensures MANTISSA_MIN * 16000 <= 16000 * p && 2 * (81 * p) < 32000 * m + 16000 ==>
              m * 0x1000_0000_0000_0000 >= HALF_PERCENT * p
  {
  }

  lemma ExactlyFivePercent(f: Single)
    requires f == Quotient(800, 16000)
    ensures f == Single(13421773, 28)
  {
    Pow2Values();
    QuotientBounds(800, 800, 800);
    Pow2Between(f.exponent, 28);
  }

  lemma ExactlyHalfPercent(f: Single)
    requires f == Quotient(80, 16000)
    ensures f == Single(10737418, 31)
  {
    Pow2Values();
    QuotientBounds(80, 80, 80);
    Pow2Between(f.exponent, 31);
  }

  /** 800 of 16000 is rounded up to a number above 0.05: the test "more than 5%" holds for 5%, too. */
  lemma MoreThanFivePercent(n: nat, f: Single)
    requires n <= 16000 && f == Quotient(n, 16000)
    ensures Exceeds(f, FIVE_PERCENT, 57) <==> n >= 800
  {
    Pow2Values();
    if n == 800 {
      ExactlyFivePercent(f);
    } else if n > 0 {
      QuotientBounds(n, if n < 800 then 0 else 801, if n < 800 then 799 else 16000);
      FivePercentOf(f.mantissa, Pow2(f.exponent));
    }
  }

  /** 80 of 16000 is rounded down to a number below 0.005: the test "less than 0.5%" holds for 0.5%, too. */
  lemma LessThanHalfPercent(n: nat, f: Single)
    requires n <= 16000 && f == Quotient(n, 16000)
    ensures FallsBelow(f, HALF_PERCENT, 60) <==> n <= 80
  {
    Pow2Values();
    if n == 80 {
      ExactlyHalfPercent(f);
    } else if n > 0 {
      QuotientBounds(n, if n < 80 then 0 else 81, if n < 80 then 79 else 16000);
      HalfPercentOf(f.mantissa, Pow2(f.exponent));
    }
  }

  class CAREReplPolicy {
    const numCands: nat
    const shtEntries: nat
    const hash: nat -> nat              // stands for hashAddr
    var lines: seq<Info>
    var sht: seq<Prediction>
    var candArray: seq<nat>             // the candidates recorded so far
    var incomingAddr: nat
    var TMC: nat
    const missPeriod: nat := 16000
    var currentPeriod: nat
    var pmcHigh: nat
    var pmcLow: nat

    ghost predicate Config() {
      shtEntries > 0 && forall a: nat :: hash(a) < shtEntries
    }

    /** All predictions are in range, every line's priority is the one its predictions give, and the two thresholds
        keep their ratio. */
    ghost predicate Valid()
      reads this
    {
      && Config() && |sht| == shtEntries && |candArray| <= numCands
      && (forall i :: 0 <= i < |lines| ==> InfoOk(lines[i]))
      && (forall i :: 0 <= i < |sht| ==> sht[i].rc <= RC_MAX && sht[i].pd <= PD_MAX)
      && pmcHigh == 7 * pmcLow && pmcLow >= 10 && pmcLow % 10 == 0
      && TMC <= currentPeriod < missPeriod
    }

    /** The addresses of the lines, as far as the policy knows. */
    function Mirror(): (m: seq<nat>)
      reads this`lines
      ensures |m| == |lines| && forall i :: 0 <= i < |lines| ==> m[i] == lines[i].addr
    {
      AddressesOf(lines)
    }

    constructor (numLines: nat, numCands: nat, shtEntries: nat, hash: nat -> nat)
      requires shtEntries > 0 && forall a: nat :: hash(a) < shtEntries
      ensures Valid() && |lines| == numLines && this.numCands == numCands && candArray == []
      ensures forall i :: 0 <= i < numLines ==> lines[i].rc == 0
      ensures Mirror() == seq(numLines, i => 0)
    {
      this.numCands, this.shtEntries, this.hash := numCands, shtEntries, hash;
      lines := seq(numLines, i => Info(0, 0, 0, false, LOW_REUSE, 0));
      sht := seq(shtEntries, i => Prediction(0, 0));
      candArray, incomingAddr, TMC, currentPeriod, pmcHigh, pmcLow := [], 0, 0, 0, 350, 50;
    }

    /** The first line with the address, or None. */
    method FindID(addr: nat) returns (id: Option<nat>)
      ensures id == if Index(Mirror(), addr) < |lines| then Some(Index(Mirror(), addr)) else None
    {
      id := None;
      var i := 0;
      while i < |lines| && id.None?
        invariant i <= |lines|
        invariant id.None? ==> forall j :: 0 <= j < i ==> lines[j].addr != addr
        invariant id.Some? ==> id.value == i - 1 && lines[i - 1].addr == addr
        invariant id.Some? ==> forall j :: 0 <= j < i - 1 ==> lines[j].addr != addr
      {
        if lines[i].addr == addr {
          id := Some(i);
        }
        i := i + 1;
      }
      IndexIs(Mirror(), addr, if id.Some? then id.value else |lines|);
    }

    /** Counts costly misses; at the end of a period raises the thresholds if there were many, lowers them if few. With
        division in single precision, exactly 5% are many, and exactly 0.5% are few. */
    method DTRM(mshrPMC: real)
      requires Valid()
      modifies this`TMC, this`currentPeriod, this`pmcHigh, this`pmcLow
      ensures Valid()
      ensures old(currentPeriod) + 1 < missPeriod ==>
                && pmcLow == old(pmcLow) && currentPeriod == old(currentPeriod) + 1
                && TMC == old(TMC) + if mshrPMC >= old(pmcHigh) as real then 1 else 0
      ensures old(currentPeriod) + 1 >= missPeriod ==>
                var costly := old(TMC) + if mshrPMC >= old(pmcHigh) as real then 1 else 0;
                && currentPeriod == TMC == 0
                && pmcLow == if costly >= 800 then old(pmcLow) + 10
                             else if costly <= 80 && old(pmcLow) > 10 then old(pmcLow) - 10
                             else old(pmcLow)
    {
      currentPeriod := currentPeriod + 1;
      if mshrPMC >= pmcHigh as real {
        TMC := TMC + 1;
      }
      if currentPeriod >= missPeriod {
        MoveThresholds();
        currentPeriod := 0;
        TMC := 0;
      }
    }

    method MoveThresholds()
      requires TMC <= currentPeriod == missPeriod && pmcHigh == 7 * pmcLow && pmcLow >= 10 && pmcLow % 10 == 0
      modifies this`pmcHigh, this`pmcLow
      ensures pmcLow == if TMC >= 800 then old(pmcLow) + 10
                        else if TMC <= 80 && old(pmcLow) > 10 then old(pmcLow) - 10
                        else old(pmcLow)
      ensures pmcHigh == 7 * pmcLow
    {
      var many, few := Share(TMC, currentPeriod);
      if many {
        pmcHigh := pmcHigh + 70;
        pmcLow := pmcLow + 10;
      } else if few {
        if !(pmcLow <= 10) {
          pmcHigh := pmcHigh - 70;
          pmcLow := pmcLow - 10;
        }
      }
    }

    /** Whether the share is above 0.05, and whether it is below 0.005. */
    static method Share(costly: nat, period: nat) returns (many: bool, few: bool)
      requires costly <= period == 16000
      ensures many <==> costly >= 800
      ensures few <==> costly <= 80
    {
      var share := Quotient(costly, period);
      MoreThanFivePercent(costly, share);
      LessThanHalfPercent(costly, share);
      many, few := Exceeds(share, FIVE_PERCENT, 57), FallsBelow(share, HALF_PERCENT, 60);
    }

    /** The first use since the line was given its address counts, in the line and in the table, up to the greatest
        prediction; later ones do not. */
    method Update(id: nat)
      requires Valid() && id < |lines|
      modifies this`lines, this`sht
      ensures Valid() && Mirror() == old(Mirror())
      ensures old(lines)[id].rBit ==> lines == old(lines) && sht == old(sht)
      ensures !old(lines)[id].rBit ==>
                && OneMore(old(lines)[id].rc, lines[id].rc)
                && OneMore(old(sht)[hash(lines[id].addr)].rc, sht[hash(lines[id].addr)].rc)
      ensures lines[id].rBit && lines[id].pd == old(lines)[id].pd && lines[id].pmcs == old(lines)[id].pmcs
      ensures sht[hash(lines[id].addr)].pd == old(sht)[hash(lines[id].addr)].pd
      ensures forall i :: 0 <= i < |lines| && i != id ==> lines[i] == old(lines)[i]
      ensures forall i :: 0 <= i < shtEntries && i != hash(lines[id].addr) ==> sht[i] == old(sht)[i]
    {
      if !lines[id].rBit {
        var l := lines[id].(rBit := true);
        if l.rc < RC_MAX {
          l := l.(rc := l.rc + 1);
        }
        var idx := hash(l.addr);
        if sht[idx].rc < RC_MAX {
          sht := sht[idx := sht[idx].(rc := sht[idx].rc + 1)];
        }
        lines := lines[id := l.(epv := ComputeEPV(l.rc, l.pd))];
      }
    }

    /** One more than before, but never more than 7. */
    predicate OneMore(before: nat, after: nat) {
      (before < 7 ==> after == before + 1) && (before >= 7 ==> after == before)
    }

    /** The class of a miss's cost. */
    method QuantizePMC(mshrPMC: real, id: nat)
      requires Valid()
      modifies this`lines
      ensures Valid() && Mirror() == old(Mirror())
      ensures id < |lines| ==>
                lines == old(lines)[id := old(lines)[id].(pmcs := if mshrPMC < pmcLow as real then 0
                                                                 else if mshrPMC > pmcHigh as real then 3 else 1)]
      ensures id >= |lines| ==> lines == old(lines)
    {
      if id < |lines| {
        var c := if mshrPMC < pmcLow as real then 0 else if mshrPMC > pmcHigh as real then 3 else 1;
        lines := lines[id := lines[id].(pmcs := c)];
      }
    }

    /** The table learns the cost of a miss. */
    method ShtPMCUpdate(addr: nat, id: nat)
      requires Valid()
      modifies this`sht
      ensures Valid()
      ensures forall i :: 0 <= i < shtEntries && (i != hash(addr) || id >= |lines|) ==> sht[i] == old(sht)[i]
      ensures id < |lines| ==>
                var was := old(sht)[hash(addr)];
                sht[hash(addr)] == was.(pd := if lines[id].pmcs == 3 && was.pd < 7 then was.pd + 1
                                              else if lines[id].pmcs == 0 && was.pd > 0 then was.pd - 1 else was.pd)
    {
      if id < |lines| {
        var idx := hash(addr);
        if lines[id].pmcs == 3 && sht[idx].pd < 7 {
          sht := sht[idx := sht[idx].(pd := sht[idx].pd + 1)];
        } else if lines[id].pmcs == 0 && sht[idx].pd > 0 {
          sht := sht[idx := sht[idx].(pd := sht[idx].pd - 1)];
        }
      }
    }

    method StartReplacement(addr: nat)
      requires Valid()
      modifies this`candArray, this`incomingAddr
      ensures Valid() && candArray == [] && incomingAddr == addr
    {
      candArray := [];
      incomingAddr := addr;
    }

    method RecordCandidate(id: nat)
      requires Valid() && |candArray| < numCands
      modifies this`candArray
      ensures Valid() && candArray == old(candArray) + [id]
    {
      candArray := candArray + [id];
    }

    /** The first of the candidates that is to be evicted rather than, or as much as, every other. */
    method GetBestCandidate() returns (best: nat, ghost k: nat)
      requires Valid() && candArray != [] && forall i :: 0 <= i < |candArray| ==> candArray[i] < |lines|
      ensures k < |candArray| && best == candArray[k]
      ensures forall i :: 0 <= i < k ==> Rather(lines[best], lines[candArray[i]])
      ensures forall i :: 0 <= i < |candArray| ==> !Rather(lines[candArray[i]], lines[best])
      ensures forall i :: 0 <= i < |candArray| ==>
                var c, b := lines[candArray[i]], lines[best];
                c.epv < b.epv || (c.epv == b.epv && (b.rc < c.rc || (b.rc == c.rc && b.pd <= c.pd)))
    {
      best, k := candArray[0], 0;
      var i := 1;
      while i < |candArray|
        invariant 1 <= i <= |candArray| && k < i && best == candArray[k]
        invariant forall j :: 0 <= j < k ==> Rather(lines[best], lines[candArray[j]])
        invariant forall j :: 0 <= j < i ==> !Rather(lines[candArray[j]], lines[best])
      {
        var cand := candArray[i];
        var c, b := lines[cand], lines[best];
        if c.epv > b.epv {
          best, k := cand, i;
        } else if c.epv == b.epv {
          if c.rc < b.rc {
            best, k := cand, i;
          } else if c.rc == b.rc {
            if c.pd < b.pd {
              best, k := cand, i;
            }
          }
        }
        i := i + 1;
      }
    }

    /** The line has been given to the incoming address, and takes over what the table predicts for it. The table
        learns that the evicted line was not used again, and a little of what it cost. */
    method Replaced(id: nat)
      requires Valid() && id < |lines|
      modifies this`lines, this`sht, this`candArray
      ensures Valid() && candArray == [] && Mirror() == old(Mirror())[id := incomingAddr]
      ensures forall i :: 0 <= i < shtEntries ==>
                Decayed(old(sht)[i].rc, old(lines)[id].addr != 0 && i == hash(old(lines)[id].addr), sht[i].rc)
      ensures forall i :: 0 <= i < shtEntries && i != hash(incomingAddr) ==> sht[i].pd == old(sht)[i].pd
      ensures var i := hash(incomingAddr);
              && Towards(old(sht)[i].pd, old(lines)[id].pd, sht[i].pd)
              && lines[id].rc == sht[i].rc && lines[id].pd == sht[i].pd
      ensures !lines[id].rBit && lines[id].pmcs == 0
      ensures forall i :: 0 <= i < |lines| && i != id ==> lines[i] == old(lines)[i]
    {
      if lines[id].addr != 0 {
        Decay(hash(lines[id].addr));
      }
      var inIdx := hash(incomingAddr);
      var rc := sht[inIdx].rc;
      Blend(inIdx, lines[id].pd);
      var pd := sht[inIdx].pd;
      lines := lines[id := Info(rc, pd, 0, false, ComputeEPV(rc, pd), incomingAddr)];
      candArray := [];
    }

    /** A prediction of reuse goes down by one, if it is that of the evicted line and there is one to go down. */
    predicate Decayed(before: nat, evicted: bool, after: nat) {
      after == if evicted && before > 0 then before - 1 else before
    }

    /** A prediction of cost moves by one towards a line's cost. */
    predicate Towards(before: nat, cost: nat, after: nat) {
      && (cost > before ==> after == before + 1)
      && (cost < before ==> after + 1 == before)
      && (cost == before ==> after == before)
    }

    method Decay(idx: nat)
      requires Valid() && idx < |sht|
      modifies this`sht
      ensures Valid() && Decayed(old(sht)[idx].rc, true, sht[idx].rc) && sht[idx].pd == old(sht)[idx].pd
      ensures forall i :: 0 <= i < shtEntries && i != idx ==> sht[i] == old(sht)[i]
    {
      if sht[idx].rc > 0 {
        sht := sht[idx := sht[idx].(rc := sht[idx].rc - 1)];
      }
    }

    method Blend(idx: nat, pd: nat)
      requires Valid() && idx < |sht| && pd <= PD_MAX
      modifies this`sht
      ensures Valid() && Towards(old(sht)[idx].pd, pd, sht[idx].pd) && sht[idx].rc == old(sht)[idx].rc
      ensures forall i :: 0 <= i < shtEntries && i != idx ==> sht[i] == old(sht)[i]
    {
      if pd > sht[idx].pd && sht[idx].pd < PD_MAX {
        sht := sht[idx := sht[idx].(pd := sht[idx].pd + 1)];
      } else if pd < sht[idx].pd && sht[idx].pd > 0 {
        sht := sht[idx := sht[idx].(pd := sht[idx].pd - 1)];
      }
    }
  }

  /** A set-associative array that is served by the policy. */
  class SetAssocArray {
    const assoc: nat
    const setOf: nat -> nat   // stands for the hash and the set mask
    const rp: CAREReplPolicy
    var tags: seq<nat>        // the address of every line, 0 for none

    /** The lines of set `k`. */
    predicate InSet(id: nat, k: nat) {
      k * assoc <= id < k * assoc + assoc
    }

    ghost predicate Config()
      reads this
    {
      0 < assoc <= rp.numCands && forall a: nat :: setOf(a) * assoc + assoc <= |tags|
    }

    /** Every address is in its set, and only once; the policy knows all addresses, and has counted every line, so that
        a line is of low reuse exactly if it is empty. */
    ghost predicate Valid()
      reads this, rp
    {
      && Config() && rp.Valid() && Placed(tags) && rp.Mirror() == tags
      && forall id :: 0 <= id < |tags| ==>
           (tags[id] != 0 ==> rp.lines[id].rBit) && (tags[id] == 0 <==> rp.lines[id].rc == 0)
    }

    ghost predicate Placed(t: seq<nat>) {
      && (forall id :: 0 <= id < |t| && t[id] != 0 ==> InSet(id, setOf(t[id])))
      && (forall i, j :: 0 <= i < j < |t| && t[i] != 0 ==> t[i] != t[j])
    }

    constructor (rp: CAREReplPolicy, numLines: nat, assoc: nat, setOf: nat -> nat)
      requires rp.Valid() && rp.Mirror() == seq(numLines, i => 0) && 0 < assoc <= rp.numCands
      requires forall i :: 0 <= i < |rp.lines| ==> rp.lines[i].rc == 0
      requires forall a: nat :: setOf(a) * assoc + assoc <= numLines
      ensures Valid() && this.rp == rp && tags == seq(numLines, i => 0)
    {
      this.rp, this.assoc, this.setOf := rp, assoc, setOf;
      tags := seq(numLines, i => 0);
    }

    /** An address that is in the array at all is in its set, at the only place where it stands. */
    lemma FoundInSet(a: nat, id: nat)
      requires Valid() && a != 0
      requires var first := setOf(a) * assoc;
               && first <= id <= first + assoc <= |tags| && (id < first + assoc ==> tags[id] == a)
               && forall j :: first <= j < id ==> tags[j] != a
      ensures Index(tags, a) == if id < setOf(a) * assoc + assoc then id else |tags|
    {
      IndexIs(tags, a, if id < setOf(a) * assoc + assoc then id else |tags|);
    }

    /** Searches the set of the address, and finds what the policy's search of all lines finds. A hit changes nothing in
        the policy, because the line's insertion has already been counted. */
    method Lookup(addr: nat, updateReplacement: bool) returns (lineId: Option<nat>)
      requires Valid() && addr != 0
      modifies rp`lines, rp`sht
      ensures Valid() && rp.lines == old(rp.lines) && rp.sht == old(rp.sht)
      ensures lineId == if Index(tags, addr) < |tags| then Some(Index(tags, addr)) else None
    {
      var first := setOf(addr) * assoc;
      var id := first;
      while id < first + assoc && tags[id] != addr
        invariant first <= id <= first + assoc <= |tags|
        invariant forall j :: first <= j < id ==> tags[j] != addr
      {
        id := id + 1;
      }
      FoundInSet(addr, id);
      if id < first + assoc {
        if updateReplacement {
          rp.Update(id);
        }
        return Some(id);
      }
      return None;
    }

    /** Asks the policy for a victim in the set of the address: the first that is to be evicted rather than, or as much
        as, every other. */
    method Preinsert(addr: nat) returns (candidate: nat, wbLineAddr: nat)
      requires Valid()
      modifies rp`candArray, rp`incomingAddr
      ensures Valid() && rp.incomingAddr == addr
      ensures candidate < |tags| && InSet(candidate, setOf(addr)) && wbLineAddr == tags[candidate]
      ensures forall id :: setOf(addr) * assoc <= id < setOf(addr) * assoc + assoc ==>
                !Rather(rp.lines[id], rp.lines[candidate])
      ensures forall id :: setOf(addr) * assoc <= id < candidate ==> Rather(rp.lines[candidate], rp.lines[id])
      ensures forall id :: setOf(addr) * assoc <= id < setOf(addr) * assoc + assoc ==> GoesBefore(candidate, id)
    {
      RecordSet(addr);
      ghost var k;
      candidate, k := rp.GetBestCandidate();
      wbLineAddr := tags[candidate];
      ghost var first := setOf(addr) * assoc;
      forall id | first <= id < first + assoc
        ensures !Rather(rp.lines[id], rp.lines[candidate])
        ensures id < candidate ==> Rather(rp.lines[candidate], rp.lines[id])
      {
        assert rp.candArray[id - first] == id;
      }
    }

    /** An empty line goes before all others; then lines that are cheap to fetch again, then costly ones, and at last
        those with the greatest prediction of reuse. Of the same kind, less reuse goes first, and then less cost. */
    predicate GoesBefore(a: nat, b: nat)
      requires a < |rp.lines| && b < |rp.lines| && a < |tags| && b < |tags|
      reads this`tags, rp`lines
    {
      var x, y := rp.lines[a], rp.lines[b];
      && (tags[b] == 0 ==> tags[a] == 0)
      && (tags[a] != 0 && x.rc == 7 ==> y.rc == 7)
      && (tags[a] != 0 && x.pd > 0 && y.rc < 7 ==> y.pd > 0)
      && ((x.rc == 7) == (y.rc == 7) && (x.pd == 0) == (y.pd == 0) && tags[a] != 0 ==>
            x.rc < y.rc || (x.rc == y.rc && x.pd <= y.pd))
    }

    /** Presents all lines of the set as candidates. */
    method RecordSet(addr: nat)
      requires Valid()
      modifies rp`candArray, rp`incomingAddr
      ensures rp.Valid() && rp.incomingAddr == addr && |rp.candArray| == assoc
      ensures forall i :: 0 <= i < assoc ==> rp.candArray[i] == setOf(addr) * assoc + i < |tags|
    {
      rp.StartReplacement(addr);
      var first := setOf(addr) * assoc;
      var id := first;
      while id < first + assoc
        modifies rp`candArray
        invariant first <= id <= first + assoc && rp.Valid() && |rp.candArray| == id - first
        invariant forall i :: 0 <= i < |rp.candArray| ==> rp.candArray[i] == first + i
      {
        rp.RecordCandidate(id);
        id := id + 1;
      }
    }

    /** Puts the address in the place of the victim. The insertion itself is what is counted: the line starts with one
        more than the table predicted, the table learns the same, and no later hit is counted. */
    method Postinsert(addr: nat, candidate: nat)
      requires Valid() && addr != 0 && addr !in tags && rp.incomingAddr == addr
      requires candidate < |tags| && InSet(candidate, setOf(addr))
      modifies this`tags, rp`lines, rp`sht, rp`candArray
      ensures Valid() && tags == old(tags)[candidate := addr]
      ensures rp.lines[candidate].rBit && rp.lines[candidate].pmcs == 0
      ensures forall i :: 0 <= i < |tags| && i != candidate ==> rp.lines[i] == old(rp.lines)[i]
      ensures var out, h := old(tags)[candidate], rp.hash(addr);
              var predicted := if out != 0 && rp.hash(out) == h && old(rp.sht)[h].rc > 0 then old(rp.sht)[h].rc - 1
                               else old(rp.sht)[h].rc;
              && rp.lines[candidate].rc == rp.sht[h].rc == (if predicted < 7 then predicted + 1 else predicted)
              && rp.lines[candidate].pd == rp.sht[h].pd
              && rp.Towards(old(rp.sht)[h].pd, old(rp.lines)[candidate].pd, rp.sht[h].pd)
      ensures forall i :: 0 <= i < rp.shtEntries && i != rp.hash(addr) ==>
                && rp.sht[i].pd == old(rp.sht)[i].pd
                && rp.Decayed(old(rp.sht)[i].rc, old(tags)[candidate] != 0 && i == rp.hash(old(tags)[candidate]),
                              rp.sht[i].rc)
    {
      rp.Replaced(candidate);
      tags := tags[candidate := addr];
      rp.Update(candidate);
    }
  }
}
