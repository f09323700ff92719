/** The activation window of a rank: the last activations in a circular buffer, oldest first. */
module DdrWindow {

  /** The last place after the oldest whose activation is no later than `c`; 0 if there is none. */
  function Place(w: seq<nat>, c: nat): (j: nat)
    requires |w| > 0
    ensures j < |w|
    ensures j > 0 ==> w[j] <= c
    ensures forall i :: j < i < |w| ==> w[i] > c
  {
    if |w| == 1 then 0 else if w[|w| - 1] <= c then |w| - 1 else Place(w[..|w| - 1], c)
  }

  /** The oldest goes and `x` comes in behind place `j`. When there is no such place, the youngest comes first: the
      shifting loop then takes up its value from the place of the oldest, which it has overwritten. */
  function Rearrange<T>(v: seq<T>, j: nat, x: T): (u: seq<T>)
    requires j < |v|
    ensures |u| == |v|
  {
    if j == 0 && |v| > 1 then [v[|v| - 1]] + v[1..|v| - 1] + [x] else v[1..j + 1] + [x] + v[j + 1..]
  }

  /** The window after an activation at cycle `c`. */
  function Record(w: seq<nat>, c: nat): (u: seq<nat>)
    requires |w| > 0
    ensures |u| == |w|
  {
    Rearrange(w, Place(w, c), c)
  }

  ghost predicate Sorted(w: seq<nat>) {
    forall i, j :: 0 <= i < j < |w| ==> w[i] <= w[j]
  }

  /** The window stays in order exactly when the activation is no earlier than the second oldest. */
  lemma StaysSorted(w: seq<nat>, c: nat)
    requires Sorted(w) && |w| > 1
    ensures Sorted(Record(w, c)) <==> w[1] <= c
  {
    var j, u := Place(w, c), Record(w, c);
    if j == 0 {
      assert u[0] == w[|w| - 1] && u[|w| - 1] == c;
    }
  }

  // ----- at most |w| activations in any stretch of tFAW cycles -----

  function Zeros(n: nat): (z: seq<nat>)
    ensures |z| == n && forall i :: 0 <= i < n ==> z[i] == 0
  {
    seq(n, i => 0)
  }

  /** The window after all these activations. */
  function WindowAfter(n: nat, acts: seq<nat>): (w: seq<nat>)
    requires n > 0
    ensures |w| == n
  {
    if acts == [] then Zeros(n) else Record(WindowAfter(n, acts[..|acts| - 1]), acts[|acts| - 1])
  }

  /** Every activation comes at least tFAW after the one that the window then calls the oldest. */
  ghost predicate Spaced(n: nat, acts: seq<nat>, tFAW: nat)
    requires n > 0
  {
    forall i :: 0 <= i < |acts| ==> acts[i] >= WindowAfter(n, acts[..i])[0] + tFAW
  }

  /** The activations from cycle `x` on for tFAW cycles, by their numbers. */
  ghost function During(acts: seq<nat>, x: nat, tFAW: nat): set<nat> {
    set i: nat | i < |acts| && x <= acts[i] < x + tFAW
  }

  /** The activations fall into |w| chains. In a chain they are at least tFAW apart, and every place of the window
      holds the last of a chain of its own. */
  datatype Chains = Chains(of: seq<nat>, owner: seq<nat>)

  ghost predicate Owners(owner: seq<nat>, n: nat) {
    && |owner| == n
    && (forall i :: 0 <= i < n ==> owner[i] < n)
    && (forall i, j :: 0 <= i < j < n ==> owner[i] != owner[j])
  }

  ghost predicate Apart(acts: seq<nat>, of: seq<nat>, n: nat, tFAW: nat) {
    && |of| == |acts| && (forall i :: 0 <= i < |of| ==> of[i] < n)
    && (forall i, j :: 0 <= i < j < |acts| && of[i] == of[j] ==> acts[j] >= acts[i] + tFAW)
  }

  ghost predicate Last(acts: seq<nat>, of: seq<nat>, w: seq<nat>, owner: seq<nat>) {
    && |of| == |acts| && |owner| == |w|
    && (forall i, s :: 0 <= i < |acts| && 0 <= s < |w| && of[i] == owner[s] ==> acts[i] <= w[s])
  }

  ghost predicate Chained(acts: seq<nat>, w: seq<nat>, ch: Chains, tFAW: nat) {
    Owners(ch.owner, |w|) && Apart(acts, ch.of, |w|, tFAW) && Last(acts, ch.of, w, ch.owner)
  }

  /** Where the value at place `s` of the rearranged window was before; 0 for the new one. */
  function Source(n: nat, j: nat, s: nat): (p: nat)
    requires j < n && s < n
    ensures p < n
  {
    if j == 0 && n > 1 then if s == 0 then n - 1 else if s == n - 1 then 0 else s
    else if s < j then s + 1 else if s == j then 0 else s
  }

  lemma Rearranged<T>(v: seq<T>, j: nat, x: T, s: nat)
    requires j < |v| && s < |v|
    ensures var p := Source(|v|, j, s); Rearrange(v, j, x)[s] == if p == 0 then x else v[p]
  {
  }

  lemma RearrangeOwners(owner: seq<nat>, j: nat)
    requires Owners(owner, |owner|) && j < |owner|
    ensures Owners(Rearrange(owner, j, owner[0]), |owner|)
  {
    var r := Rearrange(owner, j, owner[0]);
    forall s | 0 <= s < |owner|
      ensures r[s] == owner[Source(|owner|, j, s)]
    {
      Rearranged(owner, j, owner[0], s);
    }
  }

  /** A new activation extends the chain of the oldest place. */
  lemma Extend(acts: seq<nat>, w: seq<nat>, ch: Chains, c: nat, tFAW: nat) returns (ch': Chains)
    requires |w| > 0 && Chained(acts, w, ch, tFAW) && c >= w[0] + tFAW
    ensures Chained(acts + [c], Record(w, c), ch', tFAW)
  {
    var j := Place(w, c);
    ch' := Chains(ch.of + [ch.owner[0]], Rearrange(ch.owner, j, ch.owner[0]));
    RearrangeOwners(ch.owner, j);
    forall i, s | 0 <= i < |acts + [c]| && 0 <= s < |w| && ch'.of[i] == ch'.owner[s]
      ensures (acts + [c])[i] <= Record(w, c)[s]
    {
      LastAfter(acts, w, ch, c, tFAW, i, s);
    }
  }

  lemma LastAfter(acts: seq<nat>, w: seq<nat>, ch: Chains, c: nat, tFAW: nat, i: nat, s: nat)
    requires |w| > 0 && Chained(acts, w, ch, tFAW) && c >= w[0] + tFAW && i <= |acts| && s < |w|
    requires (ch.of + [ch.owner[0]])[i] == Rearrange(ch.owner, Place(w, c), ch.owner[0])[s]
    ensures (acts + [c])[i] <= Record(w, c)[s]
  {
    var j := Place(w, c);
    var p := Source(|w|, j, s);
    Rearranged(w, j, c, s);
    Rearranged(ch.owner, j, ch.owner[0], s);
    assert i < |acts| ==> ch.of[i] == ch.owner[p];
  }

  lemma {:induction false} RunChained(n: nat, acts: seq<nat>, tFAW: nat) returns (ch: Chains)
    requires n > 0 && Spaced(n, acts, tFAW)
    ensures Chained(acts, WindowAfter(n, acts), ch, tFAW)
    decreases |acts|
  {
    if acts == [] {
      ch := Chains([], seq(n, i => i));
    } else {
      var before, c := acts[..|acts| - 1], acts[|acts| - 1];
      SpacedBefore(n, acts, tFAW);
      ch := RunChained(n, before, tFAW);
      ch := Extend(before, WindowAfter(n, before), ch, c, tFAW);
      assert before + [c] == acts;
    }
  }

  lemma SpacedBefore(n: nat, acts: seq<nat>, tFAW: nat)
    requires n > 0 && acts != [] && Spaced(n, acts, tFAW)
    ensures Spaced(n, acts[..|acts| - 1], tFAW)
    ensures acts[|acts| - 1] >= WindowAfter(n, acts[..|acts| - 1])[0] + tFAW
  {
    var before := acts[..|acts| - 1];
    forall i | 0 <= i < |before|
      ensures before[i] >= WindowAfter(n, before[..i])[0] + tFAW
    {
      assert before[..i] == acts[..i];
    }
  }

  /** As many numbers below `n`, all different, as there are activations in the stretch. */
  lemma {:induction false} Pigeons(xs: set<nat>, of: seq<nat>, n: nat)
    requires forall i :: i in xs ==> i < |of| && of[i] < n
    requires forall i, j :: i in xs && j in xs && i != j ==> of[i] != of[j]
    ensures |xs| <= n
    decreases n
  {
    if n == 0 {
      assert xs == {};
    } else if exists i :: i in xs && of[i] == n - 1 {
      var i :| i in xs && of[i] == n - 1;
      Pigeons(xs - {i}, of, n - 1);
    } else {
      Pigeons(xs, of, n - 1);
    }
  }

  /** In every run, in order or not, at most `n` activations fall into any tFAW cycles. */
  lemma FawHolds(n: nat, acts: seq<nat>, tFAW: nat, x: nat)
    requires n > 0 && Spaced(n, acts, tFAW)
    ensures |During(acts, x, tFAW)| <= n
  {
    var ch := RunChained(n, acts, tFAW);
    Pigeons(During(acts, x, tFAW), ch.of, n);
  }

  // ----- the buffer -----

  function Slot(n: nat, idx: nat, age: nat): (s: nat)
    requires idx < n && age < n
    ensures s < n
  {
    if idx + age < n then idx + age else idx + age - n
  }

  function Inc(n: nat, i: nat): nat
    requires i < n
  {
    if i < n - 1 then i + 1 else 0
  }

  function Dec(n: nat, i: nat): nat
    requires i < n
  {
    if i != 0 then i - 1 else n - 1
  }

  /** The buffer from the oldest place on. */
  function Order(b: seq<nat>, idx: nat): (w: seq<nat>)
    requires idx < |b|
    ensures |w| == |b|
    ensures forall a :: 0 <= a < |b| ==> w[a] == b[Slot(|b|, idx, a)]
  {
    b[idx..] + b[..idx]
  }

  /** After `k` shifts the youngest `k` have each moved one place on, and the very youngest is in the place of the
      oldest. */
  ghost predicate Shifted(b: seq<nat>, w: seq<nat>, idx: nat, k: nat) {
    && |b| == |w| && idx < |w| && k < |w|
    && (forall a :: 1 <= a < |w| ==> b[Slot(|w|, idx, a)] == w[if a > |w| - k then a - 1 else a])
    && b[idx] == w[if k == 0 then 0 else |w| - 1]
  }

  lemma OneMore(b: seq<nat>, w: seq<nat>, idx: nat, k: nat)
    requires Shifted(b, w, idx, k) && k + 1 < |w|
    ensures var n := |w|; var cur := if k == 0 then idx else Slot(n, idx, n - k);
            && Dec(n, cur) == Slot(n, idx, n - k - 1) && b[Dec(n, cur)] == w[n - k - 1]
            && Shifted(b[cur := b[Dec(n, cur)]], w, idx, k + 1)
  {
  }

  /** Seen from the next place on, everything is one younger. */
  lemma SlotNext(n: nat, idx: nat, a: nat)
    requires idx < n && a < n
    ensures Slot(n, Inc(n, idx), a) == if a + 1 < n then Slot(n, idx, a + 1) else idx
  {
  }

  lemma StopsAt(b: seq<nat>, w: seq<nat>, idx: nat, k: nat, c: nat, cur: nat)
    requires Shifted(b, w, idx, k) && (k + 1 < |w| || |w| == 1)
    requires cur == if k == 0 then idx else Slot(|w|, idx, |w| - k)
    ensures Order(b[cur := c], Inc(|w|, idx)) == w[1..|w| - k] + [c] + w[|w| - k..]
  {
    var n := |w|;
    var l, r := Order(b[cur := c], Inc(n, idx)), w[1..n - k] + [c] + w[n - k..];
    forall a | 0 <= a < n
      ensures l[a] == r[a]
    {
      SlotNext(n, idx, a);
    }
  }

  lemma WrapsAround(b: seq<nat>, w: seq<nat>, idx: nat, c: nat, cur: nat)
    requires |w| > 1 && Shifted(b, w, idx, |w| - 1) && cur == Slot(|w|, idx, 1)
    ensures Dec(|w|, cur) == idx && b[idx] == w[|w| - 1]
    ensures Order(b[cur := w[|w| - 1]][idx := c], Inc(|w|, idx)) == [w[|w| - 1]] + w[1..|w| - 1] + [c]
  {
    var n := |w|;
    var l, r := Order(b[cur := w[n - 1]][idx := c], Inc(n, idx)), [w[n - 1]] + w[1..n - 1] + [c];
    forall a | 0 <= a < n
      ensures l[a] == r[a]
    {
      SlotNext(n, idx, a);
    }
  }

  lemma PlaceIs(w: seq<nat>, c: nat, j: nat)
    requires j < |w| && (j > 0 ==> w[j] <= c) && forall i :: j < i < |w| ==> w[i] > c
    ensures Place(w, c) == j
  {
  }

  class ActWindow {
    const buf: array<nat>
    var idx: nat
    ghost var acts: seq<nat>  // all activations so far

    ghost predicate Shape()
      reads this
    {
      idx < buf.Length
    }

    ghost function Window(): seq<nat>
      requires Shape()
      reads this, buf
    {
      Order(buf[..], idx)
    }

    ghost predicate Valid()
      reads this, buf
    {
      Shape() && Window() == WindowAfter(buf.Length, acts)
    }

    constructor (size: nat)
      requires size > 0
      ensures Valid() && fresh(buf) && buf.Length == size && acts == []
    {
      buf := new nat[size](i => 0);
      idx := 0;
      acts := [];
      new;
      assert Window() == Zeros(size);
    }

    method MinActCycle() returns (c: nat)
      requires Valid()
      ensures c == Window()[0]
    {
      c := buf[idx];
    }

    /** Records an activation that may come somewhat out of order. */
    method AddActivation(actCycle: nat)
      requires Valid() && Window()[0] <= actCycle
      modifies this, buf
      ensures Valid() && acts == old(acts) + [actCycle]
    {
      var cur := Shift(actCycle);
      buf[cur] := actCycle;
      idx := Inc(buf.Length, idx);
      acts := acts + [actCycle];
      assert acts[..|acts| - 1] == old(acts);
    }

    method Move(cur: nat) returns (cur': nat)
      requires cur < buf.Length
      modifies buf
      ensures cur' == Dec(buf.Length, cur)
      ensures buf[..] == old(buf[..])[cur := old(buf[..])[cur']]
    {
      cur' := Dec(buf.Length, cur);
      buf[cur] := buf[cur'];
    }

    /** Makes room: moves what is later than `actCycle` on by one place each, from the youngest down. */
    method Shift(actCycle: nat) returns (cur: nat)
      requires Shape() && Window()[0] <= actCycle
      modifies buf
      ensures cur < buf.Length
      ensures Order(buf[..][cur := actCycle], Inc(buf.Length, idx)) == Record(old(Window()), actCycle)
    {
      ghost var w := Window();
      ghost var k: nat := 0;
      cur := idx;
      while buf[Dec(buf.Length, cur)] > actCycle
        invariant Turn(buf[..], w, idx, k, cur, actCycle)
        decreases buf.Length - k
      {
        Later(buf[..], w, idx, k, cur, actCycle);
        cur := Move(cur);
        k := k + 1;
        if cur == idx {
          return;
        }
      }
      Settles(buf[..], w, idx, k, cur, actCycle);
    }
  }

  /** The loop has shifted `k` times, and is at place `cur`. */
  ghost predicate Turn(b: seq<nat>, w: seq<nat>, idx: nat, k: nat, cur: nat, c: nat) {
    && Shifted(b, w, idx, k) && cur == (if k == 0 then idx else Slot(|w|, idx, |w| - k))
    && w[0] <= c && (forall a :: |w| - k <= a < |w| ==> w[a] > c)
  }

  /** One turn of the loop: one more is shifted, or the loop has come round to where it began. */
  lemma Later(b: seq<nat>, w: seq<nat>, idx: nat, k: nat, cur: nat, c: nat)
    requires Turn(b, w, idx, k, cur, c) && b[Dec(|b|, cur)] > c
    ensures var n, d, b' := |w|, Dec(|b|, cur), b[cur := b[Dec(|b|, cur)]];
            if d == idx then Order(b'[d := c], Inc(n, idx)) == Record(w, c)
            else k + 1 < n && Turn(b', w, idx, k + 1, d, c)
  {
    var n := |w|;
    if k + 1 < n {
      OneMore(b, w, idx, k);
    } else {
      WrapsAround(b, w, idx, c, cur);
      PlaceIs(w, c, 0);
    }
  }

  lemma Settles(b: seq<nat>, w: seq<nat>, idx: nat, k: nat, cur: nat, c: nat)
    requires Turn(b, w, idx, k, cur, c) && b[Dec(|b|, cur)] <= c
    ensures Order(b[cur := c], Inc(|w|, idx)) == Record(w, c)
  {
    var n := |w|;
    if k + 1 < n {
      OneMore(b, w, idx, k);
    } else if n > 1 {
      WrapsAround(b, w, idx, c, cur);
    }
    StopsAt(b, w, idx, k, c, cur);
    PlaceIs(w, c, n - k - 1);
  }
}
