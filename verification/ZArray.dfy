/** The zcache tag array: a skewed array in which every way has its own hash, and whose
    insertions walk the array for a victim and then move lines along the walk path. */
module ZCache {
  import opened Arith

  type Address = nat  // 0 marks an invalid line

  /** The shape of the array; `hash` is an arbitrary family of hash functions. */
  datatype Geometry = Geometry(ways: nat, numSets: nat, cands: nat, hash: (nat, Address) -> nat)
  {
    ghost predicate Ok() {
      2 <= ways <= cands && 1 <= numSets
    }

    function NumLines(): nat {
      ways * numSets
    }

    /** The position of `a` in way `w`. */
    function Pos(w: nat, a: Address): nat
      requires 1 <= numSets
    {
      w * numSets + hash(w, a) % numSets
    }

    /** `p` is one of the positions at which a lookup of `a` looks. */
    ghost predicate IsPos(p: nat, a: Address)
      requires 1 <= numSets
    {
      exists w: nat :: w < ways && p == Pos(w, a)
    }
  }

  lemma PosBounds(g: Geometry, w: nat, a: Address)
    requires g.Ok() && w < g.ways
    ensures g.Pos(w, a) < g.NumLines()
  {
    MulRoom(w, g.ways, g.numSets);
  }

  lemma PosInjective(g: Geometry, w: nat, v: nat, a: Address)
    requires g.Ok() && g.Pos(w, a) == g.Pos(v, a)
    ensures w == v
  {
    if w < v {
      MulRoom(w, v, g.numSets);
    } else if v < w {
      MulRoom(v, w, g.numSets);
    }
  }

  // ----- the state: positions to line ids, line ids to addresses -----

  /** `look` maps positions to line ids, and `inv` is its inverse. */
  ghost predicate Perm(look: seq<nat>, inv: seq<nat>) {
    && |look| == |inv|
    && (forall p :: 0 <= p < |look| ==> look[p] < |look| && inv[look[p]] == p)
    && (forall i :: 0 <= i < |inv| ==> inv[i] < |look| && look[inv[i]] == i)
  }

  /** Like Perm, while the line `cand` is nowhere and position `hole` holds nothing of value. */
  ghost predicate HolePerm(look: seq<nat>, inv: seq<nat>, hole: nat, cand: nat) {
    && |look| == |inv| && hole < |look| && cand < |look|
    && (forall p :: 0 <= p < |look| ==> look[p] < |look|)
    && (forall i :: 0 <= i < |inv| ==> inv[i] < |look|)
    && (forall p :: 0 <= p < |look| && p != hole ==> look[p] != cand && inv[look[p]] == p)
    && (forall i :: 0 <= i < |inv| && i != cand ==> inv[i] != hole && look[inv[i]] == i)
  }

  /** Every valid line other than `except` sits at a hash position of its address. */
  ghost predicate PlacedExcept(g: Geometry, inv: seq<nat>, addrs: seq<Address>, except: int)
    requires 1 <= g.numSets
  {
    |inv| == |addrs| &&
    forall i :: 0 <= i < |inv| && i != except && addrs[i] != 0 ==> g.IsPos(inv[i], addrs[i])
  }

  ghost predicate Unique(addrs: seq<Address>) {
    forall i, j :: 0 <= i < |addrs| && 0 <= j < |addrs| && addrs[i] == addrs[j] != 0 ==> i == j
  }

  ghost predicate Consistent(g: Geometry, look: seq<nat>, inv: seq<nat>, addrs: seq<Address>) {
    && g.Ok() && |look| == |addrs| == g.NumLines()
    && Perm(look, inv) && PlacedExcept(g, inv, addrs, -1) && Unique(addrs)
  }

  /** The map from addresses to line ids that the array implements. */
  ghost function Resident(addrs: seq<Address>): map<Address, nat>
    requires Unique(addrs)
  {
    map i: nat | i < |addrs| && addrs[i] != 0 :: addrs[i] := i
  }

  // ----- the walk -----

  datatype ZWalkInfo = ZWalkInfo(pos: nat, lineId: nat, parentIdx: int)

  /** The positions, way by way below `w`, to which line `id` could move. */
  ghost function Moves(g: Geometry, look: seq<nat>, addrs: seq<Address>, id: nat, w: nat): (s: seq<nat>)
    requires g.Ok() && |look| == |addrs| == g.NumLines() && id < |addrs| && w <= g.ways
    ensures |s| <= w
  {
    if w == 0 then []
    else
      var p := g.Pos(w - 1, addrs[id]);
      PosBounds(g, w - 1, addrs[id]);
      var s := Moves(g, look, addrs, id, w - 1);
      if look[p] == id then s else s + [p]
  }

  lemma {:induction false} MovesArePositions(g: Geometry, look: seq<nat>, addrs: seq<Address>, id: nat, w: nat)
    requires g.Ok() && |look| == |addrs| == g.NumLines() && id < |addrs| && w <= g.ways
    ensures forall p :: p in Moves(g, look, addrs, id, w) ==> p < |look| && g.IsPos(p, addrs[id])
  {
    if w > 0 {
      PosBounds(g, w - 1, addrs[id]);
      MovesArePositions(g, look, addrs, id, w - 1);
    }
  }

  /** A line revisits itself in exactly one way: the way `home` in which it sits. */
  lemma {:induction false} MovesCount(g: Geometry, look: seq<nat>, inv: seq<nat>, addrs: seq<Address>,
                                      id: nat, home: nat, w: nat)
    requires Consistent(g, look, inv, addrs) && id < |addrs| && w <= g.ways
    requires home < g.ways && inv[id] == g.Pos(home, addrs[id])
    ensures |Moves(g, look, addrs, id, w)| == if home < w then w - 1 else w
  {
    if w > 0 {
      MovesCount(g, look, inv, addrs, id, home, w - 1);
      var p := g.Pos(w - 1, addrs[id]);
      PosBounds(g, w - 1, addrs[id]);
      if look[p] == id {
        PosInjective(g, w - 1, home, addrs[id]);
      }
    }
  }

  /** The index of the first candidate that the expansion of candidate `k` adds. */
  ghost function First(g: Geometry, k: nat): nat
    requires g.Ok()
  {
    g.ways + k * (g.ways - 1)
  }

  lemma FirstStep(g: Geometry, k: nat)
    requires g.Ok()
    ensures First(g, k + 1) == First(g, k) + g.ways - 1
    ensures k + g.ways <= First(g, k)
  {
    MulStep(k, g.ways - 1);
    if k > 0 { MulMono(1, g.ways - 1, k); }
  }

  lemma FirstMonotone(g: Geometry, i: nat, k: nat)
    requires g.Ok() && i < k
    ensures First(g, i) + g.ways - 1 <= First(g, k)
  {
    MulRoom(i, k, g.ways - 1);
  }

  /** The part of an entry that every walk entry satisfies. */
  ghost predicate EntryOk(g: Geometry, look: seq<nat>, addrs: seq<Address>, newAddr: Address,
                          c: seq<ZWalkInfo>, f: nat, i: nat)
    requires g.Ok() && |look| == |addrs| == g.NumLines() && i < |c|
  {
    && c[i].pos < |look| && c[i].lineId == look[c[i].pos] < |addrs|
    && if i < g.ways then
         c[i].parentIdx == -1 && c[i].pos == g.Pos(i, newAddr)
       else
         var k := c[i].parentIdx;
         && 0 <= k < f && k < i - g.ways + 1 && c[k].lineId < |addrs| && addrs[c[k].lineId] != 0
         && First(g, k) <= i < First(g, k) + g.ways - 1
         && var kids := Moves(g, look, addrs, c[k].lineId, g.ways);
            && |kids| == g.ways - 1
            && c[i].pos == kids[i - First(g, k)]
  }

  /** `c` is the breadth-first walk for `newAddr` after expanding its first `f` entries. */
  ghost predicate Walk(g: Geometry, look: seq<nat>, addrs: seq<Address>, newAddr: Address, c: seq<ZWalkInfo>, f: nat)
    requires g.Ok() && |look| == |addrs| == g.NumLines()
  {
    && g.ways <= |c|
    && (forall i: nat :: i < |c| ==> EntryOk(g, look, addrs, newAddr, c, f, i))
    && (forall k: nat, i: nat {:trigger First(g, k), c[i]} ::
          k < f && First(g, k) <= i < First(g, k) + g.ways - 1 && i < |c| ==>
          c[i].parentIdx == k)
  }

  /** No earlier entry of the walk holds the same line. */
  ghost predicate FirstVisit(c: seq<ZWalkInfo>, x: nat)
    requires x < |c|
  {
    forall y :: 0 <= y < x ==> c[y].lineId != c[x].lineId
  }

  /** If entries `i` and `k` hold the same line and `i` comes first, every child of `k` is preceded by the
      same child of `i`, which was expanded first. */
  lemma EarlierTwin(g: Geometry, look: seq<nat>, addrs: seq<Address>, newAddr: Address,
                    c: seq<ZWalkInfo>, f: nat, x: nat, i: nat) returns (y: nat)
    requires g.Ok() && |look| == |addrs| == g.NumLines()
    requires Walk(g, look, addrs, newAddr, c, f)
    requires x < |c| && i < c[x].parentIdx < |c| && c[i].lineId == c[c[x].parentIdx].lineId
    ensures y < x && c[y].lineId == c[x].lineId
  {
    assert EntryOk(g, look, addrs, newAddr, c, f, x);
    var k := c[x].parentIdx;
    FirstMonotone(g, i, k);
    y := First(g, i) + (x - First(g, k));
    assert c[y].parentIdx == i;
    assert EntryOk(g, look, addrs, newAddr, c, f, y);
  }

  /** The heart of the walk: if an entry is the first visit of its line, so is its parent. */
  lemma ParentFirstVisit(g: Geometry, look: seq<nat>, addrs: seq<Address>, newAddr: Address,
                         c: seq<ZWalkInfo>, f: nat, x: nat)
    requires g.Ok() && |look| == |addrs| == g.NumLines()
    requires Walk(g, look, addrs, newAddr, c, f)
    requires x < |c| && c[x].parentIdx >= 0 && FirstVisit(c, x)
    ensures c[x].parentIdx < x && FirstVisit(c, c[x].parentIdx)
  {
    assert EntryOk(g, look, addrs, newAddr, c, f, x);
    var k := c[x].parentIdx;
    forall i | 0 <= i < k ensures c[i].lineId != c[k].lineId {
      if c[i].lineId == c[k].lineId {
        var y := EarlierTwin(g, look, addrs, newAddr, c, f, x, i);
      }
    }
  }

  /** The chain of positions from entry `x` up to its seed. */
  ghost function Chain(c: seq<ZWalkInfo>, x: int): (s: seq<nat>)
    requires x < |c| && forall i: nat :: i < |c| ==> c[i].parentIdx < i
    decreases if x < 0 then 0 else x + 1
  {
    if x < 0 then [] else [c[x].pos] + Chain(c, c[x].parentIdx)
  }

  /** There is a valid line at position `q`, and `p` is one of its hash positions. */
  ghost predicate MayMove(g: Geometry, look: seq<nat>, addrs: seq<Address>, p: nat, q: nat)
    requires g.Ok()
  {
    q < |look| && look[q] < |addrs| && addrs[look[q]] != 0 && g.IsPos(p, addrs[look[q]])
  }

  /** What an insertion needs of the positions `s` it moves lines along: each line moves to one of its own
      hash positions, the last position becomes free for the new line, and no position occurs twice. */
  ghost predicate SwapPath(g: Geometry, look: seq<nat>, addrs: seq<Address>, newAddr: Address, s: seq<nat>)
    requires g.Ok() && |look| == |addrs| == g.NumLines()
  {
    && |s| > 0
    && (forall i :: 0 <= i < |s| ==> s[i] < |look| && look[s[i]] < |addrs|)
    && (forall i, j :: 0 <= i < j < |s| ==> s[i] != s[j])
    && (forall i, j :: 0 <= i < |s| - 1 && j == i + 1 ==> MayMove(g, look, addrs, s[i], s[j]))
    && g.IsPos(s[|s| - 1], newAddr)
  }

  lemma WalkParents(g: Geometry, look: seq<nat>, addrs: seq<Address>, newAddr: Address, c: seq<ZWalkInfo>, f: nat)
    requires g.Ok() && |look| == |addrs| == g.NumLines() && Walk(g, look, addrs, newAddr, c, f)
    ensures forall i: nat :: i < |c| ==> c[i].parentIdx < i
  {
    forall i: nat | i < |c| ensures c[i].parentIdx < i {
      assert EntryOk(g, look, addrs, newAddr, c, f, i);
    }
  }

  lemma {:induction false} ChainEntries(c: seq<ZWalkInfo>, x: nat)
    requires x < |c| && forall i: nat :: i < |c| ==> c[i].parentIdx < i
    ensures |Chain(c, x)| > 0 && Chain(c, x)[0] == c[x].pos
    ensures forall p :: p in Chain(c, x) ==> exists i :: 0 <= i <= x && c[i].pos == p
  {
    if c[x].parentIdx >= 0 {
      ChainEntries(c, c[x].parentIdx);
    }
  }

  /** A chain that starts at entry `x` has at most x / ways + 1 positions. */
  lemma {:induction false} ChainLength(g: Geometry, look: seq<nat>, addrs: seq<Address>,
                                       newAddr: Address, c: seq<ZWalkInfo>, f: nat, x: nat)
    requires g.Ok() && |look| == |addrs| == g.NumLines()
    requires Walk(g, look, addrs, newAddr, c, f)
    requires x < |c| && forall i: nat :: i < |c| ==> c[i].parentIdx < i
    ensures 0 < |Chain(c, x)| <= x / g.ways + 1
  {
    assert EntryOk(g, look, addrs, newAddr, c, f, x);
    var k := c[x].parentIdx;
    if k >= 0 {
      ChainLength(g, look, addrs, newAddr, c, f, k);
      DivBound(|Chain(c, k)| - 1, k, g.ways);
      MulStep(|Chain(c, k)| - 1, g.ways);
      DivBound(|Chain(c, x)| - 1, x, g.ways);
    } else {
      DivBound(0, x, g.ways);
    }
  }

  /** A child's position is a hash position of its parent's line. */
  lemma ChildPosition(g: Geometry, look: seq<nat>, addrs: seq<Address>, newAddr: Address,
                      c: seq<ZWalkInfo>, f: nat, x: nat)
    requires g.Ok() && |look| == |addrs| == g.NumLines()
    requires Walk(g, look, addrs, newAddr, c, f)
    requires x < |c| && 0 <= c[x].parentIdx < |c|
    ensures var id := c[c[x].parentIdx].lineId;
            id < |addrs| && addrs[id] != 0 && g.IsPos(c[x].pos, addrs[id])
  {
    assert EntryOk(g, look, addrs, newAddr, c, f, x);
    MovesArePositions(g, look, addrs, c[c[x].parentIdx].lineId, g.ways);
  }

  /** A first visit sits at a position that no earlier entry names. */
  lemma FirstVisitPosition(g: Geometry, look: seq<nat>, addrs: seq<Address>, newAddr: Address,
                           c: seq<ZWalkInfo>, f: nat, x: nat, i: nat)
    requires g.Ok() && |look| == |addrs| == g.NumLines()
    requires Walk(g, look, addrs, newAddr, c, f)
    requires i < x < |c| && FirstVisit(c, x)
    ensures c[i].pos != c[x].pos
  {
    assert EntryOk(g, look, addrs, newAddr, c, f, x);
    assert EntryOk(g, look, addrs, newAddr, c, f, i);
  }

  /** The chain from a first visit is a swap path: it never returns to a position. */
  lemma {:induction false} ChainIsSwapPath(g: Geometry, look: seq<nat>, addrs: seq<Address>,
                                           newAddr: Address, c: seq<ZWalkInfo>, f: nat, x: nat)
    requires g.Ok() && |look| == |addrs| == g.NumLines()
    requires Walk(g, look, addrs, newAddr, c, f)
    requires x < |c| && FirstVisit(c, x)
    requires forall i: nat :: i < |c| ==> c[i].parentIdx < i
    ensures SwapPath(g, look, addrs, newAddr, Chain(c, x))
  {
    var k := c[x].parentIdx;
    if k < 0 {
      SeedPath(g, look, addrs, newAddr, c, f, x);
    } else {
      ParentFirstVisit(g, look, addrs, newAddr, c, f, x);
      ChainIsSwapPath(g, look, addrs, newAddr, c, f, k);
      ChainEntries(c, k);
      ChildPosition(g, look, addrs, newAddr, c, f, x);
      forall i: nat | i <= k ensures c[i].pos != c[x].pos {
        FirstVisitPosition(g, look, addrs, newAddr, c, f, x, i);
      }
      assert EntryOk(g, look, addrs, newAddr, c, f, k);
      assert EntryOk(g, look, addrs, newAddr, c, f, x);
      PrependToPath(g, look, addrs, newAddr, c[x].pos, Chain(c, k));
    }
  }

  lemma SeedPath(g: Geometry, look: seq<nat>, addrs: seq<Address>, newAddr: Address,
                 c: seq<ZWalkInfo>, f: nat, x: nat)
    requires g.Ok() && |look| == |addrs| == g.NumLines()
    requires Walk(g, look, addrs, newAddr, c, f)
    requires x < |c| && c[x].parentIdx < 0
    requires forall i: nat :: i < |c| ==> c[i].parentIdx < i
    ensures SwapPath(g, look, addrs, newAddr, Chain(c, x))
  {
    assert EntryOk(g, look, addrs, newAddr, c, f, x);
    assert Chain(c, x) == [c[x].pos];
    assert g.IsPos(c[x].pos, newAddr);
  }

  lemma PrependToPath(g: Geometry, look: seq<nat>, addrs: seq<Address>, newAddr: Address, p: nat, t: seq<nat>)
    requires g.Ok() && |look| == |addrs| == g.NumLines()
    requires SwapPath(g, look, addrs, newAddr, t)
    requires p < |look| && look[p] < |addrs| && p !in t
    requires addrs[look[t[0]]] != 0 && g.IsPos(p, addrs[look[t[0]]])
    ensures SwapPath(g, look, addrs, newAddr, [p] + t)
  {
    var s := [p] + t;
    forall i, j | 0 <= i < |s| - 1 && j == i + 1
      ensures MayMove(g, look, addrs, s[i], s[j])
    {
      if i == 0 {
        assert s[j] == t[0];
      } else {
        assert s[i] == t[i - 1] && s[j] == t[j - 1];
      }
    }
  }

  /** Expanding entry `f` of a walk gives a walk with one more expanded entry. */
  lemma WalkExpand(g: Geometry, look: seq<nat>, addrs: seq<Address>, newAddr: Address,
                   c: seq<ZWalkInfo>, f: nat, d: seq<ZWalkInfo>)
    requires g.Ok() && |look| == |addrs| == g.NumLines()
    requires Walk(g, look, addrs, newAddr, c, f) && |c| == First(g, f)
    requires f < |c| && c[f].lineId < |addrs| && addrs[c[f].lineId] != 0
    requires Kids(g, look, addrs, c[f].lineId, f, g.ways, d) && |d| == g.ways - 1
    ensures Walk(g, look, addrs, newAddr, c + d, f + 1)
    ensures |c + d| == First(g, f + 1)
  {
    FirstStep(g, f);
    var e, f' := c + d, f + 1;
    forall i: nat | i < |e|
      ensures EntryOk(g, look, addrs, newAddr, e, f', i)
    {
      assert i < |c| ==> EntryOk(g, look, addrs, newAddr, c, f, i);
      assert i >= |c| ==> e[i] == d[i - |c|];
    }
    forall k: nat, i: nat | k < f' && First(g, k) <= i < First(g, k) + g.ways - 1 && i < |e|
      ensures e[i].parentIdx == k
    {
      if k < f {
        FirstMonotone(g, k, f);
        assert e[i] == c[i];
      }
    }
  }

  lemma WalkPrefix(g: Geometry, look: seq<nat>, addrs: seq<Address>, newAddr: Address,
                   c: seq<ZWalkInfo>, f: nat, n: nat)
    requires g.Ok() && |look| == |addrs| == g.NumLines()
    requires Walk(g, look, addrs, newAddr, c, f) && g.ways <= n <= |c|
    ensures Walk(g, look, addrs, newAddr, c[..n], f)
  {
    forall i: nat | i < n ensures EntryOk(g, look, addrs, newAddr, c[..n], f, i) {
      assert EntryOk(g, look, addrs, newAddr, c, f, i);
    }
  }

  ghost predicate AllValid(addrs: seq<Address>, c: seq<ZWalkInfo>) {
    forall i :: 0 <= i < |c| ==> c[i].lineId < |addrs| && addrs[c[i].lineId] != 0
  }

  lemma AllValidConcat(addrs: seq<Address>, c: seq<ZWalkInfo>, d: seq<ZWalkInfo>)
    requires AllValid(addrs, c)
    ensures AllValid(addrs, c + d) <==> AllValid(addrs, d)
  {
    assert forall j :: 0 <= j < |d| ==> (c + d)[|c| + j] == d[j];
  }

  lemma AllValidSnoc(addrs: seq<Address>, d: seq<ZWalkInfo>, e: ZWalkInfo)
    requires e.lineId < |addrs|
    ensures AllValid(addrs, d + [e]) <==> AllValid(addrs, d) && addrs[e.lineId] != 0
  {
    assert (d + [e])[|d|] == e;
    assert forall i :: 0 <= i < |d| ==> (d + [e])[i] == d[i];
  }

  /** `d` lists the moves of line `id` in the ways below `w`, as children of entry `f`. */
  ghost predicate Kids(g: Geometry, look: seq<nat>, addrs: seq<Address>, id: nat, f: nat, w: nat, d: seq<ZWalkInfo>)
    requires g.Ok() && |look| == |addrs| == g.NumLines() && id < |addrs| && w <= g.ways
  {
    var kids := Moves(g, look, addrs, id, w);
    |kids| == |d| &&
    forall j :: 0 <= j < |d| ==>
      kids[j] < |look| && d[j] == ZWalkInfo(kids[j], look[kids[j]], f) && d[j].lineId < |addrs|
  }

  /** The entries of `d` extended by way `w`. */
  ghost function NextKids(g: Geometry, look: seq<nat>, addrs: seq<Address>, id: nat, f: nat, w: nat,
                          d: seq<ZWalkInfo>): seq<ZWalkInfo>
    requires g.Ok() && id < |addrs| && g.Pos(w, addrs[id]) < |look|
  {
    var p := g.Pos(w, addrs[id]);
    if look[p] == id then d else d + [ZWalkInfo(p, look[p], f)]
  }

  lemma KidsStep(g: Geometry, look: seq<nat>, inv: seq<nat>, addrs: seq<Address>, id: nat, home: nat, f: nat, w: nat,
                 d: seq<ZWalkInfo>)
    requires Consistent(g, look, inv, addrs) && id < |addrs| && w < g.ways
    requires home < g.ways && inv[id] == g.Pos(home, addrs[id])
    requires Kids(g, look, addrs, id, f, w, d)
    ensures g.Pos(w, addrs[id]) < |look| && look[g.Pos(w, addrs[id])] < |addrs|
    ensures Kids(g, look, addrs, id, f, w + 1, NextKids(g, look, addrs, id, f, w, d))
    ensures |NextKids(g, look, addrs, id, f, w, d)| == if home < w + 1 then w else w + 1
  {
    PosBounds(g, w, addrs[id]);
    MovesCount(g, look, inv, addrs, id, home, w + 1);
  }

  lemma Extended(c: seq<ZWalkInfo>, d: seq<ZWalkInfo>, e: seq<ZWalkInfo>)
    requires d <= e
    ensures (c + d) + e[|d|..] == c + e
  {
  }

  lemma WalkLines(g: Geometry, look: seq<nat>, addrs: seq<Address>, newAddr: Address, c: seq<ZWalkInfo>, f: nat)
    requires g.Ok() && |look| == |addrs| == g.NumLines() && Walk(g, look, addrs, newAddr, c, f)
    ensures forall i :: 0 <= i < |c| ==> c[i].pos < |look| && c[i].lineId == look[c[i].pos] < |addrs|
  {
    forall i: nat | i < |c|
      ensures c[i].pos < |look| && c[i].lineId == look[c[i].pos] < |addrs|
    {
      assert EntryOk(g, look, addrs, newAddr, c, f, i);
    }
  }

  // ----- the rotation -----

  /** Moving the line at `next` into the hole keeps every other line in place and moves the hole to `next`. */
  lemma FillHole(g: Geometry, look: seq<nat>, inv: seq<nat>, addrs: seq<Address>, hole: nat, next: nat, cand: nat)
    requires g.Ok() && HolePerm(look, inv, hole, cand) && PlacedExcept(g, inv, addrs, cand)
    requires next < |look| && next != hole
    requires g.IsPos(hole, addrs[look[next]])
    ensures var id := look[next];
            && HolePerm(look[hole := id], inv[id := hole], next, cand)
            && PlacedExcept(g, inv[id := hole], addrs, cand)
  {
  }

  lemma ResidentDomain(addrs: seq<Address>)
    requires Unique(addrs)
    ensures forall i :: 0 <= i < |addrs| && addrs[i] != 0 ==> addrs[i] in Resident(addrs)
  {
  }

  /** Putting `cand` into the hole, with a new address that has a hash position there, restores consistency. */
  lemma CloseHole(g: Geometry, look: seq<nat>, inv: seq<nat>, addrs: seq<Address>, hole: nat, cand: nat, a: Address)
    requires g.Ok() && |look| == |addrs| == g.NumLines() && HolePerm(look, inv, hole, cand)
    requires PlacedExcept(g, inv, addrs, cand) && Unique(addrs)
    requires a != 0 && a !in Resident(addrs) && g.IsPos(hole, a)
    ensures Consistent(g, look[hole := cand], inv[cand := hole], addrs[cand := a])
  {
    ResidentDomain(addrs);
  }

  /** Overwriting a line's address replaces its old address by the new one in the map, and nothing else. */
  lemma ResidentUpdate(addrs: seq<Address>, cand: nat, a: Address)
    requires Unique(addrs) && cand < |addrs| && a != 0 && a !in Resident(addrs)
    ensures Unique(addrs[cand := a])
    ensures Resident(addrs[cand := a]) == (Resident(addrs) - {addrs[cand]})[a := cand]
  {
    ResidentDomain(addrs);
    var m, n := Resident(addrs[cand := a]), (Resident(addrs) - {addrs[cand]})[a := cand];
    forall x | x in n ensures x in m && m[x] == n[x] {
      assert addrs[cand := a][n[x]] == x;
    }
    forall x | x in m ensures x in n {
      assert addrs[cand := a][m[x]] == x;
    }
  }

  /** The array itself. */
  class ZArray {
    const geo: Geometry
    const addrs: array<Address>       // line id to address
    const lookupArray: array<nat>     // position to line id
    const swapArray: array<nat>       // positions of the pending insertion
    var swapArrayLen: nat
    var lastCandIdx: nat
    ghost var posOf: seq<nat>         // line id to position

    ghost predicate Valid()
      reads this, addrs, lookupArray
    {
      && addrs != lookupArray && lookupArray != swapArray && addrs != swapArray
      && Consistent(geo, lookupArray[..], posOf, addrs[..])
      && swapArray.Length == geo.cands / geo.ways + 2
    }

    ghost function Contents(): map<Address, nat>
      requires Valid()
      reads this, addrs, lookupArray
    {
      Resident(addrs[..])
    }

    /** swapArray holds the moves that make room for `a` by evicting line `id`. */
    ghost predicate Planned(a: Address, id: nat)
      requires Valid()
      reads this, addrs, lookupArray, swapArray
    {
      && 0 < swapArrayLen <= swapArray.Length
      && SwapPath(geo, lookupArray[..], addrs[..], a, swapArray[..swapArrayLen])
      && id == lookupArray[swapArray[0]]
    }

    constructor (g: Geometry)
      requires g.Ok()
      ensures Valid() && fresh(addrs) && fresh(lookupArray) && fresh(swapArray)
      ensures geo == g && Contents() == map[] && lookupArray[..] == seq(g.NumLines(), i => i)
    {
      geo := g;
      addrs := new Address[g.NumLines()](i => 0);
      lookupArray := new nat[g.NumLines()](i => i);
      swapArray := new nat[g.cands / g.ways + 2](i => 0);
      swapArrayLen, lastCandIdx := 0, 0;
      posOf := seq(g.NumLines(), i => i);
    }

    /** A lookup is a lookup in the map; -1 stands for a miss. Address 0 makes the simulator panic. */
    method Lookup(a: Address) returns (id: int)
      requires Valid() && a != 0
      ensures a in Contents() ==> id == Contents()[a]
      ensures a !in Contents() ==> id == -1
    {
      var w := 0;
      while w < geo.ways
        invariant 0 <= w <= geo.ways
        invariant forall v: nat :: v < w ==>
                    geo.Pos(v, a) < lookupArray.Length && addrs[lookupArray[geo.Pos(v, a)]] != a
      {
        PosBounds(geo, w, a);
        id := lookupArray[geo.Pos(w, a)];
        if addrs[id] == a {
          assert addrs[..][id] == a;
          return;
        }
        w := w + 1;
      }
      id := -1;
      if a in Contents() {
        var i := Contents()[a];
        assert addrs[..][i] == a && lookupArray[..][posOf[i]] == i;
        var v: nat :| v < geo.ways && posOf[i] == geo.Pos(v, a);
        assert false;
      }
    }

    /** Finds a line to replace and records the moves that make room for `a`. Any line of the walk may be
        chosen: the choice stands for the replacement policy. */
    method Preinsert(a: Address) returns (id: nat, wbLineAddr: Address)
      requires Valid() && a != 0
      modifies this`swapArrayLen, this`lastCandIdx, swapArray
      ensures Valid() && Contents() == old(Contents())
      ensures Planned(a, id) && id < addrs.Length && wbLineAddr == addrs[id]
      ensures lastCandIdx < geo.cands && swapArrayLen <= lastCandIdx / geo.ways + 1
    {
      var candidates := new ZWalkInfo[geo.cands + geo.ways](i => ZWalkInfo(0, 0, -1));
      var numCandidates, expanded := WalkArray(a, candidates);
      ghost var c := candidates[..numCandidates];
      WalkParents(geo, lookupArray[..], addrs[..], a, c, expanded);
      WalkLines(geo, lookupArray[..], addrs[..], a, c, expanded);

      var minIdx;
      id, minIdx := ChooseVictim(candidates, numCandidates);
      lastCandIdx := minIdx;
      ChainIsSwapPath(geo, lookupArray[..], addrs[..], a, c, expanded, minIdx);
      ChainLength(geo, lookupArray[..], addrs[..], a, c, expanded, minIdx);
      ChainEntries(c, minIdx);
      FillSwapArray(candidates, numCandidates, minIdx);
      wbLineAddr := addrs[id];
    }

    /** Any candidate's line may be chosen; its first occurrence is where the moves start. */
    method ChooseVictim(candidates: array<ZWalkInfo>, n: nat) returns (id: nat, minIdx: nat)
      requires 0 < n <= candidates.Length
      ensures minIdx < n && candidates[minIdx].lineId == id
      ensures FirstVisit(candidates[..n], minIdx)
    {
      var choice: nat :| choice < n;
      id := candidates[choice].lineId;
      minIdx := 0;
      while candidates[minIdx].lineId != id
        invariant minIdx <= choice
        invariant forall y :: 0 <= y < minIdx ==> candidates[y].lineId != id
        decreases choice - minIdx
      {
        minIdx := minIdx + 1;
      }
    }

    /** The breadth-first walk. It ends with at most `cands` entries, and with exactly `cands` of them unless
        an invalid line was met. */
    method WalkArray(a: Address, candidates: array<ZWalkInfo>) returns (numCandidates: nat, ghost expanded: nat)
      requires Valid() && candidates.Length == geo.cands + geo.ways
      modifies candidates
      ensures geo.ways <= numCandidates <= geo.cands
      ensures Walk(geo, lookupArray[..], addrs[..], a, candidates[..numCandidates], expanded)
      ensures numCandidates < geo.cands ==> !AllValid(addrs[..], candidates[..numCandidates])
    {
      var allValid := Seeds(a, candidates);
      var fringeStart := 0;
      numCandidates := geo.ways;
      while numCandidates < geo.cands && allValid
        invariant numCandidates < geo.cands + geo.ways
        invariant numCandidates == First(geo, fringeStart)
        invariant Walk(geo, lookupArray[..], addrs[..], a, candidates[..numCandidates], fringeStart)
        invariant allValid <==> AllValid(addrs[..], candidates[..numCandidates])
        decreases geo.cands + geo.ways - numCandidates
      {
        numCandidates, allValid := Expand(a, candidates, fringeStart, numCandidates);
        fringeStart := fringeStart + 1;
      }
      expanded := fringeStart;
      if numCandidates > geo.cands {
        WalkPrefix(geo, lookupArray[..], addrs[..], a, candidates[..numCandidates], fringeStart, geo.cands);
        assert candidates[..numCandidates][..geo.cands] == candidates[..geo.cands];
        numCandidates := geo.cands;
      }
    }

    method Seeds(a: Address, candidates: array<ZWalkInfo>) returns (allValid: bool)
      requires Valid() && candidates.Length == geo.cands + geo.ways
      modifies candidates
      ensures Walk(geo, lookupArray[..], addrs[..], a, candidates[..geo.ways], 0)
      ensures allValid <==> AllValid(addrs[..], candidates[..geo.ways])
    {
      allValid := true;
      var w := 0;
      while w < geo.ways
        invariant w <= geo.ways
        invariant forall i: nat :: i < w ==> geo.Pos(i, a) < lookupArray.Length
        invariant forall i: nat :: i < w ==> candidates[i] == ZWalkInfo(geo.Pos(i, a), lookupArray[geo.Pos(i, a)], -1)
        invariant allValid <==> forall i :: 0 <= i < w ==> addrs[candidates[i].lineId] != 0
      {
        PosBounds(geo, w, a);
        var pos := geo.Pos(w, a);
        var lineId := lookupArray[pos];
        candidates[w] := ZWalkInfo(pos, lineId, -1);
        allValid := allValid && addrs[lineId] != 0;
        w := w + 1;
      }
    }

    /** One turn of the walk: adds the places to which the line of entry `f` could move. */
    method Expand(ghost a: Address, candidates: array<ZWalkInfo>, f: nat, n: nat) returns (m: nat, allValid: bool)
      requires Valid() && candidates.Length == geo.cands + geo.ways
      requires n == First(geo, f) && n < geo.cands
      requires Walk(geo, lookupArray[..], addrs[..], a, candidates[..n], f)
      requires AllValid(addrs[..], candidates[..n])
      modifies candidates
      ensures m == n + geo.ways - 1 && m == First(geo, f + 1)
      ensures Walk(geo, lookupArray[..], addrs[..], a, candidates[..m], f + 1)
      ensures allValid <==> AllValid(addrs[..], candidates[..m])
    {
      ghost var c := candidates[..n];
      FirstStep(geo, f);
      assert c[f] == candidates[f];
      ghost var d;
      ghost var look, adr := lookupArray[..], addrs[..];
      assert adr[candidates[f].lineId] != 0;
      m, allValid, d := ExpandLine(candidates, f, n, candidates[f].lineId);
      assert lookupArray[..] == look && addrs[..] == adr;
      WalkExpand(geo, look, adr, a, c, f, d);
      AllValidConcat(adr, c, d);
    }

    /** Entries that lead back to the line itself are written and then overwritten, which leaves ways - 1. */
    method ExpandLine(candidates: array<ZWalkInfo>, f: nat, n: nat, fringeId: nat)
      returns (m: nat, allValid: bool, ghost d: seq<ZWalkInfo>)
      requires Valid() && candidates.Length == geo.cands + geo.ways
      requires n < geo.cands && fringeId < addrs.Length && addrs[fringeId] != 0
      modifies candidates
      ensures m == n + geo.ways - 1 && m <= candidates.Length && candidates[..m] == old(candidates[..n]) + d
      ensures Kids(geo, lookupArray[..], addrs[..], fringeId, f, geo.ways, d)
      ensures allValid <==> AllValid(addrs[..], d)
    {
      ghost var look, adr, c := lookupArray[..], addrs[..], candidates[..n];
      ghost var home: nat :| home < geo.ways && posOf[fringeId] == geo.Pos(home, adr[fringeId]);
      m, allValid, d := n, true, [];
      var w := 0;
      while w < geo.ways
        invariant w <= geo.ways && |d| == (if home < w then w - 1 else w) && m == n + |d|
        invariant lookupArray[..] == look && addrs[..] == adr && candidates[..m] == c + d
        invariant Kids(geo, look, adr, fringeId, f, w, d)
        invariant allValid <==> AllValid(adr, d)
      {
        KidsStep(geo, look, posOf, adr, fringeId, home, f, w, d);
        ghost var before := d;
        d, m, allValid := TryWay(candidates, m, f, fringeId, w, d, allValid);
        Extended(c, before, d);
        w := w + 1;
      }
    }

    /** Writes the entry for way `w` at `n`, and keeps it unless it leads back to the line itself. */
    method TryWay(candidates: array<ZWalkInfo>, n: nat, f: nat, fringeId: nat, w: nat, ghost d: seq<ZWalkInfo>,
                  valid: bool)
      returns (ghost d': seq<ZWalkInfo>, m: nat, valid': bool)
      requires geo.Ok() && n < candidates.Length && fringeId < addrs.Length && addrs[fringeId] != 0
      requires geo.Pos(w, addrs[fringeId]) < lookupArray.Length
      requires lookupArray[geo.Pos(w, addrs[fringeId])] < addrs.Length
      requires valid <==> AllValid(addrs[..], d)
      modifies candidates
      ensures d' == NextKids(geo, lookupArray[..], addrs[..], fringeId, f, w, d)
      ensures d <= d' && m == n + (|d'| - |d|) <= candidates.Length
      ensures candidates[..m] == old(candidates[..n]) + d'[|d|..]
      ensures valid' <==> AllValid(addrs[..], d')
    {
      var pos := geo.Pos(w, addrs[fringeId]);
      var lineId := lookupArray[pos];
      candidates[n] := ZWalkInfo(pos, lineId, f);
      valid' := valid && addrs[lineId] != 0;
      d' := NextKids(geo, lookupArray[..], addrs[..], fringeId, f, w, d);
      if lineId != fringeId {
        m := n + 1;
        AllValidSnoc(addrs[..], d, candidates[n]);
      } else {
        m := n;
      }
    }

    /** Copies the chain of entry `x` into swapArray. */
    method FillSwapArray(candidates: array<ZWalkInfo>, n: nat, x: nat)
      requires geo.ways > 0 && swapArray.Length == geo.cands / geo.ways + 2
      requires x < n <= candidates.Length && x < geo.cands
      requires forall i: nat :: i < n ==> candidates[..n][i].parentIdx < i
      requires |Chain(candidates[..n], x)| <= x / geo.ways + 1
      modifies swapArray, this`swapArrayLen
      ensures swapArrayLen <= swapArray.Length && swapArray[..swapArrayLen] == Chain(candidates[..n], x)
    {
      ghost var c := candidates[..n];
      DivMono(x, geo.cands, geo.ways);
      var idx: int := x;
      var swapIdx := 0;
      while idx >= 0
        invariant idx < n && swapIdx <= |Chain(c, x)|
        invariant Chain(c, x) == swapArray[..swapIdx] + Chain(c, idx)
        decreases idx
      {
        assert |Chain(c, idx)| > 0;
        swapArray[swapIdx] := candidates[idx].pos;
        swapIdx := swapIdx + 1;
        assert swapArray[..swapIdx] == swapArray[..swapIdx - 1] + [c[idx].pos];
        idx := candidates[idx].parentIdx;
      }
      swapArrayLen := swapIdx;
    }

    /** Moves the lines along the planned path, and gives the evicted line's id to `a`. Every other line keeps its
        id, so lookups of other addresses answer as before. */
    method Postinsert(a: Address, candidate: nat)
      requires Valid() && a != 0 && a !in Contents() && Planned(a, candidate)
      modifies this`posOf, addrs, lookupArray
      ensures Valid() && candidate < addrs.Length
      ensures Contents() == (old(Contents()) - {old(addrs[candidate])})[a := candidate]
      ensures addrs[..] == old(addrs[..])[candidate := a]
    {
      ghost var s := swapArray[..swapArrayLen];
      ghost var adr, hole := addrs[..], s[|s| - 1];
      Rotate(a, candidate);
      CloseHole(geo, lookupArray[..], posOf, adr, hole, candidate, a);
      ResidentUpdate(adr, candidate, a);
      ghost var before := lookupArray[..];
      lookupArray[swapArray[swapArrayLen - 1]] := candidate;
      assert lookupArray[..] == before[hole := candidate];
      addrs[candidate] := a;
      assert addrs[..] == adr[candidate := a];
      posOf := posOf[candidate := hole];
    }

    /** Moves every line of the path but the first to the position before its own. */
    method Rotate(ghost a: Address, ghost candidate: nat)
      requires Valid() && Planned(a, candidate)
      modifies this`posOf, lookupArray
      ensures HolePerm(lookupArray[..], posOf, swapArray[swapArrayLen - 1], candidate)
      ensures PlacedExcept(geo, posOf, addrs[..], candidate)
    {
      ghost var look, adr := lookupArray[..], addrs[..];
      ghost var s := swapArray[..swapArrayLen];
      var i := 0;
      while i < swapArrayLen - 1
        invariant 0 <= i <= swapArrayLen - 1
        invariant addrs[..] == adr && swapArray[..swapArrayLen] == s
        invariant HolePerm(lookupArray[..], posOf, s[i], candidate)
        invariant PlacedExcept(geo, posOf, adr, candidate)
        invariant forall j :: i < j < |s| ==> lookupArray[s[j]] == look[s[j]]
      {
        assert MayMove(geo, look, adr, s[i], s[i + 1]);
        MoveTo(swapArray[i], swapArray[i + 1], candidate);
        i := i + 1;
      }
    }

    method MoveTo(hole: nat, next: nat, ghost candidate: nat)
      requires geo.Ok() && HolePerm(lookupArray[..], posOf, hole, candidate)
      requires next < lookupArray.Length && next != hole
      requires PlacedExcept(geo, posOf, addrs[..], candidate) && MayMove(geo, lookupArray[..], addrs[..], hole, next)
      requires addrs != lookupArray
      modifies this`posOf, lookupArray
      ensures lookupArray[..] == old(lookupArray[..])[hole := old(lookupArray[next])]
      ensures HolePerm(lookupArray[..], posOf, next, candidate) && PlacedExcept(geo, posOf, addrs[..], candidate)
    {
      FillHole(geo, lookupArray[..], posOf, addrs[..], hole, next, candidate);
      ghost var before, id := lookupArray[..], lookupArray[next];
      lookupArray[hole] := lookupArray[next];
      assert lookupArray[..] == before[hole := id];
      posOf := posOf[id := hole];
    }
  }
}
