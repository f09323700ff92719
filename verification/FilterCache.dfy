/** The filter in front of a first-level cache: for every set the line that was used last, which can be read, and
    perhaps written, without asking the cache. Addresses are line addresses of one process. */
module FilterCache {
  import opened Mesi
  import opened L1Cache

  /** The line that may be read and the line that may be written; -1 for none. Cleared entries hold 0. */
  datatype FilterEntry = FilterEntry(rdAddr: int, wrAddr: int)

  predicate Hit(e: FilterEntry, a: nat, isLoad: bool) {
    if isLoad then a == e.rdAddr else a == e.wrAddr
  }

  /** The line was used after all other lines of its set. */
  ghost predicate Latest(s: seq<Line>, i: nat) {
    i < |s| && forall j :: 0 <= j < |s| && j != i ==> s[j].used < s[i].used
  }

  /** A line that may be read without asking is valid and the last used of its set; one that may be written is
      modified. Address 0 does not count. */
  ghost predicate EntryOk(e: FilterEntry, s: seq<Line>, k: nat, n: nat) {
    && (e.rdAddr > 0 ==>
          && n > 0 && e.rdAddr % n == k && Find(s, e.rdAddr) < |s| && Latest(s, Find(s, e.rdAddr))
          && s[Find(s, e.rdAddr)].state != I)
    && (e.wrAddr > 0 ==> e.wrAddr == e.rdAddr && s[Find(s, e.wrAddr)].state == M)
  }

  /** All entries are right, but perhaps that of set `skip`. */
  ghost predicate FilterOk(f: seq<FilterEntry>, sets: seq<seq<Line>>, skip: int) {
    && |f| == |sets|
    && forall k :: 0 <= k < |f| && k != skip ==> EntryOk(f[k], sets[k], k, |sets|)
  }

  /** An invalidation in the set of an entry that is about another line, or cleared, leaves the entry right. */
  lemma InvEntry(e: FilterEntry, s: seq<Line>, k: nat, n: nat, i: Inv)
    requires n > 0 && EntryOk(e, s, k, n) && (e.rdAddr > 0 ==> e.rdAddr != i.addr)
    ensures EntryOk(e, InvSet(s, i), k, n)
  {
    if e.rdAddr > 0 {
      var m, x := Find(s, i.addr), Find(s, e.rdAddr);
      var t := InvSet(s, i);
      assert forall j :: 0 <= j < |s| ==> t[j].addr == s[j].addr && t[j].used == s[j].used;
      SameFind(s, t, e.rdAddr);
      assert m != x;
    }
  }

  /** A hit does no more, in the cache without the filter, than to use once more the line that was used last. */
  lemma HitAccess(c: L1, k: nat, i: nat, a: nat, kind: AccessType, env: Env)
    requires Ways(c) && k == SetOf(c, a) && i == Find(c.sets[k], a) < |c.sets[k]|
    requires (kind == GETS && c.sets[k][i].state != I) || (kind == GETX && c.sets[k][i].state == M)
    ensures Access(c, a, kind, env) == (Touch(c, k, i), [])
  {
    var d := Touch(c, k, i);
    PutSame(d, k, i);
    assert Room(c, a, env) == (d, i, []);
    assert d.sets[k][i].(state := Granted(kind, d.sets[k][i].state, env.exclusive)) == d.sets[k][i];
    assert Permit(d, k, i, kind, env) == (d, []);
    var none: seq<Ask> := [];
    assert none + none == none;
  }

  lemma PutSame(d: L1, k: nat, i: nat)
    requires k < |d.sets| && i < |d.sets[k]|
    ensures PutLine(d, k, i, d.sets[k][i]) == d
  {
    assert d.sets[k][i := d.sets[k][i]] == d.sets[k];
    assert d.sets[k := d.sets[k]] == d.sets;
  }

  /** Using again the line that was used last changes no order. */
  lemma TouchLatest(s: seq<Line>, t: seq<Line>, sc: nat, tc: nat, i: nat)
    requires SameSet(s, t) && Used(s, sc) && Used(t, tc) && Latest(s, i)
    ensures SameSet(s, t[i := t[i].(used := tc)]) && Used(t[i := t[i].(used := tc)], tc + 1) && Used(s, sc)
  {
  }

  lemma TouchSame(c: L1, d: L1, k: nat, i: nat)
    requires Same(c, d) && k < |c.sets| && i < |d.sets[k]| && Latest(c.sets[k], i)
    ensures Same(c, Touch(d, k, i))
  {
    TouchLatest(c.sets[k], d.sets[k], c.clock, d.clock, i);
  }

  /** A line that has just been used and permitted is what the filter wants. */
  lemma PermittedEntry(c: L1, k: nat, i: nat, a: nat, kind: AccessType, env: Env)
    requires k < |c.sets| && i == Find(c.sets[k], a) && Latest(c.sets[k], i) && a > 0 && a % |c.sets| == k
    requires kind == GETS || kind == GETX
    ensures EntryOk(FilterEntry(a, if kind == GETS then -1 else a), Permit(c, k, i, kind, env).0.sets[k], k, |c.sets|)
  {
    var d := Permit(c, k, i, kind, env).0;
    InvAllSizes(c, env.duringGet);
    forall j | 0 <= j < |c.sets[k]|
      ensures d.sets[k][j].addr == c.sets[k][j].addr && d.sets[k][j].used == c.sets[k][j].used
    {
      InvAllUsed(c, env.duringGet, k, j);
    }
    SameFind(c.sets[k], d.sets[k], a);
  }

  /** The place given to a line is the last used one. */
  lemma RoomLatest(c: L1, a: nat, env: Env)
    requires Ways(c) && forall k :: 0 <= k < |c.sets| ==> Used(c.sets[k], c.clock)
    ensures var r, k := Room(c, a, env), SetOf(c, a); Latest(r.0.sets[k], r.1) && r.1 == Find(r.0.sets[k], a)
  {
    var k := SetOf(c, a);
    var s, t, i := c.sets[k], Room(c, a, env).0.sets[k], Room(c, a, env).1;
    InvAllSizes(c, env.duringPut);
    forall j | 0 <= j < |s|
      ensures |t| == |s| && (j != i ==> t[j].used == s[j].used && t[j].addr == s[j].addr)
    {
      InvAllUsed(c, env.duringPut, k, j);
    }
    FoundAt(t, a, i);
  }

  lemma AccessWays(c: L1, a: nat, kind: AccessType, env: Env)
    requires Ways(c)
    ensures Ways(Access(c, a, kind, env).0)
  {
    InvAllSizes(c, env.duringPut);
    InvAllSizes(Room(c, a, env).0, env.duringGet);
  }

  /** After an access the filter's new entry is right. */
  lemma AccessEntry(c: L1, a: nat, kind: AccessType, env: Env)
    requires Ways(c) && (forall k :: 0 <= k < |c.sets| ==> Used(c.sets[k], c.clock)) && a > 0
    requires kind == GETS || kind == GETX
    ensures var k := SetOf(c, a);
            EntryOk(FilterEntry(a, if kind == GETS then -1 else a), Access(c, a, kind, env).0.sets[k], k, |c.sets|)
  {
    var r := Room(c, a, env);
    RoomLatest(c, a, env);
    PermittedEntry(r.0, SetOf(c, a), r.1, a, kind, env);
  }

  class FilterCache {
    var sets: seq<seq<Line>>
    var clock: nat
    var filterArray: seq<FilterEntry>
    ghost var plain: L1   // the same cache without the filter, after the same operations

    ghost function Cache(): L1
      reads this`sets, this`clock
    {
      L1(sets, clock)
    }

    /** The cache and the one without the filter differ at most in when lines were used, not in which order. */
    ghost predicate Alike()
      reads this`sets, this`clock, this`plain
    {
      Ways(Cache()) && Ways(plain) && Same(Cache(), plain)
    }

    ghost predicate Valid()
      reads this
    {
      Alike() && FilterOk(filterArray, sets, -1)
    }

    constructor (numSets: nat, assoc: nat)
      requires numSets > 0 && assoc > 0
      ensures Valid() && plain == L1(seq(numSets, k => seq(assoc, i => Line(0, I, 0))), 1)
    {
      sets, clock := seq(numSets, k => seq(assoc, i => Line(0, I, 0))), 1;
      filterArray := seq(numSets, k => FilterEntry(0, 0));
      plain := L1(seq(numSets, k => seq(assoc, i => Line(0, I, 0))), 1);
    }

    /** Reads a line. The requests to the parent and the state of the cache are those of a cache without the filter. */
    method Load(lineAddr: nat, env: Env) returns (asks: seq<Ask>)
      requires Valid() && lineAddr > 0
      modifies this
      ensures Valid()
      ensures plain == Access(old(plain), lineAddr, GETS, env).0 && asks == Access(old(plain), lineAddr, GETS, env).1
      ensures Asked(old(plain), lineAddr, GETS, asks) && LeftIn(old(plain), plain, lineAddr, GETS, env.exclusive)
      ensures |filterArray| == |sets| > 0 && filterArray[lineAddr % |sets|].rdAddr == lineAddr
    {
      var idx := lineAddr % |sets|;
      AccessMeans(plain, lineAddr, GETS, env);
      if Hit(filterArray[idx], lineAddr, true) {
        HitKeeps(lineAddr, GETS, env);
        plain := Access(plain, lineAddr, GETS, env).0;
        asks := [];
      } else {
        asks := Replace(lineAddr, idx, true, env);
      }
    }

    /** Writes a line; likewise. */
    method Store(lineAddr: nat, env: Env) returns (asks: seq<Ask>)
      requires Valid() && lineAddr > 0
      modifies this
      ensures Valid()
      ensures plain == Access(old(plain), lineAddr, GETX, env).0 && asks == Access(old(plain), lineAddr, GETX, env).1
      ensures Asked(old(plain), lineAddr, GETX, asks) && Holds(plain, lineAddr, M) && Holds(Cache(), lineAddr, M)
      ensures |filterArray| == |sets| > 0 && filterArray[lineAddr % |sets|] == FilterEntry(lineAddr, lineAddr)
    {
      var idx := lineAddr % |sets|;
      AccessMeans(plain, lineAddr, GETX, env);
      if Hit(filterArray[idx], lineAddr, false) {
        assert Present(Cache(), lineAddr, Find(sets[idx], lineAddr));
        HitKeeps(lineAddr, GETX, env);
        plain := Access(plain, lineAddr, GETX, env).0;
        asks := [];
      } else {
        asks := Replace(lineAddr, idx, false, env);
      }
    }

    /** What a hit in the filter means for the cache without it: no request, and nothing changes but the time of use. */
    lemma HitKeeps(a: nat, kind: AccessType, env: Env)
      requires Valid() && a > 0 && (kind == GETS || kind == GETX)
      requires Hit(filterArray[a % |sets|], a, kind == GETS)
      ensures Same(Cache(), Access(plain, a, kind, env).0) && Access(plain, a, kind, env).1 == []
      ensures Ways(Access(plain, a, kind, env).0)
    {
      var k := a % |sets|;
      var i := Find(sets[k], a);
      SameFind(sets[k], plain.sets[k], a);
      HitAccess(plain, k, i, a, kind, env);
      TouchSame(Cache(), plain, k, i);
    }

    /** The way through the cache itself. While it waits for the parent, invalidations go through the filter too. */
    method Replace(lineAddr: nat, idx: nat, isLoad: bool, env: Env) returns (asks: seq<Ask>)
      requires Valid() && lineAddr > 0 && idx == lineAddr % |sets|
      modifies this
      ensures Valid()
      ensures var kind := if isLoad then GETS else GETX;
              && plain == Access(old(plain), lineAddr, kind, env).0 && asks == Access(old(plain), lineAddr, kind, env).1
              && Asked(old(Cache()), lineAddr, kind, asks)
              && LeftIn(old(Cache()), Cache(), lineAddr, kind, env.exclusive)
      ensures |filterArray| == |sets| > 0
      ensures filterArray[lineAddr % |sets|] == FilterEntry(lineAddr, if isLoad then -1 else lineAddr)
    {
      var kind := if isLoad then GETS else GETX;
      ghost var c, d := Cache(), plain;
      SameAccess(c, d, lineAddr, kind, env);
      AccessWays(c, lineAddr, kind, env);
      AccessWays(d, lineAddr, kind, env);
      AccessEntry(c, lineAddr, kind, env);
      AccessMeans(c, lineAddr, kind, env);
      asks := Pass(lineAddr, idx, kind, env);
      plain := Access(d, lineAddr, kind, env).0;
      filterArray := filterArray[idx := FilterEntry(lineAddr, if isLoad then -1 else lineAddr)];
    }

    method Pass(lineAddr: nat, idx: nat, kind: AccessType, env: Env) returns (asks: seq<Ask>)
      requires Ways(Cache()) && FilterOk(filterArray, sets, -1) && idx == lineAddr % |sets|
      modifies this`sets, this`clock, this`filterArray
      ensures (Cache(), asks) == Access(old(Cache()), lineAddr, kind, env) && FilterOk(filterArray, sets, idx)
    {
      var lineId, asks1 := MakeRoom(lineAddr, idx, env);
      var asks2 := ProcessAccess(idx, lineId, kind, env);
      asks := asks1 + asks2;
    }

    method Lookup(lines: seq<Line>, lineAddr: nat) returns (id: nat)
      ensures id == Find(lines, lineAddr)
    {
      id := 0;
      while id < |lines| && lines[id].addr != lineAddr
        invariant id <= |lines| && forall j :: 0 <= j < id ==> lines[j].addr != lineAddr
      {
        id := id + 1;
      }
      if id < |lines| {
        FoundAt(lines, lineAddr, id);
      }
    }

    /** The least recently used line, invalid ones first; of several, the first. */
    method RankCands(lines: seq<Line>) returns (bestCand: nat)
      requires |lines| > 0
      ensures bestCand == Victim(lines, |lines|)
      ensures var least := if lines[bestCand].state == I then 0 else lines[bestCand].used;
              && (forall i :: 0 <= i < |lines| ==> least <= if lines[i].state == I then 0 else lines[i].used)
              && (forall i :: 0 <= i < bestCand ==> least < if lines[i].state == I then 0 else lines[i].used)
    {
      bestCand := 0;
      var id := 1;
      while id < |lines|
        invariant 1 <= id <= |lines| && bestCand == Victim(lines, id)
      {
        if Score(lines[id]) < Score(lines[bestCand]) {
          bestCand := id;
        }
        id := id + 1;
      }
      VictimIsFirstLeast(lines, |lines|);
    }

    /** Finds the line, or evicts a victim and puts the line in its place. */
    method MakeRoom(lineAddr: nat, idx: nat, env: Env) returns (lineId: nat, asks: seq<Ask>)
      requires Ways(Cache()) && FilterOk(filterArray, sets, -1) && idx == lineAddr % |sets|
      modifies this`sets, this`clock, this`filterArray
      ensures (Cache(), lineId, asks) == Room(old(Cache()), lineAddr, env)
      ensures FilterOk(filterArray, sets, idx)
    {
      lineId := Lookup(sets[idx], lineAddr);
      if lineId == |sets[idx]| {
        lineId := RankCands(sets[idx]);
        asks := Evict(idx, lineId, env);
        sets := sets[idx := sets[idx][lineId := Line(lineAddr, I, clock)]];
      } else {
        asks := [];
        sets := sets[idx := sets[idx][lineId := sets[idx][lineId].(used := clock)]];
      }
      clock := clock + 1;
    }

    /** Writes the victim back if it is valid. */
    method Evict(idx: nat, lineId: nat, env: Env) returns (asks: seq<Ask>)
      requires Ways(Cache()) && FilterOk(filterArray, sets, -1) && idx < |sets| && lineId < |sets[idx]|
      modifies this`sets, this`filterArray
      ensures asks == PutAsk(old(sets[idx][lineId]))
      ensures var l := old(sets[idx][lineId]);
              asks == if l.state == I then [] else [Ask(l.addr, if l.state == M then PUTX else PUTS)]
      ensures Cache() == if asks == [] then old(Cache()) else InvAll(old(Cache()), env.duringPut)
      ensures FilterOk(filterArray, sets, -1) && idx < |sets| && lineId < |sets[idx]|
    {
      asks := PutAsk(sets[idx][lineId]);
      if asks != [] {
        InvAllSizes(Cache(), env.duringPut);
        InvalidateAll(env.duringPut, -1);
      }
    }

    /** Asks the parent if the line lacks permission. */
    method ProcessAccess(idx: nat, lineId: nat, kind: AccessType, env: Env) returns (asks: seq<Ask>)
      requires idx < |sets| && lineId < |sets[idx]| && FilterOk(filterArray, sets, idx)
      modifies this`sets, this`filterArray
      ensures (Cache(), asks) == Permit(old(Cache()), idx, lineId, kind, env)
      ensures FilterOk(filterArray, sets, idx)
    {
      var state := sets[idx][lineId].state;
      asks := GetAsk(sets[idx][lineId], kind);
      if asks != [] {
        InvAllSizes(Cache(), env.duringGet);
        InvalidateAll(env.duringGet, idx);
      }
      sets := sets[idx := sets[idx][lineId := sets[idx][lineId].(state := Granted(kind, state, env.exclusive))]];
    }

    /** An invalidation or downgrade; the filter forgets the line. */
    method Invalidate(inv: Inv)
      requires Valid()
      modifies this
      ensures Valid() && plain == InvOne(old(plain), inv)
      ensures var k := inv.addr % |sets|;
              filterArray == if old(filterArray)[k].rdAddr == inv.addr then old(filterArray)[k := FilterEntry(-1, -1)]
                             else old(filterArray)
    {
      SameInv(Cache(), plain, inv);
      plain := InvOne(plain, inv);
      Forget(inv, -1);
    }

    method Forget(inv: Inv, ghost skip: int)
      requires |sets| > 0 && FilterOk(filterArray, sets, skip)
      modifies this`sets, this`filterArray
      ensures Cache() == InvOne(old(Cache()), inv) && FilterOk(filterArray, sets, skip)
      ensures var k := inv.addr % |sets|;
              filterArray == if old(filterArray)[k].rdAddr == inv.addr then old(filterArray)[k := FilterEntry(-1, -1)]
                             else old(filterArray)
    {
      var idx := inv.addr % |sets|;
      if idx != skip && filterArray[idx].rdAddr != inv.addr {
        InvEntry(filterArray[idx], sets[idx], idx, |sets|, inv);
      }
      if filterArray[idx].rdAddr == inv.addr {
        filterArray := filterArray[idx := FilterEntry(-1, -1)];
      }
      sets := sets[idx := InvSet(sets[idx], inv)];
    }

    method InvalidateAll(invs: seq<Inv>, ghost skip: int)
      requires |sets| > 0 && FilterOk(filterArray, sets, skip)
      modifies this`sets, this`filterArray
      ensures Cache() == InvAll(old(Cache()), invs) && FilterOk(filterArray, sets, skip)
    {
      var n := 0;
      while n < |invs|
        invariant n <= |invs| && |sets| > 0 && FilterOk(filterArray, sets, skip)
        invariant Cache() == InvAll(old(Cache()), invs[..n])
      {
        assert invs[..n + 1][..n] == invs[..n];
        Forget(invs[n], skip);
        n := n + 1;
      }
      assert invs[..n] == invs;
    }

    /** Another thread runs on the core: the filter forgets everything. */
    method ContextSwitch()
      requires Valid()
      modifies this`filterArray
      ensures Valid() && filterArray == seq(|sets|, k => FilterEntry(0, 0))
    {
      filterArray := seq(|sets|, k => FilterEntry(0, 0));
    }
  }

  /** Over a cache in which nothing is valid, a cleared filter is right to call a read a hit, that is, the cache would
      not ask its parent either, exactly for addresses other than 0. */
  lemma ClearedFilterAgrees(c: L1, a: nat, env: Env)
    requires Ways(c)
    requires forall k, i :: 0 <= k < |c.sets| && 0 <= i < |c.sets[k]| ==> c.sets[k][i] == Line(0, I, 0)
    ensures (Hit(FilterEntry(0, 0), a, true) ==> Access(c, a, GETS, env).1 == []) <==> a != 0
  {
    if a == 0 {
      var k := SetOf(c, 0);
      assert c.sets[k][0].addr == 0;
      assert Find(c.sets[k], 0) == 0;
      assert GetAsk(Touch(c, k, 0).sets[k][0], GETS) == [Ask(0, GETS)];
      assert Access(c, a, GETS, env).1 == [] + [Ask(0, GETS)];
    }
  }
}
