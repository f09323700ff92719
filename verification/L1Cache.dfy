/** A first-level cache: set associative, without a hash, with LRU replacement, and a terminal MESI controller. Its
    operations are given as functions, to compare the cache behind a filter with the same cache without one. */
module L1Cache {
  import opened Mesi

  /** A line with its address, its state, and when it was last used. */
  datatype Line = Line(addr: nat, state: State, used: nat)

  datatype L1 = L1(sets: seq<seq<Line>>, clock: nat)

  /** An invalidation or downgrade from the parent. */
  datatype Inv = Inv(addr: nat, kind: InvType)

  /** A request to the parent. */
  datatype Ask = Ask(addr: nat, kind: AccessType)

  /** What happens around an access: the invalidations that arrive while the victim is written back and while the
      parent is asked, and whether the parent would grant exclusive permission for a read. */
  datatype Env = Env(duringPut: seq<Inv>, duringGet: seq<Inv>, exclusive: bool)

  function SetOf(c: L1, a: nat): (k: nat)
    requires |c.sets| > 0
    ensures k < |c.sets|
  {
    a % |c.sets|
  }

  /** The first line with the address, or the number of lines. */
  function Find(s: seq<Line>, a: nat): (i: nat)
    ensures i <= |s| && (i < |s| ==> s[i].addr == a)
    ensures forall j :: 0 <= j < i ==> s[j].addr != a
  {
    if s == [] || s[0].addr == a then 0 else 1 + Find(s[1..], a)
  }

  /** Lines with a low score are evicted first: invalid ones, then the least recently used. */
  function Score(l: Line): nat {
    if l.state == I then 0 else l.used
  }

  /** The first of the `n` first lines with the least score. */
  function Victim(s: seq<Line>, n: nat): (v: nat)
    requires 0 < n <= |s|
    ensures v < n
  {
    if n == 1 then 0
    else var v := Victim(s, n - 1); if Score(s[n - 1]) < Score(s[v]) then n - 1 else v
  }

  /** No line has a lower score than the victim, and none before it has the same. */
  lemma {:induction false} VictimIsFirstLeast(s: seq<Line>, n: nat)
    requires 0 < n <= |s|
    ensures forall i :: 0 <= i < n ==> Score(s[Victim(s, n)]) <= Score(s[i])
    ensures forall i :: 0 <= i < Victim(s, n) ==> Score(s[Victim(s, n)]) < Score(s[i])
  {
    if n > 1 {
      VictimIsFirstLeast(s, n - 1);
    }
  }

  function InvSet(s: seq<Line>, i: Inv): (t: seq<Line>)
    ensures |t| == |s|
  {
    var n := Find(s, i.addr);
    if n < |s| && BottomInval(i.kind, s[n].state).Ok?
    then s[n := s[n].(state := BottomInval(i.kind, s[n].state).value.0)]
    else s
  }

  function InvOne(c: L1, i: Inv): (d: L1)
    requires |c.sets| > 0
    ensures |d.sets| == |c.sets|
  {
    var k := SetOf(c, i.addr);
    c.(sets := c.sets[k := InvSet(c.sets[k], i)])
  }

  function InvAll(c: L1, invs: seq<Inv>): (d: L1)
    requires |c.sets| > 0
    ensures |d.sets| == |c.sets|
  {
    if invs == [] then c else InvOne(InvAll(c, invs[..|invs| - 1]), invs[|invs| - 1])
  }

  predicate Ways(c: L1) {
    |c.sets| > 0 && forall k :: 0 <= k < |c.sets| ==> |c.sets[k]| > 0
  }

  function PutLine(c: L1, k: nat, i: nat, l: Line): (d: L1)
    requires k < |c.sets| && i < |c.sets[k]|
    ensures |d.sets| == |c.sets|
  {
    c.(sets := c.sets[k := c.sets[k][i := l]])
  }

  /** A line is used now. */
  function Touch(c: L1, k: nat, i: nat): L1
    requires k < |c.sets| && i < |c.sets[k]|
  {
    PutLine(c, k, i, c.sets[k][i].(used := c.clock)).(clock := c.clock + 1)
  }

  /** The request with which a victim leaves. */
  function PutAsk(l: Line): seq<Ask> {
    if l.state == I then [] else [Ask(l.addr, PutKind(l.state))]
  }

  /** The request for permission that an access needs. */
  function GetAsk(l: Line, kind: AccessType): seq<Ask> {
    if NeedsParent(kind, l.state) then [Ask(l.addr, kind)] else []
  }

  /** The state after an access. */
  function Granted(kind: AccessType, state: State, exclusive: bool): State {
    if kind == GETX then M else if state != I then state else if exclusive then E else S
  }

  /** A place for the line: its own, which is now in use, or that of the victim, which has been written back. */
  function Room(c: L1, a: nat, env: Env): (r: (L1, nat, seq<Ask>))
    requires Ways(c)
    ensures |r.0.sets| == |c.sets| && r.1 < |r.0.sets[SetOf(c, a)]|
  {
    var k := SetOf(c, a);
    var i := Find(c.sets[k], a);
    if i < |c.sets[k]| then (Touch(c, k, i), i, [])
    else
      var v := Victim(c.sets[k], |c.sets[k]|);
      var asks := PutAsk(c.sets[k][v]);
      var d := if asks == [] then c else InvAll(c, env.duringPut);
      InvAllSizes(c, env.duringPut);
      (PutLine(d, k, v, Line(a, I, d.clock)).(clock := d.clock + 1), v, asks)
  }

  /** Permission for the line. */
  function Permit(c: L1, k: nat, i: nat, kind: AccessType, env: Env): (r: (L1, seq<Ask>))
    requires k < |c.sets| && i < |c.sets[k]|
    ensures |r.0.sets| == |c.sets|
  {
    var l := c.sets[k][i];
    var asks := GetAsk(l, kind);
    var d := if asks == [] then c else InvAll(c, env.duringGet);
    InvAllSizes(c, env.duringGet);
    (PutLine(d, k, i, d.sets[k][i].(state := Granted(kind, l.state, env.exclusive))), asks)
  }

  /** A whole access, and the requests it sends to the parent. */
  function Access(c: L1, a: nat, kind: AccessType, env: Env): (r: (L1, seq<Ask>))
    requires Ways(c)
    ensures |r.0.sets| == |c.sets|
  {
    var room := Room(c, a, env);
    var permit := Permit(room.0, SetOf(c, a), room.1, kind, env);
    (permit.0, room.2 + permit.1)
  }

  lemma {:induction false} InvAllSizes(c: L1, invs: seq<Inv>)
    requires |c.sets| > 0
    ensures var d := InvAll(c, invs);
            d.clock == c.clock && forall k :: 0 <= k < |c.sets| ==> |d.sets[k]| == |c.sets[k]|
  {
    if invs != [] {
      InvAllSizes(c, invs[..|invs| - 1]);
    }
  }

  // ----- two caches that differ only in when lines were used -----

  /** Same addresses, same states, same order of use. */
  ghost predicate SameSet(s: seq<Line>, t: seq<Line>) {
    && |s| == |t|
    && (forall i :: 0 <= i < |s| ==> s[i].addr == t[i].addr && s[i].state == t[i].state)
    && (forall i, j :: 0 <= i < |s| && 0 <= j < |s| ==> (s[i].used < s[j].used <==> t[i].used < t[j].used))
  }

  /** The clock is ahead of every use, and a valid line has been used. */
  ghost predicate Used(s: seq<Line>, clock: nat) {
    clock > 0 && forall i :: 0 <= i < |s| ==> s[i].used < clock && (s[i].state != I ==> s[i].used > 0)
  }

  ghost predicate Same(c: L1, d: L1) {
    && |c.sets| == |d.sets|
    && forall k :: 0 <= k < |c.sets| ==>
         SameSet(c.sets[k], d.sets[k]) && Used(c.sets[k], c.clock) && Used(d.sets[k], d.clock)
  }

  lemma {:induction false} SameFind(s: seq<Line>, t: seq<Line>, a: nat)
    requires |s| == |t| && forall i :: 0 <= i < |s| ==> s[i].addr == t[i].addr
    ensures Find(s, a) == Find(t, a)
  {
    if s != [] {
      SameFind(s[1..], t[1..], a);
    }
  }

  /** Both caches choose the same victim. */
  lemma {:induction false} SameVictim(s: seq<Line>, t: seq<Line>, n: nat, sc: nat, tc: nat)
    requires SameSet(s, t) && Used(s, sc) && Used(t, tc) && 0 < n <= |s|
    ensures Victim(s, n) == Victim(t, n)
  {
    if n > 1 {
      SameVictim(s, t, n - 1, sc, tc);
    }
  }

  lemma SameInvSet(s: seq<Line>, t: seq<Line>, sc: nat, tc: nat, i: Inv)
    requires SameSet(s, t) && Used(s, sc) && Used(t, tc)
    ensures SameSet(InvSet(s, i), InvSet(t, i)) && Used(InvSet(s, i), sc) && Used(InvSet(t, i), tc)
  {
    SameFind(s, t, i.addr);
  }

  lemma SameInv(c: L1, d: L1, i: Inv)
    requires Same(c, d) && |c.sets| > 0
    ensures Same(InvOne(c, i), InvOne(d, i))
  {
    var k := SetOf(c, i.addr);
    SameInvSet(c.sets[k], d.sets[k], c.clock, d.clock, i);
  }

  lemma {:induction false} SameInvs(c: L1, d: L1, invs: seq<Inv>)
    requires Same(c, d) && |c.sets| > 0
    ensures Same(InvAll(c, invs), InvAll(d, invs))
  {
    if invs != [] {
      SameInvs(c, d, invs[..|invs| - 1]);
      SameInv(InvAll(c, invs[..|invs| - 1]), InvAll(d, invs[..|invs| - 1]), invs[|invs| - 1]);
    }
  }

  /** A line that is used now is the most recent one in both. */
  lemma SameFresh(s: seq<Line>, t: seq<Line>, sc: nat, tc: nat, i: nat, x: Line, y: Line)
    requires SameSet(s, t) && Used(s, sc) && Used(t, tc) && i < |s|
    requires x.addr == y.addr && x.state == y.state && x.used == sc && y.used == tc
    ensures SameSet(s[i := x], t[i := y]) && Used(s[i := x], sc + 1) && Used(t[i := y], tc + 1)
  {
  }

  lemma SamePut(c: L1, d: L1, k: nat, i: nat, x: Line, y: Line)
    requires Same(c, d) && k < |c.sets| && i < |c.sets[k]| && |d.sets[k]| == |c.sets[k]|
    requires x.addr == y.addr && x.state == y.state && x.used == c.clock && y.used == d.clock
    ensures Same(PutLine(c, k, i, x).(clock := c.clock + 1), PutLine(d, k, i, y).(clock := d.clock + 1))
  {
    SameFresh(c.sets[k], d.sets[k], c.clock, d.clock, i, x, y);
  }

  lemma SameRoom(c: L1, d: L1, a: nat, env: Env)
    requires Same(c, d) && Ways(c) && Ways(d)
    ensures var p, q := Room(c, a, env), Room(d, a, env); Same(p.0, q.0) && p.1 == q.1 && p.2 == q.2
  {
    var k := SetOf(c, a);
    var s, t := c.sets[k], d.sets[k];
    SameFind(s, t, a);
    var i := Find(s, a);
    if i < |s| {
      SamePut(c, d, k, i, s[i].(used := c.clock), t[i].(used := d.clock));
    } else {
      SameVictim(s, t, |s|, c.clock, d.clock);
      SameEviction(c, d, k, Victim(s, |s|), a, env);
    }
  }

  /** The invalidations that come while a victim leaves, if it has to be told. */
  function DuringPut(l: Line, env: Env): seq<Inv> {
    if PutAsk(l) == [] then [] else env.duringPut
  }

  lemma SameEviction(c: L1, d: L1, k: nat, v: nat, a: nat, env: Env)
    requires Same(c, d) && k < |c.sets| && v < |c.sets[k]| && |d.sets[k]| == |c.sets[k]|
    ensures PutAsk(c.sets[k][v]) == PutAsk(d.sets[k][v])
    ensures var c', d' := InvAll(c, DuringPut(c.sets[k][v], env)), InvAll(d, DuringPut(d.sets[k][v], env));
            && |c'.sets[k]| == |c.sets[k]| && |d'.sets[k]| == |d.sets[k]|
            && Same(PutLine(c', k, v, Line(a, I, c'.clock)).(clock := c'.clock + 1),
                    PutLine(d', k, v, Line(a, I, d'.clock)).(clock := d'.clock + 1))
  {
    var invs := DuringPut(c.sets[k][v], env);
    SameInvs(c, d, invs);
    InvAllSizes(c, invs);
    InvAllSizes(d, invs);
    var c', d' := InvAll(c, invs), InvAll(d, invs);
    SamePut(c', d', k, v, Line(a, I, c'.clock), Line(a, I, d'.clock));
  }

  lemma SameState(c: L1, d: L1, k: nat, i: nat, state: State)
    requires Same(c, d) && k < |c.sets| && i < |c.sets[k]| && |d.sets[k]| == |c.sets[k]|
    requires c.sets[k][i].used > 0 && d.sets[k][i].used > 0
    ensures Same(PutLine(c, k, i, c.sets[k][i].(state := state)), PutLine(d, k, i, d.sets[k][i].(state := state)))
  {
  }

  /** Invalidations do not change when lines were used. */
  lemma {:induction false} InvAllUsed(c: L1, invs: seq<Inv>, k: nat, i: nat)
    requires k < |c.sets| && i < |c.sets[k]|
    ensures |InvAll(c, invs).sets[k]| == |c.sets[k]|
    ensures var l := InvAll(c, invs).sets[k][i]; l.used == c.sets[k][i].used && l.addr == c.sets[k][i].addr
  {
    if invs != [] {
      InvAllUsed(c, invs[..|invs| - 1], k, i);
    }
  }

  lemma SamePermit(c: L1, d: L1, k: nat, i: nat, kind: AccessType, env: Env)
    requires Same(c, d) && k < |c.sets| && i < |c.sets[k]| && |d.sets[k]| == |c.sets[k]|
    requires c.sets[k][i].used > 0 && d.sets[k][i].used > 0
    ensures var p, q := Permit(c, k, i, kind, env), Permit(d, k, i, kind, env); Same(p.0, q.0) && p.1 == q.1
  {
    var l := c.sets[k][i];
    var asks := GetAsk(l, kind);
    assert asks == GetAsk(d.sets[k][i], kind);
    InvAllUsed(c, env.duringGet, k, i);
    InvAllUsed(d, env.duringGet, k, i);
    SameInvs(c, d, env.duringGet);
    var invs := if asks == [] then [] else env.duringGet;
    var c', d' := InvAll(c, invs), InvAll(d, invs);
    SameState(c', d', k, i, Granted(kind, l.state, env.exclusive));
  }

  /** The place given to a line counts as just used. */
  lemma RoomUsed(c: L1, a: nat, env: Env)
    requires Ways(c) && c.clock > 0
    ensures var r := Room(c, a, env); r.0.sets[SetOf(c, a)][r.1].used > 0 && r.0.sets[SetOf(c, a)][r.1].addr == a
  {
    InvAllSizes(c, env.duringPut);
  }

  /** From like caches, an access leads to like caches, and sends the same requests. */
  lemma SameAccess(c: L1, d: L1, a: nat, kind: AccessType, env: Env)
    requires Same(c, d) && Ways(c) && Ways(d)
    ensures var p, q := Access(c, a, kind, env), Access(d, a, kind, env); Same(p.0, q.0) && p.1 == q.1
  {
    assert Used(c.sets[0], c.clock) && Used(d.sets[0], d.clock);
    SameRoom(c, d, a, env);
    RoomUsed(c, a, env);
    RoomUsed(d, a, env);
    var p, q := Room(c, a, env), Room(d, a, env);
    SamePermit(p.0, q.0, SetOf(c, a), p.1, kind, env);
  }

  // ----- what an access asks for, and how it leaves the line -----

  /** Line `i` of its set is the one that a lookup of the address finds. */
  ghost predicate Present(c: L1, a: nat, i: nat) {
    && |c.sets| > 0
    && var s := c.sets[a % |c.sets|];
       i < |s| && s[i].addr == a && forall j :: 0 <= j < i ==> s[j].addr != a
  }

  ghost predicate Holds(c: L1, a: nat, state: State) {
    exists i: nat :: Present(c, a, i) && c.sets[a % |c.sets|][i].state == state
  }

  ghost predicate Absent(c: L1, a: nat)
    requires |c.sets| > 0
  {
    var s := c.sets[a % |c.sets|];
    forall i :: 0 <= i < |s| ==> s[i].addr != a
  }

  /** Line `v` is the first one to go: the first invalid one, or else the least recently used. */
  ghost predicate FirstToGo(s: seq<Line>, v: nat) {
    && v < |s|
    && if s[v].state == I then forall j :: 0 <= j < v ==> s[j].state != I
       else forall j :: 0 <= j < |s| ==> s[j].state != I && s[v].used <= s[j].used
  }

  /** A line with permission needs no request, one without is asked for; and if the line is not there the first one to
      go is written back before, with its data exactly if it is modified. */
  ghost predicate Asked(c: L1, a: nat, kind: AccessType, asks: seq<Ask>)
    requires |c.sets| > 0
  {
    var s := c.sets[a % |c.sets|];
    && (forall i: nat :: Present(c, a, i) ==>
          asks == if (if kind == GETX then s[i].state == E || s[i].state == M else s[i].state != I) then []
                  else [Ask(a, kind)])
    && (Absent(c, a) ==>
          exists v: nat :: FirstToGo(s, v) &&
            asks == if s[v].state == I then [Ask(a, kind)]
                    else [Ask(s[v].addr, if s[v].state == M then PUTX else PUTS), Ask(a, kind)])
  }

  /** A store leaves the line modified; a load leaves a valid line in its state, and any other as the parent grants. */
  ghost predicate LeftIn(c: L1, d: L1, a: nat, kind: AccessType, exclusive: bool)
    requires |c.sets| > 0
  {
    && (kind == GETX ==> Holds(d, a, M))
    && (kind == GETS ==>
          && (forall state :: state != I && Holds(c, a, state) ==> Holds(d, a, state))
          && (Absent(c, a) || Holds(c, a, I) ==> Holds(d, a, if exclusive then E else S)))
  }

  lemma {:induction false} FoundAt(t: seq<Line>, a: nat, i: nat)
    requires i < |t| && t[i].addr == a && forall j :: 0 <= j < i ==> t[j].addr != a
    ensures Find(t, a) == i
  {
    if i > 0 {
      FoundAt(t[1..], a, i - 1);
    }
  }

  lemma VictimIsFirstToGo(s: seq<Line>, clock: nat)
    requires |s| > 0 && Used(s, clock)
    ensures FirstToGo(s, Victim(s, |s|))
  {
    VictimIsFirstLeast(s, |s|);
  }

  /** One invalidation or downgrade changes the state of its own line and nothing else. */
  lemma OneTold(c: L1, inv: Inv, a: nat, i: nat)
    requires Present(c, a, i)
    ensures Present(InvOne(c, inv), a, i)
    ensures var before, after := c.sets[a % |c.sets|][i].state, InvOne(c, inv).sets[a % |c.sets|][i].state;
            after == if inv.addr != a then before
                     else if inv.kind == INV then I
                     else if before == E || before == M then S else before
  {
    FoundAt(c.sets[a % |c.sets|], a, i);
  }

  lemma {:induction false} AllTold(c: L1, invs: seq<Inv>, a: nat, i: nat)
    requires Present(c, a, i)
    ensures Present(InvAll(c, invs), a, i)
    ensures (forall n :: 0 <= n < |invs| ==> invs[n].addr != a) ==>
              InvAll(c, invs).sets[a % |c.sets|][i].state == c.sets[a % |c.sets|][i].state
  {
    if invs != [] {
      AllTold(c, invs[..|invs| - 1], a, i);
      OneTold(InvAll(c, invs[..|invs| - 1]), invs[|invs| - 1], a, i);
    }
  }

  lemma FindPresent(c: L1, a: nat)
    requires |c.sets| > 0
    ensures var i := Find(c.sets[a % |c.sets|], a);
            if Absent(c, a) then i == |c.sets[a % |c.sets|]| else Present(c, a, i)
    ensures forall i: nat :: Present(c, a, i) ==> i == Find(c.sets[a % |c.sets|], a)
  {
    forall i: nat | Present(c, a, i)
      ensures i == Find(c.sets[a % |c.sets|], a)
    {
      FoundAt(c.sets[a % |c.sets|], a, i);
    }
  }

  /** The place for a line that is there is its own. */
  lemma RoomOfPresent(c: L1, a: nat, env: Env, i: nat)
    requires Ways(c) && Present(c, a, i)
    ensures var r := Room(c, a, env);
            && r.1 == i && r.2 == [] && Present(r.0, a, i)
            && r.0.sets[a % |c.sets|][i].state == c.sets[a % |c.sets|][i].state
  {
    FindPresent(c, a);
  }

  /** The place for one that is not there is that of the first to go, which is asked to leave. */
  lemma RoomOfAbsent(c: L1, a: nat, env: Env)
    requires Ways(c) && Absent(c, a) && Used(c.sets[a % |c.sets|], c.clock)
    ensures var s, r := c.sets[a % |c.sets|], Room(c, a, env);
            && r.1 < |s| && FirstToGo(s, r.1) && r.2 == PutAsk(s[r.1])
            && Present(r.0, a, r.1) && r.0.sets[a % |c.sets|][r.1].state == I
  {
    var s, r := c.sets[a % |c.sets|], Room(c, a, env);
    FindPresent(c, a);
    VictimIsFirstToGo(s, c.clock);
    InvAllSizes(c, env.duringPut);
    forall j | 0 <= j < r.1
      ensures r.0.sets[a % |c.sets|][j].addr == s[j].addr
    {
      InvAllUsed(c, env.duringPut, a % |c.sets|, j);
    }
  }

  lemma PermitLeaves(c: L1, a: nat, i: nat, kind: AccessType, env: Env)
    requires Ways(c) && Present(c, a, i)
    ensures var (d, asks) := Permit(c, a % |c.sets|, i, kind, env);
            && Present(d, a, i)
            && d.sets[a % |c.sets|][i].state == Granted(kind, c.sets[a % |c.sets|][i].state, env.exclusive)
            && asks == GetAsk(c.sets[a % |c.sets|][i], kind)
  {
    AllTold(c, env.duringGet, a, i);
    InvAllSizes(c, env.duringGet);
  }

  /** What an access asks its parent for, and in what state it leaves the line. */
  lemma AccessMeans(c: L1, a: nat, kind: AccessType, env: Env)
    requires Ways(c) && Used(c.sets[a % |c.sets|], c.clock) && (kind == GETS || kind == GETX)
    ensures var (d, asks) := Access(c, a, kind, env); Asked(c, a, kind, asks) && LeftIn(c, d, a, kind, env.exclusive)
  {
    FindPresent(c, a);
    if Absent(c, a) {
      AccessToAbsent(c, a, kind, env);
    } else {
      AccessToPresent(c, a, kind, env, Find(c.sets[a % |c.sets|], a));
    }
  }

  lemma AccessToAbsent(c: L1, a: nat, kind: AccessType, env: Env)
    requires Ways(c) && Absent(c, a) && Used(c.sets[a % |c.sets|], c.clock) && (kind == GETS || kind == GETX)
    ensures var (d, asks) := Access(c, a, kind, env); Asked(c, a, kind, asks) && LeftIn(c, d, a, kind, env.exclusive)
  {
    var r := Room(c, a, env);
    RoomOfAbsent(c, a, env);
    RoomWays(c, a, env);
    PermitLeaves(r.0, a, r.1, kind, env);
  }

  lemma AccessToPresent(c: L1, a: nat, kind: AccessType, env: Env, i: nat)
    requires Ways(c) && Present(c, a, i) && (kind == GETS || kind == GETX)
    ensures var (d, asks) := Access(c, a, kind, env); Asked(c, a, kind, asks) && LeftIn(c, d, a, kind, env.exclusive)
  {
    var r := Room(c, a, env);
    FindPresent(c, a);
    RoomOfPresent(c, a, env, i);
    RoomWays(c, a, env);
    PermitLeaves(r.0, a, i, kind, env);
  }

  lemma RoomWays(c: L1, a: nat, env: Env)
    requires Ways(c)
    ensures Ways(Room(c, a, env).0)
  {
    InvAllSizes(c, env.duringPut);
  }

  // ----- every run -----

  datatype Op = Reads(addr: nat, env: Env) | Writes(addr: nat, env: Env) | Told(inv: Inv)

  function Do(c: L1, op: Op): (r: (L1, seq<Ask>))
    requires Ways(c)
    ensures |r.0.sets| == |c.sets|
  {
    match op
    case Reads(a, env) => Access(c, a, GETS, env)
    case Writes(a, env) => Access(c, a, GETX, env)
    case Told(inv) => (InvOne(c, inv), [])
  }

  /** An invalidation or downgrade of the line comes during the operation. */
  predicate Tells(op: Op, a: nat) {
    match op
    case Told(inv) => inv.addr == a
    case _ =>
      || (exists n :: 0 <= n < |op.env.duringPut| && op.env.duringPut[n].addr == a)
      || (exists n :: 0 <= n < |op.env.duringGet| && op.env.duringGet[n].addr == a)
  }

  lemma DoWays(c: L1, op: Op)
    requires Ways(c)
    ensures Ways(Do(c, op).0)
  {
    match op {
      case Told(inv) => {}
      case _ => {
        RoomWays(c, op.addr, op.env);
        InvAllSizes(Room(c, op.addr, op.env).0, op.env.duringGet);
      }
    }
  }

  /** The cache after a run, and the requests it has sent. */
  function Run(c: L1, ops: seq<Op>): (r: (L1, seq<Ask>))
    requires Ways(c)
    ensures Ways(r.0) && |r.0.sets| == |c.sets|
  {
    if ops == [] then (c, [])
    else
      var (d, asks) := Run(c, ops[..|ops| - 1]);
      DoWays(d, ops[|ops| - 1]);
      var (e, more) := Do(d, ops[|ops| - 1]);
      (e, asks + more)
  }

  /** Making room for another line leaves a line as it is, or writes it back if it is the victim. */
  lemma RoomElsewhere(c: L1, b: nat, env: Env, a: nat, i: nat)
    requires Ways(c) && Present(c, a, i) && a != b
    requires forall n :: 0 <= n < |env.duringPut| ==> env.duringPut[n].addr != a
    ensures var (d, _, asks) := Room(c, b, env);
            && var l := c.sets[a % |c.sets|][i];
            || (Present(d, a, i) && d.sets[a % |c.sets|][i].state == l.state)
            || (asks == PutAsk(l) && a % |c.sets| == b % |c.sets|)
  {
    AllTold(c, env.duringPut, a, i);
    InvAllSizes(c, env.duringPut);
  }

  lemma PermitElsewhere(c: L1, b: nat, j: nat, kind: AccessType, env: Env, a: nat, i: nat)
    requires Ways(c) && Present(c, a, i) && a != b && Present(c, b, j)
    requires forall n :: 0 <= n < |env.duringGet| ==> env.duringGet[n].addr != a
    ensures var d := Permit(c, b % |c.sets|, j, kind, env).0;
            Present(d, a, i) && d.sets[a % |c.sets|][i].state == c.sets[a % |c.sets|][i].state
  {
    AllTold(c, env.duringGet, a, i);
    AllTold(c, env.duringGet, b, j);
    InvAllSizes(c, env.duringGet);
  }

  /** An access to another line leaves a valid line in its state, unless it writes it back. */
  lemma AccessElsewhere(c: L1, b: nat, kind: AccessType, env: Env, a: nat, state: State)
    requires Ways(c) && Holds(c, a, state) && state != I && a != b
    requires forall n :: 0 <= n < |env.duringPut| ==> env.duringPut[n].addr != a
    requires forall n :: 0 <= n < |env.duringGet| ==> env.duringGet[n].addr != a
    ensures var (d, asks) := Access(c, b, kind, env);
            Holds(d, a, state) || Ask(a, if state == M then PUTX else PUTS) in asks
  {
    var i: nat :| Present(c, a, i) && c.sets[a % |c.sets|][i].state == state;
    var r := Room(c, b, env);
    RoomElsewhere(c, b, env, a, i);
    RoomWays(c, b, env);
    if Present(r.0, a, i) && r.0.sets[a % |c.sets|][i].state == state {
      RoomHasPlace(c, b, env);
      PermitElsewhere(r.0, b, r.1, kind, env, a, i);
    } else {
      assert r.2[0] == Ask(a, if state == M then PUTX else PUTS);
      assert Access(c, b, kind, env).1[0] == r.2[0];
    }
  }

  lemma RoomHasPlace(c: L1, a: nat, env: Env)
    requires Ways(c)
    ensures Present(Room(c, a, env).0, a, Room(c, a, env).1)
  {
    var s, r := c.sets[a % |c.sets|], Room(c, a, env);
    InvAllSizes(c, env.duringPut);
    forall j | 0 <= j < r.1
      ensures r.0.sets[a % |c.sets|][j].addr == s[j].addr
    {
      InvAllUsed(c, env.duringPut, a % |c.sets|, j);
    }
  }

  /** An access to the line itself: a load leaves its state, a store leaves M. */
  lemma AccessHere(c: L1, a: nat, kind: AccessType, env: Env, state: State)
    requires Ways(c) && Holds(c, a, state) && state != I && (kind == GETS || (kind == GETX && state == M))
    ensures Holds(Access(c, a, kind, env).0, a, state)
  {
    var i: nat :| Present(c, a, i) && c.sets[a % |c.sets|][i].state == state;
    RoomOfPresent(c, a, env, i);
    RoomWays(c, a, env);
    PermitLeaves(Room(c, a, env).0, a, i, kind, env);
  }

  lemma OpLeaves(c: L1, op: Op, a: nat, state: State)
    requires Ways(c) && Holds(c, a, state) && state != I && !Tells(op, a)
    requires op.Writes? && op.addr == a ==> state == M
    ensures var (d, asks) := Do(c, op); Holds(d, a, state) || Ask(a, if state == M then PUTX else PUTS) in asks
  {
    match op {
      case Told(inv) => {
        var i: nat :| Present(c, a, i) && c.sets[a % |c.sets|][i].state == state;
        OneTold(c, inv, a, i);
      }
      case _ => {
        var kind := if op.Reads? then GETS else GETX;
        if op.addr == a {
          AccessHere(c, a, kind, op.env, state);
        } else {
          AccessElsewhere(c, op.addr, kind, op.env, a, state);
        }
      }
    }
  }

  /** In every run a valid line stays in its state until it is invalidated or downgraded, or written to if it is not
      modified, or written back: with its data if it is modified, and without if it is clean. */
  lemma {:induction false} StaysUntilTold(c: L1, ops: seq<Op>, a: nat, state: State)
    requires Ways(c) && Holds(c, a, state) && state != I
    requires forall n :: 0 <= n < |ops| ==> !Tells(ops[n], a) && (ops[n].Writes? && ops[n].addr == a ==> state == M)
    ensures Holds(Run(c, ops).0, a, state) || Ask(a, if state == M then PUTX else PUTS) in Run(c, ops).1
  {
    if ops != [] {
      StaysUntilTold(c, ops[..|ops| - 1], a, state);
      var d := Run(c, ops[..|ops| - 1]).0;
      DoWays(d, ops[|ops| - 1]);
      if Holds(d, a, state) {
        OpLeaves(d, ops[|ops| - 1], a, state);
      }
    }
  }

  /** So what a core has stored is kept until it is taken or handed up: after a store the line stays modified until an
      invalidation or downgrade of it comes or it is written back with its data. */
  lemma StoredUntilTold(c: L1, a: nat, env: Env, ops: seq<Op>)
    requires Ways(c) && forall n :: 0 <= n < |ops| ==> !Tells(ops[n], a)
    ensures Ways(Access(c, a, GETX, env).0)
    ensures var d := Access(c, a, GETX, env).0; Holds(Run(d, ops).0, a, M) || Ask(a, PUTX) in Run(d, ops).1
  {
    var r := Room(c, a, env);
    RoomWays(c, a, env);
    RoomHasPlace(c, a, env);
    PermitLeaves(r.0, a, r.1, GETX, env);
    DoWays(c, Writes(a, env));
    StaysUntilTold(Access(c, a, GETX, env).0, ops, a, M);
  }
}
