/** The barrier: threads take turns in the order of a run list, at most `limit` at a time, and a phase ends when
    all have had their turn. Every operation runs under the scheduler lock, so it is one step. */
module PhaseBarrier {

  datatype State = OFFLINE | WAITING | RUNNING | LEFT

  datatype Info = Info(state: State, futexWord: nat, lastIdx: nat)

  /** What the barrier knows. `ran` holds the threads that have had their turn in this phase, and `strays` those that
      have joined again at another place than the one they believed to be at; these two only serve to explain the
      rest. */
  datatype View = View(info: seq<Info>, list: seq<nat>, cur: nat, running: nat, left: nat, phases: nat,
                       ran: set<nat>, strays: set<nat>)

  ghost function With(info: seq<Info>, s: State): set<nat> {
    set t: nat | t < |info| && info[t].state == s
  }

  ghost predicate NoRepeats(list: seq<nat>) {
    forall i, j :: 0 <= i < j < |list| ==> list[i] != list[j]
  }

  /** The run list holds exactly the threads that are not OFFLINE, once each. */
  ghost predicate ListedIn(info: seq<Info>, list: seq<nat>) {
    && NoRepeats(list)
    && (forall i :: 0 <= i < |list| ==> list[i] < |info| && info[list[i]].state != OFFLINE)
    && (forall t :: 0 <= t < |info| && info[t].state != OFFLINE ==> t in list)
  }

  /** Nobody runs before its turn, and whoever waits after its turn has run in this phase. */
  ghost predicate TurnsIn(info: seq<Info>, list: seq<nat>, cur: nat, ran: set<nat>) {
    && cur <= |list|
    && (forall i :: cur <= i < |list| ==> list[i] < |info| && info[list[i]].state != RUNNING)
    && (forall i :: 0 <= i < cur ==> list[i] < |info| && (info[list[i]].state != LEFT ==> list[i] in ran))
  }

  /** A waiting thread sleeps until it is woken: its word is 1; a running one does not: its word is 0. */
  ghost predicate WakeableIn(info: seq<Info>) {
    forall t :: 0 <= t < |info| ==>
      (info[t].state == WAITING ==> info[t].futexWord == 1) && (info[t].state == RUNNING ==> info[t].futexWord == 0)
  }

  /** The thread's lastIdx is its place in the run list. */
  predicate AtPlace(info: seq<Info>, list: seq<nat>, t: nat) {
    t < |info| && info[t].lastIdx < |list| && list[info[t].lastIdx] == t
  }

  /** Every thread in state `s` knows its place. */
  ghost predicate PlacedIn(info: seq<Info>, list: seq<nat>, s: State) {
    forall t: nat :: t < |info| && info[t].state == s ==> AtPlace(info, list, t)
  }

  ghost predicate Listed(v: View) {
    ListedIn(v.info, v.list)
  }

  /** The counters count. */
  ghost predicate Counted(v: View) {
    v.running == |With(v.info, RUNNING)| && v.left == |With(v.info, LEFT)|
  }

  ghost predicate Turns(v: View) {
    TurnsIn(v.info, v.list, v.cur, v.ran + v.strays)
  }

  ghost predicate Wakeable(v: View) {
    WakeableIn(v.info)
  }

  ghost predicate Placed(v: View) {
    PlacedIn(v.info, v.list, RUNNING)
  }

  /** Whoever has left knows its place, and nobody has strayed. This is not part of the invariant: see Leave. */
  ghost predicate Orderly(v: View) {
    PlacedIn(v.info, v.list, LEFT) && v.strays == {}
  }

  /** A thread that knows its place goes on knowing it until it goes off line. */
  ghost predicate KeepsPlaces(v: View, u: View) {
    |u.info| == |v.info| &&
    forall t: nat :: AtPlace(v.info, v.list, t) && u.info[t].state != OFFLINE ==> AtPlace(u.info, u.list, t)
  }

  ghost predicate KeepsOrder(v: View, u: View) {
    (Orderly(v) ==> Orderly(u)) && KeepsPlaces(v, u)
  }

  ghost predicate Inv(v: View) {
    Listed(v) && Counted(v) && Turns(v) && Wakeable(v) && Placed(v)
  }

  ghost predicate SomeoneWaits(v: View) {
    exists t :: 0 <= t < |v.info| && v.info[t].state == WAITING
  }

  /** Some thread waits for its turn in this phase. */
  ghost predicate SomeoneDue(v: View) {
    exists i :: v.cur <= i < |v.list| && v.list[i] < |v.info| && v.info[v.list[i]].state == WAITING
  }

  // ----- counting -----

  /** Setting one thread's entry moves that thread from one set to another. */
  lemma WithUpdate(info: seq<Info>, t: nat, x: Info, s: State)
    requires t < |info|
    ensures With(info[t := x], s) == if x.state == s then With(info, s) + {t} else With(info, s) - {t}
    ensures t in With(info, s) <==> info[t].state == s
  {
  }

  lemma CountUpdate(info: seq<Info>, t: nat, x: Info, s: State)
    requires t < |info|
    ensures |With(info[t := x], s)| ==
            |With(info, s)| + (if x.state == s then 1 else 0) - (if info[t].state == s then 1 else 0)
  {
    WithUpdate(info, t, x, s);
    var c := With(info, s);
    if info[t].state == s {
      assert c + {t} == c;
    } else {
      assert c - {t} == c;
    }
  }

  // ----- what the operations do to the view -----

  /** The thread whose turn it is wakes up. */
  function Wake(v: View): View
    requires v.cur < |v.list| && v.list[v.cur] < |v.info|
  {
    var t := v.list[v.cur];
    v.(info := v.info[t := Info(RUNNING, 0, v.cur)], cur := v.cur + 1, running := v.running + 1,
       ran := v.ran + {t})
  }

  /** The thread whose turn it is waits, and wakes up; or it has left, and is skipped. */
  function NextTurn(v: View): View
    requires v.cur < |v.list| && v.list[v.cur] < |v.info|
  {
    if v.info[v.list[v.cur]].state == WAITING then Wake(v) else v.(cur := v.cur + 1)
  }

  lemma WakeListed(v: View)
    requires Listed(v) && Wakeable(v) && v.cur < |v.list| && v.info[v.list[v.cur]].state == WAITING
    ensures Listed(Wake(v)) && Wakeable(Wake(v))
  {
  }

  lemma WakeTurns(v: View)
    requires Listed(v) && Turns(v) && v.cur < |v.list| && v.info[v.list[v.cur]].state == WAITING
    ensures Turns(Wake(v))
  {
    assert forall i :: 0 <= i < |v.list| && i != v.cur ==> v.list[i] != v.list[v.cur];
  }

  lemma WakePlaced(v: View)
    requires Listed(v) && Placed(v) && v.cur < |v.list| && v.info[v.list[v.cur]].state == WAITING
    ensures Placed(Wake(v)) && KeepsOrder(v, Wake(v))
  {
  }

  lemma NextTurnInv(v: View)
    requires Inv(v) && v.cur < |v.list|
    ensures Inv(NextTurn(v)) && KeepsOrder(v, NextTurn(v))
  {
    var t := v.list[v.cur];
    if v.info[t].state == WAITING {
      WakeListed(v);
      WakeTurns(v);
      WakePlaced(v);
      CountUpdate(v.info, t, Info(RUNNING, 0, v.cur), RUNNING);
      CountUpdate(v.info, t, Info(RUNNING, 0, v.cur), LEFT);
    }
  }

  /** A running thread stops, to wait or to leave. */
  function Stop(v: View, t: nat, s: State, word: nat): View
    requires t < |v.info| && v.running > 0
  {
    v.(info := v.info[t := v.info[t].(state := s, futexWord := word)], running := v.running - 1,
       left := if s == LEFT then v.left + 1 else v.left)
  }

  lemma RunningPositive(v: View, t: nat)
    requires Counted(v) && t < |v.info| && v.info[t].state == RUNNING
    ensures v.running > 0
  {
    assert t in With(v.info, RUNNING);
  }

  lemma StopInv(v: View, t: nat, s: State, word: nat)
    requires Inv(v) && t < |v.info| && v.info[t].state == RUNNING && v.running > 0
    requires (s == WAITING && word == 1) || s == LEFT
    ensures Inv(Stop(v, t, s, word))
  {
    var x := v.info[t].(state := s, futexWord := word);
    CountUpdate(v.info, t, x, RUNNING);
    CountUpdate(v.info, t, x, LEFT);
  }

  /** Order is kept, because a running thread knows its place. */
  lemma StopOrder(v: View, t: nat, s: State, word: nat)
    requires Placed(v) && t < |v.info| && v.info[t].state == RUNNING && v.running > 0
    ensures KeepsOrder(v, Stop(v, t, s, word))
  {
    assert AtPlace(v.info, v.list, t);
  }

  /** A waiting thread leaves. */
  function LeaveWaiting(v: View, t: nat): View
    requires t < |v.info|
  {
    v.(info := v.info[t := v.info[t].(state := LEFT)], left := v.left + 1)
  }

  lemma LeaveWaitingInv(v: View, t: nat)
    requires Inv(v) && t < |v.info| && v.info[t].state == WAITING
    ensures Inv(LeaveWaiting(v, t))
  {
    CountUpdate(v.info, t, v.info[t].(state := LEFT), RUNNING);
    CountUpdate(v.info, t, v.info[t].(state := LEFT), LEFT);
  }

  /** When a waiting thread leaves, order is kept just when the thread knows its place. */
  lemma LeaveWaitingOrder(v: View, t: nat)
    requires t < |v.info| && v.info[t].state == WAITING
    ensures Orderly(LeaveWaiting(v, t)) <==> Orderly(v) && AtPlace(v.info, v.list, t)
  {
    var u := LeaveWaiting(v, t);
    assert forall w: nat :: w < |v.info| ==> (AtPlace(u.info, u.list, w) <==> AtPlace(v.info, v.list, w));
    assert u.info[t].state == LEFT;
    assert forall w: nat :: w < |v.info| && w != t ==> u.info[w] == v.info[w];
  }

  /** A new thread waits at the end of the list. */
  function JoinFresh(v: View, t: nat): View
    requires t < |v.info|
  {
    v.(list := v.list + [t], info := v.info[t := v.info[t].(state := WAITING, futexWord := 1)])
  }

  lemma JoinFreshListed(v: View, t: nat)
    requires Listed(v) && Wakeable(v) && t < |v.info| && v.info[t].state == OFFLINE
    ensures Listed(JoinFresh(v, t)) && Wakeable(JoinFresh(v, t)) && t !in v.list
  {
    var w := JoinFresh(v, t);
    assert w.list[|v.list|] == t;
    forall u | 0 <= u < |w.info| && w.info[u].state != OFFLINE
      ensures u in w.list
    {
      if u != t {
        assert u in v.list;
      }
    }
  }

  lemma JoinFreshTurns(v: View, t: nat)
    requires Turns(v) && Placed(v) && t < |v.info| && t !in v.list
    ensures Turns(JoinFresh(v, t)) && Placed(JoinFresh(v, t)) && KeepsOrder(v, JoinFresh(v, t))
  {
    assert forall i :: 0 <= i < |v.list| ==> v.list[i] != t;
  }

  lemma JoinFreshInv(v: View, t: nat)
    requires Inv(v) && t < |v.info| && v.info[t].state == OFFLINE
    ensures Inv(JoinFresh(v, t)) && SomeoneDue(JoinFresh(v, t)) && KeepsOrder(v, JoinFresh(v, t))
  {
    var x := v.info[t].(state := WAITING, futexWord := 1);
    CountUpdate(v.info, t, x, RUNNING);
    CountUpdate(v.info, t, x, LEFT);
    JoinFreshListed(v, t);
    JoinFreshTurns(v, t);
    assert JoinFresh(v, t).list[|v.list|] == t;
  }

  /** Two places of the run list have been exchanged, and the two threads know their new places. */
  ghost predicate Swapped(info: seq<Info>, list: seq<nat>, info': seq<Info>, list': seq<nat>, i: nat, j: nat) {
    && i < |list| && j < |list| && |list'| == |list| && |info'| == |info|
    && (forall k :: 0 <= k < |list| ==> list'[k] == list[if k == i then j else if k == j then i else k])
    && (forall t :: 0 <= t < |info| ==> info'[t].state == info[t].state && info'[t].futexWord == info[t].futexWord)
    && (forall t :: 0 <= t < |info| && t != list[i] && t != list[j] ==> info'[t] == info[t])
    && list[i] < |info| && list[j] < |info| && info'[list[i]].lastIdx == j && info'[list[j]].lastIdx == i
  }

  lemma SwapListed(info: seq<Info>, list: seq<nat>, info': seq<Info>, list': seq<nat>, i: nat, j: nat)
    requires ListedIn(info, list) && WakeableIn(info) && Swapped(info, list, info', list', i, j)
    ensures ListedIn(info', list') && WakeableIn(info')
  {
    forall t | 0 <= t < |info| && info[t].state != OFFLINE
      ensures t in list'
    {
      var k :| 0 <= k < |list| && list[k] == t;
      assert list'[if k == i then j else if k == j then i else k] == t;
    }
  }

  lemma SwapPlaced(info: seq<Info>, list: seq<nat>, info': seq<Info>, list': seq<nat>, i: nat, j: nat, s: State)
    requires ListedIn(info, list) && PlacedIn(info, list, s) && Swapped(info, list, info', list', i, j)
    ensures PlacedIn(info', list', s)
  {
    forall t: nat | t < |info'| && info'[t].state == s
      ensures AtPlace(info', list', t)
    {
      assert AtPlace(info, list, t);
      var k := info[t].lastIdx;
      if k != i && k != j {
        assert list'[k] == list[k] && info'[t] == info[t];
      }
    }
  }

  lemma SwapOrder(v: View, u: View, i: nat, j: nat)
    requires Listed(v) && Swapped(v.info, v.list, u.info, u.list, i, j) && u.strays == v.strays
    ensures KeepsOrder(v, u)
  {
    if Orderly(v) {
      SwapPlaced(v.info, v.list, u.info, u.list, i, j, LEFT);
    }
  }

  lemma SwapCounted(info: seq<Info>, list: seq<nat>, info': seq<Info>, list': seq<nat>, i: nat, j: nat)
    requires Swapped(info, list, info', list', i, j)
    ensures forall s :: With(info', s) == With(info, s)
  {
  }

  /** The turns after a returning thread has been put next. */
  lemma SwapTurns(info: seq<Info>, list: seq<nat>, info': seq<Info>, list': seq<nat>, k: nat, cur: nat, ran: set<nat>)
    requires TurnsIn(info, list, cur, ran) && k < cur && info[list[k]].state == LEFT
    requires Swapped(info, list, info', list', k, cur - 1)
    ensures TurnsIn(info', list', cur - 1, ran)
  {
    assert list'[cur - 1] == list[k];
  }

  /** A thread that left and that the list has passed changes places so as to be next. */
  ghost predicate Requeued(v: View, u: View, k: nat) {
    && 0 < v.cur && Swapped(v.info, v.list, u.info, u.list, k, v.cur - 1)
    && u.cur == v.cur - 1 && u.running == v.running && u.left == v.left && u.phases == v.phases
    && u.ran == v.ran && u.strays == v.strays
  }

  lemma RequeueInv(v: View, u: View, k: nat)
    requires Inv(v) && Requeued(v, u, k) && k < v.cur <= |v.list|
    requires v.list[k] < |v.info| && v.info[v.list[k]].state == LEFT
    ensures Inv(u) && KeepsOrder(v, u)
  {
    var j := v.cur - 1;
    SwapListed(v.info, v.list, u.info, u.list, k, j);
    SwapPlaced(v.info, v.list, u.info, u.list, k, j, RUNNING);
    SwapOrder(v, u, k, j);
    assert Counted(u) by {
      SwapCounted(v.info, v.list, u.info, u.list, k, j);
    }
    SwapTurns(v.info, v.list, u.info, u.list, k, v.cur, v.ran + v.strays);
  }

  /** A thread that left waits again. */
  function Return(v: View, t: nat): View
    requires t < |v.info| && v.left > 0
  {
    v.(info := v.info[t := v.info[t].(state := WAITING, futexWord := 1)], left := v.left - 1)
  }

  /** The same for a thread whose turn is thought to come but may have passed. */
  function Stray(v: View, t: nat): View
    requires t < |v.info| && v.left > 0
  {
    Return(v, t).(strays := v.strays + {t})
  }

  lemma ReturnCounted(v: View, t: nat)
    requires Listed(v) && Wakeable(v) && Counted(v) && t < |v.info| && v.info[t].state == LEFT && v.left > 0
    ensures Listed(Return(v, t)) && Wakeable(Return(v, t)) && Counted(Return(v, t))
  {
    var x := v.info[t].(state := WAITING, futexWord := 1);
    CountUpdate(v.info, t, x, RUNNING);
    CountUpdate(v.info, t, x, LEFT);
  }

  lemma ReturnInv(v: View, t: nat)
    requires Inv(v) && t < |v.info| && v.info[t].state == LEFT && v.left > 0
    requires exists i :: v.cur <= i < |v.list| && v.list[i] == t
    ensures Inv(Return(v, t)) && SomeoneDue(Return(v, t)) && KeepsOrder(v, Return(v, t))
  {
    ReturnCounted(v, t);
    var i :| v.cur <= i < |v.list| && v.list[i] == t;
    assert Return(v, t).list[i] == t;
  }

  lemma StrayInv(v: View, t: nat)
    requires Inv(v) && t < |v.info| && v.info[t].state == LEFT && v.left > 0
    ensures Inv(Stray(v, t))
  {
    ReturnCounted(v, t);
  }

  // ----- giving turns -----

  predicate WellListed(v: View) {
    v.cur <= |v.list| && forall i :: 0 <= i < |v.list| ==> v.list[i] < |v.info|
  }

  /** Gives turns as long as fewer than `limit` threads run and the list is not at its end. */
  function CheckRun(v: View, limit: nat): View
    requires WellListed(v)
    decreases |v.list| - v.cur
  {
    if v.running < limit && v.cur < |v.list| then CheckRun(NextTurn(v), limit) else v
  }

  lemma NextTurnDue(v: View)
    requires Inv(v) && v.cur < |v.list|
    ensures SomeoneDue(v) ==> NextTurn(v).running > 0 || SomeoneDue(NextTurn(v))
    ensures !SomeoneDue(v) ==>
              NextTurn(v).info == v.info && NextTurn(v).running == v.running && !SomeoneDue(NextTurn(v))
  {
    var u := NextTurn(v);
    if v.info[v.list[v.cur]].state != WAITING && SomeoneDue(v) {
      var i :| v.cur <= i < |v.list| && v.list[i] < |v.info| && v.info[v.list[i]].state == WAITING;
      assert u.cur <= i < |u.list| && u.info[u.list[i]].state == WAITING;
    }
  }

  /** Giving turns keeps the invariant and the limit, and stops only for the limit or at the end of the list. */
  lemma {:induction false} CheckRunInv(v: View, limit: nat)
    requires Inv(v) && v.running <= limit
    ensures var w := CheckRun(v, limit);
            && Inv(w) && w.running <= limit && (w.running == limit || w.cur == |w.list|)
            && w.list == v.list && w.left == v.left && w.phases == v.phases && |w.info| == |v.info|
            && v.running <= w.running
    decreases |v.list| - v.cur
  {
    if v.running < limit && v.cur < |v.list| {
      NextTurnInv(v);
      CheckRunInv(NextTurn(v), limit);
    }
  }

  lemma {:induction false} CheckRunOrder(v: View, limit: nat)
    requires Inv(v)
    ensures KeepsOrder(v, CheckRun(v, limit))
    decreases |v.list| - v.cur
  {
    if v.running < limit && v.cur < |v.list| {
      NextTurnInv(v);
      CheckRunOrder(NextTurn(v), limit);
    }
  }

  lemma CheckRunStep(v: View, limit: nat)
    requires Inv(v) && v.running < limit && v.cur < |v.list|
    ensures Inv(NextTurn(v)) && NextTurn(v).running <= limit && NextTurn(v).cur == v.cur + 1
    ensures KeepsOrder(v, NextTurn(v))
    ensures CheckRun(v, limit) == CheckRun(NextTurn(v), limit)
  {
    NextTurnInv(v);
  }

  /** If somebody was due, somebody runs afterwards; if nobody was due, only the place in the list changes. */
  lemma {:induction false} CheckRunDue(v: View, limit: nat)
    requires Inv(v) && v.running <= limit && limit > 0
    ensures SomeoneDue(v) ==> CheckRun(v, limit).running > 0
    ensures !SomeoneDue(v) ==> CheckRun(v, limit).info == v.info && CheckRun(v, limit).running == v.running
    decreases |v.list| - v.cur
  {
    if v.running < limit && v.cur < |v.list| {
      NextTurnInv(v);
      NextTurnDue(v);
      CheckRunDue(NextTurn(v), limit);
      CheckRunInv(NextTurn(v), limit);
    }
  }

  // ----- the end of a phase -----

  /** The list, and its members as a set. */
  ghost function Members(list: seq<nat>): set<nat> {
    set i | 0 <= i < |list| :: list[i]
  }

  lemma {:induction false} MembersCount(list: seq<nat>)
    requires NoRepeats(list)
    ensures |Members(list)| == |list|
  {
    if list != [] {
      var prefix, last := list[..|list| - 1], list[|list| - 1];
      MembersCount(prefix);
      assert Members(list) == Members(prefix) + {last} by {
        forall i | 0 <= i < |list|
          ensures list[i] in Members(prefix) + {last}
        {
          assert i < |prefix| ==> prefix[i] == list[i];
        }
        forall i | 0 <= i < |prefix|
          ensures prefix[i] in Members(list)
        {
          assert list[i] == prefix[i];
        }
      }
      assert last !in Members(prefix);
    }
  }

  /** There is room for a thread that is not on the list. */
  lemma RoomFor(v: View, t: nat)
    requires Listed(v) && t < |v.info| && v.info[t].state == OFFLINE
    ensures |v.list| < |v.info|
  {
    MembersCount(v.list);
    var all := Indices(|v.info|);
    assert t in all && t !in Members(v.list);
    assert Members(v.list) <= all - {t};
    SubsetCount(Members(v.list), all - {t});
  }

  ghost function Indices(n: nat): (r: set<nat>)
    ensures |r| == n && forall i :: i in r <==> 0 <= i < n
  {
    if n == 0 then {} else Indices(n - 1) + {n - 1}
  }

  lemma SubsetCount<T>(a: set<T>, b: set<T>)
    requires a <= b
    ensures |a| <= |b|
    ensures |a| == |b| ==> a == b
  {
    assert |b| == |a| + |b - a| by {
      assert a + (b - a) == b && a !! (b - a);
    }
    if |b - a| == 0 {
      assert b - a == {};
    }
  }

  /** When nobody runs, everybody has left just when nobody waits. */
  lemma AllLeft(v: View)
    requires Inv(v) && v.running == 0
    ensures v.left == |v.list| <==> !SomeoneWaits(v)
  {
    MembersCount(v.list);
    var left := With(v.info, LEFT);
    assert With(v.info, RUNNING) == {};
    assert forall t :: 0 <= t < |v.info| && v.info[t].state == RUNNING ==> t in With(v.info, RUNNING);
    assert left <= Members(v.list);
    if !SomeoneWaits(v) {
      assert Members(v.list) <= left;
      assert Members(v.list) == left;
    } else {
      var t :| 0 <= t < |v.info| && v.info[t].state == WAITING;
      assert t in Members(v.list) && t !in left;
      if v.left == |v.list| {
        SubsetCount(left, Members(v.list));
      }
    }
  }

  /** When nobody runs and not everybody has left, the list is not empty. */
  lemma SomeoneListed(v: View)
    requires Inv(v) && v.running == 0 && v.left != |v.list|
    ensures |v.list| > 0
  {
    AllLeft(v);
    var t :| 0 <= t < |v.info| && v.info[t].state == WAITING;
    assert t in v.list;
  }

  /** A new phase begins: all turns are still to come. */
  function Rewind(v: View): View {
    v.(cur := 0, phases := v.phases + 1, ran := {}, strays := {})
  }

  lemma RewindInv(v: View)
    requires Inv(v) && v.running == 0
    ensures Inv(Rewind(v)) && (SomeoneWaits(v) ==> SomeoneDue(Rewind(v))) && KeepsOrder(v, Rewind(v))
  {
    assert forall t :: 0 <= t < |v.info| && v.info[t].state == RUNNING ==> t in With(v.info, RUNNING);
    if SomeoneWaits(v) {
      var t :| 0 <= t < |v.info| && v.info[t].state == WAITING;
      var i :| 0 <= i < |v.list| && v.list[i] == t;
      assert Rewind(v).list[i] == t;
    }
  }

  /** The thread at place `i` goes off line; the last thread of the list takes its place. */
  ghost predicate Removed(info: seq<Info>, list: seq<nat>, info': seq<Info>, list': seq<nat>, i: nat) {
    && i < |list| == |list'| + 1 && |info'| == |info|
    && (forall k :: 0 <= k < |list'| ==> list'[k] == list[if k == i then |list| - 1 else k])
    && list[i] < |info| && list[|list| - 1] < |info|
    && info'[list[i]].state == OFFLINE
    && (forall t :: 0 <= t < |info| && t != list[i] ==>
          info'[t].state == info[t].state && info'[t].futexWord == info[t].futexWord)
    && (forall t :: 0 <= t < |info| && t != list[i] && t != list[|list| - 1] ==> info'[t] == info[t])
    && (i < |list'| ==> info'[list[|list| - 1]].lastIdx == i)
  }

  lemma RemoveListed(info: seq<Info>, list: seq<nat>, info': seq<Info>, list': seq<nat>, i: nat)
    requires ListedIn(info, list) && WakeableIn(info) && Removed(info, list, info', list', i)
    ensures ListedIn(info', list') && WakeableIn(info')
  {
    forall t | 0 <= t < |info| && info'[t].state != OFFLINE
      ensures t in list'
    {
      assert t != list[i] && t in list;
      var k :| 0 <= k < |list| && list[k] == t;
      assert list'[if k == |list| - 1 then i else k] == t;
    }
  }

  lemma RemovePlaced(info: seq<Info>, list: seq<nat>, info': seq<Info>, list': seq<nat>, i: nat)
    requires ListedIn(info, list) && PlacedIn(info, list, RUNNING) && Removed(info, list, info', list', i)
    ensures PlacedIn(info', list', RUNNING)
  {
    forall t: nat | t < |info'| && info'[t].state == RUNNING
      ensures AtPlace(info', list', t)
    {
      assert t != list[i] && AtPlace(info, list, t);
      var k := info[t].lastIdx;
      if k != |list| - 1 {
        assert list'[k] == list[k] && info'[t] == info[t];
      }
    }
  }

  lemma RemoveCounted(info: seq<Info>, list: seq<nat>, info': seq<Info>, list': seq<nat>, i: nat)
    requires Removed(info, list, info', list', i) && info[list[i]].state == LEFT
    ensures With(info', RUNNING) == With(info, RUNNING)
    ensures |With(info', LEFT)| == |With(info, LEFT)| - 1
  {
    assert With(info', LEFT) == With(info, LEFT) - {list[i]};
    assert list[i] in With(info, LEFT);
  }

  ghost predicate Dropped(v: View, u: View, i: nat) {
    && Removed(v.info, v.list, u.info, u.list, i) && v.info[v.list[i]].state == LEFT
    && u.cur == v.cur == 0 && u.running == v.running && u.left == v.left - 1 && u.phases == v.phases
    && u.ran == v.ran && u.strays == v.strays
  }

  lemma DropInv(v: View, u: View, i: nat)
    requires Inv(v) && Dropped(v, u, i)
    ensures Inv(u)
  {
    RemoveListed(v.info, v.list, u.info, u.list, i);
    RemovePlaced(v.info, v.list, u.info, u.list, i);
    RemoveCounted(v.info, v.list, u.info, u.list, i);
    DropTurns(v.info, v.list, u.info, u.list, i);
  }

  lemma DropTurns(info: seq<Info>, list: seq<nat>, info': seq<Info>, list': seq<nat>, i: nat)
    requires TurnsIn(info, list, 0, {}) && Removed(info, list, info', list', i)
    ensures forall ran :: TurnsIn(info', list', 0, ran)
  {
  }

  ghost predicate Shuffled(v: View, u: View, i: nat, j: nat) {
    && Swapped(v.info, v.list, u.info, u.list, i, j)
    && u.cur == v.cur == 0 && u.running == v.running && u.left == v.left && u.phases == v.phases
    && u.ran == v.ran && u.strays == v.strays
  }

  lemma ShuffleInv(v: View, u: View, i: nat, j: nat)
    requires Inv(v) && Shuffled(v, u, i, j)
    ensures Inv(u) && KeepsOrder(v, u)
  {
    SwapListed(v.info, v.list, u.info, u.list, i, j);
    SwapPlaced(v.info, v.list, u.info, u.list, i, j, RUNNING);
    SwapOrder(v, u, i, j);
    assert Counted(u) by {
      SwapCounted(v.info, v.list, u.info, u.list, i, j);
    }
    ShuffleTurns(v.info, v.list, u.info, u.list, i, j);
  }

  lemma ShuffleTurns(info: seq<Info>, list: seq<nat>, info': seq<Info>, list': seq<nat>, i: nat, j: nat)
    requires TurnsIn(info, list, 0, {}) && Swapped(info, list, info', list', i, j)
    ensures forall ran :: TurnsIn(info', list', 0, ran)
  {
  }

  // ----- the barrier -----

  class Barrier {
    const limit: nat                 // how many threads may run at the same time
    const threadList: array<Info>
    const runList: array<nat>
    var runListSize: nat
    var curThreadIdx: nat
    var runningThreads: nat
    var leftThreads: nat
    var phaseCount: nat
    ghost var ran: set<nat>
    ghost var strays: set<nat>

    ghost predicate Shape()
      reads this
    {
      runListSize <= runList.Length == threadList.Length && limit > 0
    }

    ghost function V(): View
      requires Shape()
      reads this, threadList, runList
    {
      View(threadList[..], runList[..runListSize], curThreadIdx, runningThreads, leftThreads, phaseCount, ran, strays)
    }

    /** Between operations, at most `limit` threads run; if any thread waits then some thread runs; and as many run
        as may, unless all turns have been given. */
    ghost predicate Valid()
      reads this, threadList, runList
    {
      Shape() && Inv(V()) && Settled(V(), limit)
    }

    /** Nothing initializes the places: they are what the memory held. */
    constructor (limit: nat, maxThreads: nat, memory: nat -> nat)
      requires limit > 0
      ensures Valid() && fresh(threadList) && fresh(runList)
      ensures this.limit == limit && V() == Empty(maxThreads, memory)
    {
      this.limit := limit;
      threadList := new Info[maxThreads](i => Info(OFFLINE, 0, memory(i)));
      runList := new nat[maxThreads](i => 0);
      runListSize, curThreadIdx, runningThreads, leftThreads, phaseCount := 0, 0, 0, 0, 0;
      ran, strays := {}, {};
      new;
      assert V() == Empty(maxThreads, memory);
      assert With(threadList[..], RUNNING) == {} && With(threadList[..], LEFT) == {};
    }

    /** Gives turns. The panic "wakeup race" cannot happen: a waiting thread's word is 1. */
    method CheckRunList()
      requires Shape() && Inv(V()) && runningThreads <= limit
      modifies this`curThreadIdx, this`runningThreads, this`ran, threadList
      ensures Shape() && V() == CheckRun(old(V()), limit)
      ensures Inv(V()) && runningThreads <= limit && KeepsOrder(old(V()), V())
    {
      ghost var v0 := V();
      while runningThreads < limit && curThreadIdx < runListSize
        invariant Inv(V()) && runningThreads <= limit && KeepsOrder(v0, V())
        invariant CheckRun(V(), limit) == CheckRun(v0, limit)
        decreases runListSize - curThreadIdx
      {
        CheckRunStep(V(), limit);
        GiveTurn();
      }
    }

    method GiveTurn()
      requires Shape() && Inv(V()) && curThreadIdx < runListSize
      modifies this`curThreadIdx, this`runningThreads, this`ran, threadList
      ensures V() == NextTurn(old(V()))
    {
      ghost var v := V();
      assert v.list[v.cur] < |v.info|;
      var idx := curThreadIdx;
      curThreadIdx := curThreadIdx + 1;
      var wtid := runList[idx];
      if threadList[wtid].state == WAITING {
        assert v.info[wtid].futexWord == 1;
        threadList[wtid] := Info(RUNNING, 0, idx);
        runningThreads := runningThreads + 1;
        ran := ran + {wtid};
        assert threadList[..] == v.info[wtid := Info(RUNNING, 0, idx)];
      }
    }

    /** Wakes whoever may run, ends the phase if it is over, and then wakes whoever may run in the new one. */
    method TryWakeNext()
      requires Shape() && Inv(V()) && runningThreads <= limit
      modifies this, threadList, runList
      ensures Valid() && WokeNext(old(V()), V(), limit)
    {
      ghost var v := V();
      CheckRunList();
      ghost var c := V();
      CheckEndPhase();
      ghost var e := V();
      CheckRunList();
      WokeNextHolds(v, c, e, limit);
    }

    /** A thread joins: a new one at the end of the list, one that had left at its place or, if its turn has passed,
        next. `ok` is the assertion on the place; when it fails, the simulator stops. A join ends a phase exactly if
        nobody runs and the thread takes its place to be beyond the list. */
    method Join(tid: nat) returns (ok: bool)
      requires Valid() && tid < threadList.Length && threadList[tid].state in {OFFLINE, LEFT}
      modifies this, threadList, runList
      ensures Valid() && KeepsOrder(old(V()), V())
      ensures ok <==> !Misplaced(old(V()), tid)
      ensures Orderly(old(V())) ==> ok
      ensures !ok ==> V() == old(V())
      ensures phaseCount == old(phaseCount) + if old(EndsByJoin(tid)) then 1 else 0
      ensures old(threadList[tid].state) == OFFLINE ==> V() == CheckRun(JoinFresh(old(V()), tid), limit)
      ensures ok && (old(threadList[tid].state) == LEFT ==> AtPlace(old(V()).info, old(V()).list, tid)) ==>
                Joined(old(V()), V(), tid)
      ensures ok && old(threadList[tid].state) == LEFT && !AtPlace(old(V()).info, old(V()).list, tid) ==>
                old(leftThreads) > 0 && WokeNext(Stray(old(V()), tid), V(), limit)
    {
      ghost var v := V();
      ok := true;
      if threadList[tid].state == OFFLINE {
        Append(tid);
        ghost var j := V();
        TryWakeNext();
        JoinedHolds(v, j, V(), tid, limit);
        KeepsOrderOn(v, j, V());
      } else {
        assert AtPlace(v.info, v.list, tid) <==>
               threadList[tid].lastIdx < runListSize && runList[threadList[tid].lastIdx] == tid;
        ok := curThreadIdx <= threadList[tid].lastIdx || tid == runList[threadList[tid].lastIdx];
        if ok {
          JoinAgain(tid);
        }
      }
    }

    predicate EndsByJoin(tid: nat)
      requires tid < threadList.Length
      reads this`runningThreads, this`runListSize, threadList
    {
      threadList[tid].state == LEFT && runningThreads == 0 && threadList[tid].lastIdx >= runListSize
    }

    method JoinAgain(tid: nat)
      requires Valid() && tid < threadList.Length && threadList[tid].state == LEFT && !Misplaced(V(), tid)
      modifies this, threadList, runList
      ensures Valid() && KeepsOrder(old(V()), V())
      ensures phaseCount == old(phaseCount) + if old(EndsByJoin(tid)) then 1 else 0
      ensures AtPlace(old(V()).info, old(V()).list, tid) ==> Joined(old(V()), V(), tid)
      ensures !AtPlace(old(V()).info, old(V()).list, tid) ==>
                old(leftThreads) > 0 && WokeNext(Stray(old(V()), tid), V(), limit)
    {
      ghost var v := V();
      Reschedule(tid);
      ghost var j := V();
      TryWakeNext();
      KeepsOrderOn(v, j, V());
      if AtPlace(v.info, v.list, tid) {
        JoinedHolds(v, j, V(), tid, limit);
      } else {
        StrayEnds(v, tid, limit);
      }
    }

    method Append(tid: nat)
      requires Shape() && Inv(V()) && tid < threadList.Length && threadList[tid].state == OFFLINE
      modifies this`runListSize, threadList, runList
      ensures Shape() && Inv(V()) && Entered(old(V()), V(), tid) && V() == JoinFresh(old(V()), tid)
      ensures KeepsOrder(old(V()), V())
    {
      FreshEntered(V(), tid);
      PutLast(tid);
    }

    method PutLast(tid: nat)
      requires Shape() && runListSize < runList.Length && tid < threadList.Length
      modifies this`runListSize, threadList, runList
      ensures Shape() && V() == JoinFresh(old(V()), tid)
    {
      ghost var v := V();
      runList[runListSize] := tid;
      runListSize := runListSize + 1;
      threadList[tid] := threadList[tid].(state := WAITING, futexWord := 1);
      assert V() == JoinFresh(v, tid);
    }

    method Reschedule(tid: nat)
      requires Shape() && Inv(V()) && tid < threadList.Length && threadList[tid].state == LEFT
      requires !Misplaced(V(), tid)
      modifies this`leftThreads, this`curThreadIdx, this`strays, threadList, runList
      ensures Shape() && Inv(V()) && KeepsOrder(old(V()), V()) && runningThreads == old(runningThreads)
      ensures AtPlace(old(V()).info, old(V()).list, tid) ==> Entered(old(V()), V(), tid)
      ensures !AtPlace(old(V()).info, old(V()).list, tid) ==>
                old(leftThreads) > 0 && V() == Stray(old(V()), tid)
    {
      ghost var v := V();
      if curThreadIdx > threadList[tid].lastIdx {
        Requeue(tid);
      }
      ghost var u := V();
      if AtPlace(v.info, v.list, tid) {
        RescheduledHolds(v, u, tid);
      } else {
        LeftPositive(v, tid);
        StrayInv(v, tid);
        strays := strays + {tid};
      }
      Readmit(tid);
    }

    method Readmit(tid: nat)
      requires Shape() && tid < threadList.Length && leftThreads > 0
      modifies this`leftThreads, threadList
      ensures Shape() && V() == Return(old(V()), tid)
    {
      ghost var u := V();
      leftThreads := leftThreads - 1;
      threadList[tid] := threadList[tid].(state := WAITING, futexWord := 1);
      assert V() == Return(u, tid);
    }

    /** A thread that left and whose turn has passed becomes the next of the list. */
    method Requeue(tid: nat)
      requires Shape() && Listed(V()) && tid < threadList.Length && threadList[tid].state == LEFT
      requires threadList[tid].lastIdx < curThreadIdx <= runListSize && AtPlace(V().info, V().list, tid)
      modifies this`curThreadIdx, threadList, runList
      ensures Shape() && Requeued(old(V()), V(), old(threadList[tid].lastIdx))
    {
      ghost var v := V();
      var lastIdx := threadList[tid].lastIdx;
      curThreadIdx := curThreadIdx - 1;
      assert tid == runList[lastIdx] == v.list[lastIdx];
      assert runList[curThreadIdx] == v.list[curThreadIdx];
      SwapPlaces(lastIdx, curThreadIdx);
    }

    /** A thread leaves, while it runs or while it waits. A running thread knows its place. A thread that joined while
        OFFLINE and has not been woken since may not know its own: whoever has left then knows its place afterwards
        just when this thread does. */
    method Leave(tid: nat)
      requires Valid() && tid < threadList.Length && threadList[tid].state in {RUNNING, WAITING}
      modifies this, threadList, runList
      ensures Valid()
      ensures old(threadList[tid].state) == WAITING ==>
                && V() == LeaveWaiting(old(V()), tid)
                && (Orderly(V()) <==> Orderly(old(V())) && AtPlace(old(V()).info, old(V()).list, tid))
      ensures old(threadList[tid].state) == RUNNING ==>
                && old(runningThreads) > 0 && KeepsOrder(old(V()), V())
                && WokeNext(Stop(old(V()), tid, LEFT, old(threadList[tid].futexWord)), V(), limit)
    {
      if threadList[tid].state == RUNNING {
        LeaveRunning(tid);
      } else {
        ghost var v := V();
        LeaveWaitingInv(v, tid);
        LeaveWaitingOrder(v, tid);
        threadList[tid] := threadList[tid].(state := LEFT);
        leftThreads := leftThreads + 1;
        assert V() == LeaveWaiting(v, tid);
      }
    }

    method LeaveRunning(tid: nat)
      requires Valid() && tid < threadList.Length && threadList[tid].state == RUNNING
      modifies this, threadList, runList
      ensures Valid() && old(runningThreads) > 0 && KeepsOrder(old(V()), V())
      ensures WokeNext(Stop(old(V()), tid, LEFT, old(threadList[tid].futexWord)), V(), limit)
    {
      ghost var v := V();
      RunningPositive(v, tid);
      StopInv(v, tid, LEFT, threadList[tid].futexWord);
      StopOrder(v, tid, LEFT, threadList[tid].futexWord);
      threadList[tid] := threadList[tid].(state := LEFT);
      leftThreads := leftThreads + 1;
      runningThreads := runningThreads - 1;
      ghost var j := Stop(v, tid, LEFT, v.info[tid].futexWord);
      assert V() == j;
      TryWakeNext();
      KeepsOrderOn(v, j, V());
    }

    /** A running thread has reached the barrier and waits for its turn in the next phase. */
    method Sync(tid: nat)
      requires Valid() && tid < threadList.Length && threadList[tid].state == RUNNING
      modifies this, threadList, runList
      ensures Valid() && old(runningThreads) > 0 && KeepsOrder(old(V()), V())
      ensures WokeNext(Stop(old(V()), tid, WAITING, 1), V(), limit)
    {
      ghost var v := V();
      RunningPositive(v, tid);
      StopInv(v, tid, WAITING, 1);
      StopOrder(v, tid, WAITING, 1);
      threadList[tid] := threadList[tid].(state := WAITING, futexWord := 1);
      runningThreads := runningThreads - 1;
      ghost var j := Stop(v, tid, WAITING, 1);
      assert V() == j;
      TryWakeNext();
      KeepsOrderOn(v, j, V());
    }

    /** The view while the run list is being cleaned up: its first `size` places count, and `left` threads have left. */
    ghost function W(size: nat, left: nat): View
      requires size <= runList.Length
      reads this, threadList, runList
    {
      View(threadList[..], runList[..size], curThreadIdx, runningThreads, left, phaseCount, ran, strays)
    }

    /** Ends the phase if all turns have been given and nobody runs, unless everybody has left. */
    method CheckEndPhase()
      requires Shape() && Inv(V())
      modifies this, threadList, runList
      ensures Shape() && Inv(V())
      ensures if EndsNow(old(V())) then PhaseEnded(old(V()), V()) else V() == old(V())
    {
      if curThreadIdx == runListSize && runningThreads == 0 {
        if leftThreads == runListSize {
          return;
        }
        EndPhase();
      }
    }

    method EndPhase()
      requires Shape() && Inv(V()) && EndsNow(V())
      modifies this, threadList, runList
      ensures Shape() && Inv(V()) && PhaseEnded(old(V()), V())
    {
      ghost var v := V();
      NewPhase();
      ghost var r := V();
      if (phaseCount - 1) % 32 == 0 {
        Cleanup();
      }
      ghost var k := V();
      if limit < runListSize {
        Shuffle();
      }
      PhaseEndedHolds(v, r, k, V());
    }

    method NewPhase()
      requires Shape() && Inv(V()) && EndsNow(V())
      modifies this`curThreadIdx, this`phaseCount, this`ran, this`strays
      ensures Shape() && Inv(V()) && V() == Rewind(old(V())) && runListSize > 0 && KeepsOrder(old(V()), V())
    {
      ghost var v := V();
      SomeoneListed(v);
      RewindInv(v);
      curThreadIdx := 0;
      phaseCount := phaseCount + 1;
      ran, strays := {}, {};
      assert V() == Rewind(v);
    }

    /** Takes the threads that have left off the list. */
    method Cleanup()
      requires Shape() && Inv(V()) && curThreadIdx == 0 && runningThreads == 0
      modifies this`runListSize, this`leftThreads, threadList, runList
      ensures Shape() && Inv(V()) && Cleaned(old(V()), V())
    {
      ghost var v := V();
      var idx: nat, newSize: nat := 0, runListSize;
      ghost var left: nat := leftThreads;
      while idx < newSize
        invariant idx <= newSize <= runListSize <= runList.Length == threadList.Length
        invariant left + (runListSize - newSize) == leftThreads
        invariant CleanUpTo(v, W(newSize, left), idx)
        decreases newSize - idx
      {
        ghost var w := W(newSize, left);
        idx, newSize, left := CleanPlace(idx, newSize, left);
        CleanOn(v, w, W(newSize, left), idx);
      }
      NobodyLeft(W(newSize, left));
      assert runListSize - newSize == leftThreads;
      leftThreads := 0;
      runListSize := newSize;
      assert V() == W(newSize, 0);
    }

    /** One turn of the clean-up: the thread at `idx` goes off line if it has left. */
    method CleanPlace(idx: nat, newSize: nat, ghost left: nat) returns (idx': nat, newSize': nat, ghost left': nat)
      requires idx < newSize <= runList.Length == threadList.Length && curThreadIdx == 0
      requires Inv(W(newSize, left)) && NoneLeft(W(newSize, left).info, W(newSize, left).list, idx)
      modifies threadList, runList
      ensures idx' <= newSize' <= newSize && newSize' - idx' == newSize - idx - 1
      ensures left' + (newSize - newSize') == left
      ensures CleanUpTo(old(W(newSize, left)), W(newSize', left'), idx')
    {
      ghost var v := W(newSize, left);
      var wtid := runList[idx];
      assert v.list[idx] == wtid;
      if threadList[wtid].state == LEFT {
        TakeOff(idx, newSize, left);
        idx', newSize', left' := idx, newSize - 1, left - 1;
      } else {
        PassedOk(v, idx);
        idx', newSize', left' := idx + 1, newSize, left;
      }
    }

    method TakeOff(idx: nat, newSize: nat, ghost left: nat)
      requires idx < newSize <= runList.Length == threadList.Length && curThreadIdx == 0
      requires Inv(W(newSize, left)) && NoneLeft(W(newSize, left).info, W(newSize, left).list, idx)
      requires runList[idx] < threadList.Length && threadList[runList[idx]].state == LEFT
      modifies threadList, runList
      ensures left > 0 && CleanUpTo(old(W(newSize, left)), W(newSize - 1, left - 1), idx)
    {
      ghost var v := W(newSize, left);
      PlacesDiffer(v, idx);
      assert v.list[idx] == runList[idx] && v.list[newSize - 1] == runList[newSize - 1];
      DropPlace(idx, newSize);
      DroppedOk(v, W(newSize - 1, left - 1), idx);
    }

    method DropPlace(idx: nat, size: nat)
      requires idx < size <= runList.Length == threadList.Length
      requires runList[idx] < threadList.Length && runList[size - 1] < threadList.Length
      requires runList[idx] == runList[size - 1] ==> idx == size - 1
      modifies threadList, runList
      ensures Removed(old(threadList[..]), old(runList[..size]), threadList[..], runList[..size - 1], idx)
    {
      var wtid := runList[idx];
      threadList[wtid] := threadList[wtid].(state := OFFLINE);
      var stid := runList[size - 1];
      runList[idx] := stid;
      threadList[stid] := threadList[stid].(lastIdx := idx);
    }

    /** A random permutation of the run list: any permutation that swaps can produce. */
    method Shuffle()
      requires Shape() && Inv(V()) && curThreadIdx == 0 && runListSize > 0
      modifies threadList, runList
      ensures Shape() && Inv(V()) && Reordered(old(V()), V())
    {
      ghost var v0 := V();
      var i := runListSize - 1;
      while i > 0
        invariant 0 <= i < runListSize <= runList.Length && Inv(V())
        invariant Reordered(v0, V())
      {
        var j: nat :| j <= i;
        ghost var v := V();
        SwapPlaces(i, j);
        ShuffleInv(v, V(), i, j);
        i := i - 1;
      }
    }

    method SwapPlaces(i: nat, j: nat)
      requires Shape() && i < runListSize && j < runListSize
      requires runList[i] < threadList.Length && runList[j] < threadList.Length
      requires runList[i] == runList[j] ==> i == j
      modifies threadList, runList
      ensures Swapped(old(V()).info, old(V()).list, V().info, V().list, i, j)
    {
      var itid, jtid := runList[i], runList[j];
      runList[i] := jtid;
      runList[j] := itid;
      threadList[itid] := threadList[itid].(lastIdx := j);
      threadList[jtid] := threadList[jtid].(lastIdx := i);
    }
  }

  // Whether a phase ends, and how states may change when it does.

  ghost predicate EndsNow(v: View) {
    v.cur == |v.list| && v.running == 0 && v.left != |v.list|
  }

  ghost predicate SameButOffline(info: seq<Info>, info': seq<Info>) {
    |info'| == |info| &&
    forall t :: 0 <= t < |info| ==>
      info'[t].state == info[t].state || (info[t].state == LEFT && info'[t].state == OFFLINE)
  }

  /** Every 32nd time, starting with the first, the threads that have left are taken off the list. */
  ghost predicate PhaseEnded(v: View, u: View) {
    && u.phases == v.phases + 1 && u.cur == 0 && u.running == 0 && u.ran == {} && u.strays == {}
    && SameButOffline(v.info, u.info) && KeepsOrder(v, u)
    && (if v.phases % 32 == 0 then u.left == 0 else LeftStay(v.info, u.info))
  }

  /** Nobody in the first `n` places of the list has left. */
  ghost predicate NoneLeft(info: seq<Info>, list: seq<nat>, n: nat) {
    n <= |list| && forall i :: 0 <= i < n ==> list[i] < |info| && info[list[i]].state != LEFT
  }

  /** Whoever had left is off line. */
  ghost predicate Cleaned(v: View, u: View) {
    && u.cur == v.cur && u.running == v.running && u.left == 0 && u.phases == v.phases
    && u.ran == v.ran && u.strays == v.strays
    && SameButOffline(v.info, u.info) && KeepsOrder(v, u)
  }

  /** Only places in the list may have changed. */
  ghost predicate Reordered(v: View, u: View) {
    && u.cur == v.cur && u.running == v.running && u.left == v.left && u.phases == v.phases
    && u.ran == v.ran && u.strays == v.strays
    && |u.list| == |v.list| && SameStates(v.info, u.info) && KeepsOrder(v, u)
  }

  ghost predicate SameStates(info: seq<Info>, info': seq<Info>) {
    |info'| == |info| && forall t :: 0 <= t < |info| ==> info'[t].state == info[t].state
  }

  lemma PhaseEndedHolds(v: View, r: View, k: View, w: View)
    requires EndsNow(v) && r == Rewind(v)
    requires if (r.phases - 1) % 32 == 0 then Cleaned(r, k) else k == r
    requires w == k || Reordered(k, w)
    ensures PhaseEnded(v, w)
  {
  }

  lemma DropNone(v: View, u: View, i: nat)
    requires Inv(v) && Dropped(v, u, i) && NoneLeft(v.info, v.list, i)
    ensures NoneLeft(u.info, u.list, i) && SameButOffline(v.info, u.info)
  {
    forall k | 0 <= k < i
      ensures u.list[k] < |u.info| && u.info[u.list[k]].state != LEFT
    {
      assert u.list[k] == v.list[k] && v.list[k] != v.list[i];
    }
  }

  lemma PlacesDiffer(v: View, i: nat)
    requires Inv(v) && i < |v.list| && v.list[i] < |v.info| && v.info[v.list[i]].state == LEFT
    ensures v.left > 0 && v.list[|v.list| - 1] < |v.info|
    ensures v.list[i] == v.list[|v.list| - 1] ==> i == |v.list| - 1
  {
    assert v.list[i] in With(v.info, LEFT);
  }

  lemma DroppedPlaces(v: View, u: View, i: nat)
    requires Listed(v) && Dropped(v, u, i)
    ensures KeepsPlaces(v, u)
  {
    forall t: nat | AtPlace(v.info, v.list, t) && u.info[t].state != OFFLINE
      ensures AtPlace(u.info, u.list, t)
    {
      var k := v.info[t].lastIdx;
      if k != |v.list| - 1 {
        assert u.list[k] == v.list[k] && u.info[t] == v.info[t];
      }
    }
  }

  lemma KeepsPlacesOn(v: View, w: View, u: View)
    requires KeepsPlaces(v, w) && KeepsPlaces(w, u)
    requires forall t :: 0 <= t < |u.info| && u.info[t].state != OFFLINE ==> w.info[t].state != OFFLINE
    ensures KeepsPlaces(v, u)
  {
  }

  /** The clean-up has turned `v` into `u`, and has passed `idx` places. */
  ghost predicate CleanUpTo(v: View, u: View, idx: nat) {
    Inv(u) && NoneLeft(u.info, u.list, idx) && SameButOffline(v.info, u.info) && KeepsPlaces(v, u)
  }

  lemma CleanOn(v: View, w: View, u: View, idx: nat)
    requires SameButOffline(v.info, w.info) && KeepsPlaces(v, w) && CleanUpTo(w, u, idx)
    ensures CleanUpTo(v, u, idx)
  {
    KeepsPlacesOn(v, w, u);
  }

  lemma PassedOk(v: View, i: nat)
    requires Inv(v) && NoneLeft(v.info, v.list, i) && i < |v.list| && v.info[v.list[i]].state != LEFT
    ensures CleanUpTo(v, v, i + 1)
  {
  }

  lemma DroppedOk(v: View, u: View, i: nat)
    requires Inv(v) && Dropped(v, u, i) && NoneLeft(v.info, v.list, i)
    ensures CleanUpTo(v, u, i)
  {
    DroppedPlaces(v, u, i);
    DropInv(v, u, i);
    DropNone(v, u, i);
  }

  lemma NobodyLeft(v: View)
    requires Inv(v) && NoneLeft(v.info, v.list, |v.list|)
    ensures v.left == 0 && PlacedIn(v.info, v.list, LEFT)
  {
    forall t | 0 <= t < |v.info|
      ensures v.info[t].state != LEFT
    {
      if v.info[t].state != OFFLINE {
        assert t in v.list;
      }
    }
    assert With(v.info, LEFT) == {};
  }

  // ----- what waking achieves -----

  ghost predicate Settled(v: View, limit: nat) {
    && v.running <= limit && (v.running == limit || v.cur == |v.list|)
    && (SomeoneWaits(v) ==> v.running > 0)
  }

  /** The only changes of state: waiting threads run, and threads that have left go off line. */
  ghost predicate Advanced(info: seq<Info>, info': seq<Info>) {
    |info'| == |info| &&
    forall t :: 0 <= t < |info| ==>
      || info'[t].state == info[t].state
      || (info[t].state == WAITING && info'[t].state == RUNNING)
      || (info[t].state == LEFT && info'[t].state == OFFLINE)
  }

  /** The phase is over: nobody runs and nobody waits for its turn. */
  ghost predicate PhaseOver(v: View) {
    v.running == 0 && !SomeoneDue(v)
  }

  /** When a phase is over, every thread on the list has left, or has had its turn and waits, or has strayed. */
  lemma PhaseOverMeans(v: View)
    requires Inv(v) && PhaseOver(v)
    ensures forall t :: 0 <= t < |v.info| ==>
              || v.info[t].state == OFFLINE || v.info[t].state == LEFT
              || (v.info[t].state == WAITING && (t in v.ran || t in v.strays))
    ensures Orderly(v) ==> forall t :: 0 <= t < |v.info| && v.info[t].state == WAITING ==> t in v.ran
  {
    assert forall t :: 0 <= t < |v.info| && v.info[t].state == RUNNING ==> t in With(v.info, RUNNING);
    forall t | 0 <= t < |v.info| && v.info[t].state == WAITING
      ensures t in v.ran + v.strays
    {
      var i :| 0 <= i < |v.list| && v.list[i] == t;
    }
  }

  /** A phase ends just when it is over and somebody waits; otherwise turns are given and nothing else happens. */
  ghost predicate WokeNext(v: View, w: View, limit: nat) {
    && Advanced(v.info, w.info)
    && w.phases == (if PhaseOver(v) && SomeoneWaits(v) then v.phases + 1 else v.phases)
    && (!(PhaseOver(v) && SomeoneWaits(v)) ==> WellListed(v) && w == CheckRun(v, limit))
    && KeepsOrder(v, w)
    && (if PhaseOver(v) && SomeoneWaits(v) && v.phases % 32 == 0 then w.left == 0 else LeftStay(v.info, w.info))
  }

  ghost predicate LeftStay(info: seq<Info>, info': seq<Info>) {
    |info'| == |info| && forall t :: 0 <= t < |info| && info[t].state == LEFT ==> info'[t].state == LEFT
  }

  lemma {:induction false} CheckRunAdvances(v: View, limit: nat)
    requires Inv(v) && v.running <= limit
    ensures Advanced(v.info, CheckRun(v, limit).info) && LeftStay(v.info, CheckRun(v, limit).info)
    decreases |v.list| - v.cur
  {
    if v.running < limit && v.cur < |v.list| {
      NextTurnInv(v);
      CheckRunAdvances(NextTurn(v), limit);
    }
  }

  /** Once turns have been given, the phase ends just when it was over before and somebody waits. */
  lemma EndsWhen(v: View, limit: nat)
    requires Inv(v) && v.running <= limit && limit > 0
    ensures EndsNow(CheckRun(v, limit)) <==> PhaseOver(v) && SomeoneWaits(v)
    ensures PhaseOver(v) ==> CheckRun(v, limit).info == v.info
  {
    CheckRunInv(v, limit);
    CheckRunDue(v, limit);
    if PhaseOver(v) {
      AllLeft(v);
    }
  }

  /** In a new phase everybody who waits is due. */
  lemma AllDue(e: View)
    requires Inv(e) && e.cur == 0 && SomeoneWaits(e)
    ensures SomeoneDue(e)
  {
    var t :| 0 <= t < |e.info| && e.info[t].state == WAITING;
    var i :| 0 <= i < |e.list| && e.list[i] == t;
  }

  lemma SettledAfter(c: View, e: View, limit: nat)
    requires Inv(c) && Inv(e) && c.running <= limit && limit > 0 && (c.running == limit || c.cur == |c.list|)
    requires if EndsNow(c) then PhaseEnded(c, e) else e == c
    ensures Settled(CheckRun(e, limit), limit)
  {
    CheckRunInv(e, limit);
    CheckRunDue(e, limit);
    if c.running == 0 {
      AllLeft(c);
      if EndsNow(c) {
        var t :| 0 <= t < |c.info| && c.info[t].state == WAITING;
        assert e.info[t].state == WAITING;
        AllDue(e);
      }
    }
  }

  lemma WokeNextHolds(v: View, c: View, e: View, limit: nat)
    requires Inv(v) && Inv(e) && v.running <= limit && limit > 0 && c == CheckRun(v, limit)
    requires if EndsNow(c) then PhaseEnded(c, e) else e == c
    ensures Settled(CheckRun(e, limit), limit) && WokeNext(v, CheckRun(e, limit), limit)
  {
    CheckRunInv(v, limit);
    CheckRunInv(e, limit);
    SettledAfter(c, e, limit);
    EndsWhen(v, limit);
    WokeStates(v, c, e, limit);
  }

  lemma WokeStates(v: View, c: View, e: View, limit: nat)
    requires Inv(v) && Inv(e) && v.running <= limit && e.running <= limit && c == CheckRun(v, limit)
    requires e == c || (SameButOffline(c.info, e.info) && KeepsOrder(c, e))
    ensures KeepsOrder(v, CheckRun(e, limit))
    ensures Advanced(v.info, CheckRun(e, limit).info)
    ensures e == c || LeftStay(c.info, e.info) ==> LeftStay(v.info, CheckRun(e, limit).info)
  {
    CheckRunAdvances(v, limit);
    CheckRunAdvances(e, limit);
    CheckRunOrder(v, limit);
    CheckRunOrder(e, limit);
  }

  /** A thread enters at the end of the list if it is new, at its place if that is still to come, and as the next one
      otherwise. */
  ghost predicate EnteredAt(v: View, list: seq<nat>, tid: nat)
    requires tid < |v.info|
  {
    var place := v.info[tid].lastIdx;
    if v.info[tid].state == OFFLINE then list == v.list + [tid]
    else if v.cur <= place then list == v.list
    else place < v.cur <= |v.list| && list == v.list[place := v.list[v.cur - 1]][v.cur - 1 := tid]
  }

  ghost predicate Joined(v: View, w: View, tid: nat) {
    && tid < |v.info| == |w.info|
    && w.phases == v.phases && EnteredAt(v, w.list, tid)
    && (w.info[tid].state == WAITING || w.info[tid].state == RUNNING)
    && forall t :: 0 <= t < |v.info| && t != tid ==>
         || w.info[t].state == v.info[t].state
         || (v.info[t].state == WAITING && w.info[t].state == RUNNING)
  }

  /** A thread has entered and waits for its turn; nothing else has happened. */
  ghost predicate Entered(v: View, j: View, tid: nat) {
    && tid < |v.info| == |j.info|
    && j.phases == v.phases && EnteredAt(v, j.list, tid) && SomeoneDue(j)
    && j.info[tid].state == WAITING && j.running == v.running
    && forall t :: 0 <= t < |v.info| && t != tid ==> j.info[t].state == v.info[t].state
  }

  lemma FreshEntered(v: View, tid: nat)
    requires Inv(v) && tid < |v.info| && v.info[tid].state == OFFLINE
    ensures |v.list| < |v.info| && Inv(JoinFresh(v, tid)) && Entered(v, JoinFresh(v, tid), tid)
    ensures KeepsOrder(v, JoinFresh(v, tid))
  {
    RoomFor(v, tid);
    JoinFreshInv(v, tid);
  }

  lemma KeepsOrderOn(v: View, j: View, w: View)
    requires KeepsOrder(v, j) && KeepsOrder(j, w) && Advanced(j.info, w.info)
    ensures KeepsOrder(v, w)
  {
    KeepsPlacesOn(v, j, w);
  }

  lemma JoinedHolds(v: View, j: View, w: View, tid: nat, limit: nat)
    requires Inv(j) && j.running <= limit && Entered(v, j, tid) && WokeNext(j, w, limit)
    ensures Joined(v, w, tid) && w == CheckRun(j, limit)
  {
    assert !PhaseOver(j);
    CheckRunInv(j, limit);
    forall t | 0 <= t < |v.info| && t != tid
      ensures w.info[t].state == v.info[t].state || (v.info[t].state == WAITING && w.info[t].state == RUNNING)
    {
      assert j.info[t].state == v.info[t].state;
    }
  }

  /** When a thread joins that is not where it believes to be, the phase ends exactly if nobody runs and the thread
      believes to be beyond the list. */
  lemma StrayEnds(v: View, tid: nat, limit: nat)
    requires Inv(v) && Settled(v, limit) && limit > 0 && v.left > 0
    requires tid < |v.info| && v.info[tid].state == LEFT && v.cur <= v.info[tid].lastIdx
    ensures PhaseOver(Stray(v, tid)) && SomeoneWaits(Stray(v, tid)) <==>
            v.running == 0 && v.info[tid].lastIdx >= |v.list|
  {
    assert Stray(v, tid).info[tid].state == WAITING;
  }

  /** The list after a requeue. */
  lemma RequeuedAt(v: View, u: View, tid: nat, k: nat)
    requires Requeued(v, u, k) && k < v.cur <= |v.list| && tid < |v.info|
    requires v.list[k] == tid && v.info[tid].lastIdx == k && v.info[tid].state == LEFT
    ensures EnteredAt(v, u.list, tid)
    ensures exists i :: u.cur <= i < |u.list| && u.list[i] == tid
  {
    assert u.list[v.cur - 1] == tid;
    assert u.list == v.list[k := v.list[v.cur - 1]][v.cur - 1 := tid];
  }

  lemma RescheduledHolds(v: View, u: View, tid: nat)
    requires Inv(v) && tid < |v.info| && v.info[tid].state == LEFT && AtPlace(v.info, v.list, tid)
    requires var k := v.info[tid].lastIdx; if v.cur > k then Requeued(v, u, k) else u == v
    ensures tid < |u.info| && u.left > 0
    ensures Inv(Return(u, tid)) && Entered(v, Return(u, tid), tid) && KeepsOrder(v, Return(u, tid))
  {
    RequeuedOrder(v, u, tid);
    ReturnEntered(v, u, tid);
  }

  lemma ReturnEntered(v: View, u: View, tid: nat)
    requires Inv(u) && KeepsOrder(v, u) && tid < |v.info| && u.info[tid].state == LEFT
    requires SameStates(v.info, u.info) && u.running == v.running && u.phases == v.phases && EnteredAt(v, u.list, tid)
    requires exists i :: u.cur <= i < |u.list| && u.list[i] == tid
    ensures u.left > 0
    ensures Inv(Return(u, tid)) && Entered(v, Return(u, tid), tid) && KeepsOrder(v, Return(u, tid))
  {
    LeftPositive(u, tid);
    ReturnInv(u, tid);
    KeepsPlacesOn(v, u, Return(u, tid));
  }

  lemma RequeuedOrder(v: View, u: View, tid: nat)
    requires Inv(v) && tid < |v.info| && v.info[tid].state == LEFT && AtPlace(v.info, v.list, tid)
    requires var k := v.info[tid].lastIdx; if v.cur > k then Requeued(v, u, k) else u == v
    ensures Inv(u) && KeepsOrder(v, u) && SameStates(v.info, u.info) && EnteredAt(v, u.list, tid)
    ensures u.running == v.running && u.phases == v.phases
    ensures exists i :: u.cur <= i < |u.list| && u.list[i] == tid
  {
    var k := v.info[tid].lastIdx;
    if v.cur > k {
      RequeueInv(v, u, k);
      RequeuedAt(v, u, tid, k);
    }
  }

  lemma LeftPositive(u: View, t: nat)
    requires Counted(u) && t < |u.info| && u.info[t].state == LEFT
    ensures u.left > 0
  {
    assert t in With(u.info, LEFT);
  }

  // ----- leaving before the first turn -----

  /** A thread that has left joins again after its turn, but is not at the place it believes to be: the assertion on
      the place fails. */
  predicate Misplaced(v: View, t: nat)
    requires t < |v.info|
  {
    v.info[t].state == LEFT && v.info[t].lastIdx < v.cur && !AtPlace(v.info, v.list, t)
  }

  function Empty(maxThreads: nat, memory: nat -> nat): View {
    View(seq(maxThreads, i requires 0 <= i => Info(OFFLINE, 0, memory(i))), [], 0, 0, 0, 0, {}, {})
  }

  /** The view after threads 0 to 2 have joined, of which one may run, when the memory of the place of thread 2 holds
      `m`. */
  function AfterThreeJoins(m: nat): View {
    View([Info(RUNNING, 0, 0), Info(WAITING, 1, 0), Info(WAITING, 1, m)], [0, 1, 2], 1, 1, 0, 0, {0}, {})
  }

  function AfterOneJoin(m: nat): View {
    View([Info(RUNNING, 0, 0), Info(OFFLINE, 0, 0), Info(OFFLINE, 0, m)], [0], 1, 1, 0, 0, {0}, {})
  }

  lemma FirstJoins(m: nat, memory: nat -> nat)
    requires memory(0) == memory(1) == 0 && memory(2) == m
    ensures CheckRun(JoinFresh(Empty(3, memory), 0), 1) == AfterOneJoin(m)
  {
    assert Empty(3, memory).info == [Info(OFFLINE, 0, 0), Info(OFFLINE, 0, 0), Info(OFFLINE, 0, m)];
    assert JoinFresh(Empty(3, memory), 0).list == [0];
  }

  lemma OthersJoin(m: nat, v: View)
    requires v == AfterOneJoin(m)
    ensures CheckRun(JoinFresh(CheckRun(JoinFresh(v, 1), 1), 2), 1) == AfterThreeJoins(m)
  {
    assert JoinFresh(v, 1).list == [0, 1];
    assert JoinFresh(JoinFresh(v, 1), 2).list == [0, 1, 2];
  }

  method JoinFirst(m: nat) returns (b: Barrier)
    ensures fresh(b) && fresh(b.threadList) && fresh(b.runList) && b.Valid() && b.limit == 1
    ensures b.V() == AfterOneJoin(m)
  {
    var memory := t => if t == 2 then m else 0;
    b := new Barrier(1, 3, memory);
    var ok := b.Join(0);
    FirstJoins(m, memory);
  }

  method ThreeJoin(m: nat) returns (b: Barrier)
    ensures fresh(b) && fresh(b.threadList) && fresh(b.runList) && b.Valid() && b.limit == 1
    ensures b.V() == AfterThreeJoins(m)
  {
    b := JoinFirst(m);
    ghost var v := b.V();
    assert |v.info| == b.threadList.Length;
    var ok := b.Join(1);
    ok := b.Join(2);
    OthersJoin(m, v);
  }

  /** One of three threads may run. The last leaves before it has had a turn, and joins again: the assertion fails. */
  method EarlyLeaver() returns (ok: bool)
    ensures !ok
  {
    var b := ThreeJoin(0);
    ghost var v := b.V();
    assert v.info[2].state == b.threadList[2].state;
    b.Leave(2);
    assert b.V().info[2].state == b.threadList[2].state;
    assert Misplaced(b.V(), 2);
    ok := b.Join(2);
  }

  /** All three threads leave, those that wait first: nobody runs, and the phase goes on. */
  lemma ThreeLeave(m: nat)
    ensures var v := LeaveWaiting(LeaveWaiting(AfterThreeJoins(m), 2), 1);
            var s := Stop(v, 0, LEFT, 0);
            && s.info == [Info(LEFT, 0, 0), Info(LEFT, 1, 0), Info(LEFT, 1, m)]
            && CheckRun(s, 1) == s.(cur := 3) && !SomeoneWaits(s)
  {
    var s := Stop(LeaveWaiting(LeaveWaiting(AfterThreeJoins(m), 2), 1), 0, LEFT, 0);
    assert CheckRun(s, 1) == CheckRun(s.(cur := 2), 1);
    assert CheckRun(s.(cur := 2), 1) == CheckRun(s.(cur := 3), 1);
  }

  method AllLeave(m: nat) returns (b: Barrier)
    ensures fresh(b) && fresh(b.threadList) && fresh(b.runList) && b.Valid() && b.threadList.Length == 3
    ensures b.threadList[2].state == LEFT && b.threadList[2].lastIdx == m
    ensures b.runListSize == 3 && b.runningThreads == 0 && b.phaseCount == 0
  {
    b := ThreeJoin(m);
    ghost var v := b.V();
    assert forall t :: 0 <= t < 3 ==> v.info[t] == b.threadList[t];
    b.Leave(2);
    assert b.V().info == b.threadList[..];
    b.Leave(1);
    assert b.V().info == b.threadList[..];
    ThreeLeave(m);
    b.Leave(0);
    assert b.V().info == b.threadList[..];
  }

  /** When the last of them joins again, and memory held 3 or more where nothing recorded its place, its join ends the
      phase. */
  method JoinEndsPhase(m: nat) returns (b: Barrier, before: nat)
    requires m >= 3
    ensures b.phaseCount == before + 1
  {
    b := AllLeave(m);
    before := b.phaseCount;
    var ok := b.Join(2);
  }
}
