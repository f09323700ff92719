/** The futex lock, for any number of threads, one atomic memory access or system call per step. FUTEX_WAIT
    compares and sleeps atomically, FUTEX_WAKE wakes one sleeper, and sleepers may also wake up by themselves. */
module Futex {

  /** Where a thread is. A timed attempt gives up after one sleep. */
  datatype Pc =
    | Outside
    | Test(timed: bool)      // about to read the word
    | Cas(timed: bool)       // read 0, about to compare and swap
    | Swap(timed: bool)      // about to exchange the word for 2, and to sleep unless it was 0
    | Wait(timed: bool)      // about to call FUTEX_WAIT
    | Asleep(timed: bool)
    | Reswap(timed: bool)    // awake again, about to exchange the word for 2
    | Inside(swapped: bool)  // holds the lock, which it got by exchanging the word or by comparing and swapping
    | Clear                  // unlocking: has decremented the word, about to store 0
    | Wake                   // unlocking: about to call FUTEX_WAKE

  datatype Lock = Lock(word: int, pcs: seq<Pc>)

  datatype Action =
    | Begin(t: nat, timed: bool)
    | Read(t: nat, again: bool)        // `again`: after a failure, spin once more rather than block
    | CompareAndSwap(t: nat, again: bool)
    | Exchange(t: nat)
    | FutexWait(t: nat)
    | TimeOut(t: nat)
    | ExchangeAgain(t: nat)
    | Decrement(t: nat)
    | Store(t: nat)
    | FutexWake(t: nat, w: nat)        // `w`: the sleeper that wakes up, if there is any

  function Init(threads: nat): Lock {
    Lock(0, seq(threads, i => Outside))
  }

  predicate Sleeps(l: Lock, t: nat) {
    t < |l.pcs| && l.pcs[t].Asleep?
  }

  ghost predicate SomeoneSleeps(l: Lock) {
    exists t: nat :: Sleeps(l, t)
  }

  ghost predicate Enabled(l: Lock, a: Action) {
    a.t < |l.pcs| &&
    match a
    case Begin(t, _) => l.pcs[t].Outside?
    case Read(t, _) => l.pcs[t].Test?
    case CompareAndSwap(t, _) => l.pcs[t].Cas?
    case Exchange(t) => l.pcs[t].Swap?
    case FutexWait(t) => l.pcs[t].Wait?
    case TimeOut(t) => l.pcs[t].Asleep?
    case ExchangeAgain(t) => l.pcs[t].Reswap?
    case Decrement(t) => l.pcs[t].Inside?
    case Store(t) => l.pcs[t].Clear?
    case FutexWake(t, w) => l.pcs[t].Wake? && (Sleeps(l, w) || !SomeoneSleeps(l))
  }

  function Goto(l: Lock, t: nat, pc: Pc): Lock
    requires t < |l.pcs|
  {
    l.(pcs := l.pcs[t := pc])
  }

  /** After a failed attempt to take the lock from user space. */
  function Retry(timed: bool, again: bool): Pc {
    if again && !timed then Test(timed) else Swap(timed)
  }

  ghost function Step(l: Lock, a: Action): Lock
    requires Enabled(l, a)
  {
    match a
    case Begin(t, timed) => Goto(l, t, Test(timed))
    case Read(t, again) =>
      Goto(l, t, if l.word == 0 then Cas(l.pcs[t].timed) else Retry(l.pcs[t].timed, again))
    case CompareAndSwap(t, again) =>
      if l.word == 0 then Goto(l, t, Inside(false)).(word := 1)
      else Goto(l, t, Retry(l.pcs[t].timed, again))
    case Exchange(t) =>
      Goto(l, t, if l.word == 0 then Inside(true) else Wait(l.pcs[t].timed)).(word := 2)
    case FutexWait(t) =>
      Goto(l, t, if l.word == 2 then Asleep(l.pcs[t].timed) else Reswap(l.pcs[t].timed))
    case TimeOut(t) => Goto(l, t, Reswap(l.pcs[t].timed))
    case ExchangeAgain(t) =>
      Goto(l, t, if l.word == 0 then Inside(true) else if l.pcs[t].timed then Outside else Test(false)).(word := 2)
    case Decrement(t) =>
      Goto(l, t, if l.word == 1 then Outside else Clear).(word := l.word - 1)
    case Store(t) => Goto(l, t, Wake).(word := 0)
    case FutexWake(t, w) =>
      var l' := Goto(l, t, Outside);
      if Sleeps(l, w) then Goto(l', w, Reswap(l.pcs[w].timed)) else l'
  }

  // ----- the invariant -----

  /** The lock counts as held until the unlocker has stored 0. */
  predicate Holds(l: Lock, t: nat) {
    t < |l.pcs| && (l.pcs[t].Inside? || l.pcs[t].Clear?)
  }

  /** This thread will wake a sleeper, or make sure that the next unlock does. */
  predicate OwesWake(l: Lock, t: nat) {
    t < |l.pcs| && (l.pcs[t].Clear? || l.pcs[t].Wake? || l.pcs[t].Reswap?)
  }

  ghost predicate Exclusion(l: Lock) {
    && 0 <= l.word <= 2
    && (l.word != 0 <==> exists t: nat :: Holds(l, t))
    && (forall t: nat, u: nat :: Holds(l, t) && Holds(l, u) ==> t == u)
  }

  ghost predicate NoLostWakeup(l: Lock) {
    SomeoneSleeps(l) ==> l.word == 2 || exists u: nat :: OwesWake(l, u)
  }

  lemma InitInv(threads: nat)
    ensures Exclusion(Init(threads)) && NoLostWakeup(Init(threads))
  {
  }

  /** The word leaves 0 only in a step that makes its thread the holder, and returns to 0 only in a step of the
      holder: with threads outside the lock taken away, this is an ordinary lock. */
  ghost function Holder(l: Lock): set<nat> {
    set t: nat | t < |l.pcs| && Holds(l, t)
  }

  lemma StepExclusion(l: Lock, a: Action)
    requires Exclusion(l) && Enabled(l, a)
    ensures Exclusion(Step(l, a))
    ensures var h, h' := Holder(l), Holder(Step(l, a));
            h' == h || (h == {} && h' == {a.t}) || (h == {a.t} && h' == {})
  {
    var l' := Step(l, a);
    var t := a.t;
    assert forall u: nat :: u != t ==> (Holds(l', u) <==> Holds(l, u));
    if Holds(l', t) {
      assert Holds(l, t) || l.word == 0;
      assert forall u: nat :: Holds(l', u) ==> u == t;
      assert Holder(l') == {t};
      assert Holder(l) == {t} || Holder(l) == {};
    } else if Holds(l, t) {
      assert Holder(l) == {t} && Holder(l') == {};
    } else {
      assert Holder(l') == Holder(l);
    }
  }

  lemma StepNoLostWakeup(l: Lock, a: Action)
    requires Exclusion(l) && NoLostWakeup(l) && Enabled(l, a)
    ensures NoLostWakeup(Step(l, a))
  {
    var l' := Step(l, a);
    if SomeoneSleeps(l') && l'.word != 2 {
      var t := a.t;
      var s: nat :| Sleeps(l', s);
      if OwesWake(l', t) {
      } else if a.FutexWake? {
        assert Sleeps(l, s);
        assert OwesWake(l', a.w);
      } else {
        assert Sleeps(l, s);
        assert l.word != 2 || a.Decrement?;
        var u: nat :| OwesWake(l, u);
        assert OwesWake(l', u);
      }
    }
  }

  // ----- whole runs -----

  ghost function Run(threads: nat, acts: seq<Action>): Lock {
    if acts == [] then Init(threads)
    else
      var l, a := Run(threads, acts[..|acts| - 1]), acts[|acts| - 1];
      if Enabled(l, a) then Step(l, a) else l
  }

  lemma {:induction false} RunInv(threads: nat, acts: seq<Action>)
    ensures Exclusion(Run(threads, acts)) && NoLostWakeup(Run(threads, acts))
  {
    if acts == [] {
      InitInv(threads);
    } else {
      RunInv(threads, acts[..|acts| - 1]);
      var l, a := Run(threads, acts[..|acts| - 1]), acts[|acts| - 1];
      if Enabled(l, a) {
        StepExclusion(l, a);
        StepNoLostWakeup(l, a);
      }
    }
  }

  /** At most one thread is inside at any time, also counting an unlocker that has not yet stored 0. */
  lemma MutualExclusion(threads: nat, acts: seq<Action>, t: nat, u: nat)
    requires Holds(Run(threads, acts), t) && Holds(Run(threads, acts), u)
    ensures t == u
  {
    RunInv(threads, acts);
  }

  /** If a thread sleeps while the lock is free, some other thread is on its way to wake one or to take the lock:
      it cannot be that all threads are outside or asleep. */
  lemma SleepersAreWoken(threads: nat, acts: seq<Action>)
    ensures var l := Run(threads, acts);
            SomeoneSleeps(l) ==> exists u: nat :: u < |l.pcs| && !l.pcs[u].Outside? && !l.pcs[u].Asleep?
  {
    RunInv(threads, acts);
    var l := Run(threads, acts);
    if SomeoneSleeps(l) {
      if u: nat :| OwesWake(l, u) {
      } else {
        var u: nat :| Holds(l, u);
      }
    }
  }

  // ----- detectable waiters -----

  /** What futex_haswaiters answers. */
  predicate HasWaiters(l: Lock) {
    l.word == 2
  }

  /** This thread is on its way to the lock: it has asked for it and has neither got it nor given up. */
  predicate OnWayIn(l: Lock, u: nat) {
    u < |l.pcs| && !l.pcs[u].Outside? && !l.pcs[u].Inside? && !l.pcs[u].Clear? && !l.pcs[u].Wake?
  }

  /** Some thread other than `t` is on its way to the lock. */
  ghost predicate SomeoneWaits(l: Lock, t: nat) {
    exists u: nat :: u != t && OnWayIn(l, u)
  }

  /** A timed attempt fails for good: it has marked the word, and nobody takes the mark back. */
  predicate GivesUp(l: Lock, a: Action) {
    a.ExchangeAgain? && a.t < |l.pcs| && l.pcs[a.t].Reswap? && l.pcs[a.t].timed && l.word != 0
  }

  /** Whether a timed attempt has given up since the lock was taken. */
  ghost function GaveUp(threads: nat, acts: seq<Action>): bool {
    if acts == [] then false
    else
      var l, a := Run(threads, acts[..|acts| - 1]), acts[|acts| - 1];
      l.word != 0 && (GaveUp(threads, acts[..|acts| - 1]) || GivesUp(l, a))
  }

  /** What the word says about the threads behind the holder `t`, when `gaveUp` says whether one has given up. */
  ghost predicate Tells(l: Lock, t: nat, gaveUp: bool)
    requires t < |l.pcs| && l.pcs[t].Inside?
  {
    && (l.pcs[t].swapped || gaveUp ==> l.word == 2)
    && (l.word == 2 ==> l.pcs[t].swapped || gaveUp || SomeoneWaits(l, t))
  }

  lemma StepTells(l: Lock, a: Action, t: nat, gaveUp: bool)
    requires Exclusion(l) && Enabled(l, a) && t < |l.pcs|
    requires l.pcs[t].Inside? ==> Tells(l, t, gaveUp)
    requires Step(l, a).pcs[t].Inside?
    ensures Tells(Step(l, a), t, l.word != 0 && (gaveUp || GivesUp(l, a)))
  {
    var l' := Step(l, a);
    if l.pcs[t].Inside? {
      assert Holds(l, t) && a.t != t && !Holds(l, a.t);
      if l.word == 2 && SomeoneWaits(l, t) && !GivesUp(l, a) {
        var u: nat :| u != t && OnWayIn(l, u);
        assert OnWayIn(l', u);
      } else if l'.word == 2 && l.word != 2 && !GivesUp(l, a) {
        assert OnWayIn(l', a.t);
      }
    } else {
      assert a.t == t && l.word == 0;
    }
  }

  lemma {:induction false} RunTells(threads: nat, acts: seq<Action>, t: nat)
    requires t < |Run(threads, acts).pcs| && Run(threads, acts).pcs[t].Inside?
    ensures Tells(Run(threads, acts), t, GaveUp(threads, acts))
  {
    if acts != [] {
      var before := acts[..|acts| - 1];
      var l, a := Run(threads, before), acts[|acts| - 1];
      RunInv(threads, before);
      assert |l.pcs| == |Run(threads, acts).pcs|;
      if l.pcs[t].Inside? {
        RunTells(threads, before, t);
        assert Holds(l, t);
      }
      if Enabled(l, a) {
        StepTells(l, a, t, GaveUp(threads, before));
      }
    }
  }

  /** When the answer is wrong: the holder is told of waiters although there are none just when there are none and it
      got the lock by an exchange, or a timed attempt has given up since it got the lock. */
  lemma FalsePositiveWhen(threads: nat, acts: seq<Action>, t: nat)
    requires t < |Run(threads, acts).pcs| && Run(threads, acts).pcs[t].Inside?
    ensures var l := Run(threads, acts);
            HasWaiters(l) && !SomeoneWaits(l, t) <==>
            (l.pcs[t].swapped || GaveUp(threads, acts)) && !SomeoneWaits(l, t)
  {
    RunTells(threads, acts, t);
  }

  /** No attempt is timed. */
  predicate Untimed(acts: seq<Action>) {
    forall i :: 0 <= i < |acts| && acts[i].Begin? ==> !acts[i].timed
  }

  ghost predicate NobodyTimed(l: Lock) {
    forall u: nat :: OnWayIn(l, u) ==> !l.pcs[u].timed
  }

  lemma StepUntimed(l: Lock, a: Action)
    requires NobodyTimed(l) && Enabled(l, a) && (a.Begin? ==> !a.timed)
    ensures NobodyTimed(Step(l, a)) && !GivesUp(l, a)
  {
    assert a.t < |l.pcs| && (OnWayIn(l, a.t) ==> !l.pcs[a.t].timed);
    var l' := Step(l, a);
    forall u: nat | OnWayIn(l', u)
      ensures !l'.pcs[u].timed
    {
      assert u != a.t ==> OnWayIn(l, u);
    }
  }

  lemma {:induction false} UntimedStays(threads: nat, acts: seq<Action>)
    requires Untimed(acts)
    ensures NobodyTimed(Run(threads, acts)) && !GaveUp(threads, acts)
  {
    if acts != [] {
      var l, a := Run(threads, acts[..|acts| - 1]), acts[|acts| - 1];
      UntimedStays(threads, acts[..|acts| - 1]);
      if Enabled(l, a) {
        StepUntimed(l, a);
      } else if GivesUp(l, a) {
        assert OnWayIn(l, a.t);
      }
    }
  }

  /** Without timed attempts, the promise holds for a holder that has not blocked: if it is told of waiters, there is
      one. And a holder with nobody behind it is told of waiters just when it got the lock by an exchange. */
  lemma NoFalsePositive(threads: nat, acts: seq<Action>, t: nat)
    requires Untimed(acts) && t < |Run(threads, acts).pcs| && Run(threads, acts).pcs[t].Inside?
    ensures var l := Run(threads, acts);
            && (!l.pcs[t].swapped && HasWaiters(l) ==> SomeoneWaits(l, t))
            && (!SomeoneWaits(l, t) ==> (HasWaiters(l) <==> l.pcs[t].swapped))
  {
    UntimedStays(threads, acts);
    RunTells(threads, acts, t);
  }

  lemma RunSnoc(threads: nat, acts: seq<Action>, a: Action)
    requires Enabled(Run(threads, acts), a)
    ensures Run(threads, acts + [a]) == Step(Run(threads, acts), a)
  {
    assert (acts + [a])[..|acts|] == acts;
  }

  /** One more step of a run, with the state it leads to. */
  lemma Then(threads: nat, acts: seq<Action>, a: Action, l: Lock, l': Lock) returns (more: seq<Action>)
    requires Run(threads, acts) == l && Enabled(l, a) && Step(l, a) == l'
    ensures more == acts + [a] && Run(threads, more) == l'
  {
    RunSnoc(threads, acts, a);
    more := acts + [a];
  }

  lemma FirstTakes() returns (acts: seq<Action>)
    ensures Run(2, acts) == Lock(1, [Inside(false), Outside])
  {
    assert Init(2) == Lock(0, [Outside, Outside]);
    acts := Then(2, [], Begin(0, false), Lock(0, [Outside, Outside]), Lock(0, [Test(false), Outside]));
    acts := Then(2, acts, Read(0, false), Lock(0, [Test(false), Outside]), Lock(0, [Cas(false), Outside]));
    acts := Then(2, acts, CompareAndSwap(0, false), Lock(0, [Cas(false), Outside]), Lock(1, [Inside(false), Outside]));
  }

  lemma SecondAsks() returns (acts: seq<Action>)
    ensures Run(2, acts) == Lock(2, [Inside(false), Wait(false)])
  {
    acts := FirstTakes();
    acts := Then(2, acts, Begin(1, false), Lock(1, [Inside(false), Outside]), Lock(1, [Inside(false), Test(false)]));
    acts := Then(2, acts, Read(1, false), Lock(1, [Inside(false), Test(false)]), Lock(1, [Inside(false), Swap(false)]));
    acts := Then(2, acts, Exchange(1), Lock(1, [Inside(false), Swap(false)]), Lock(2, [Inside(false), Wait(false)]));
  }

  /** The first thread takes the lock and the second asks for it, but the first gives it back before the second falls
      asleep. */
  lemma Overtaken() returns (acts: seq<Action>)
    ensures Run(2, acts) == Lock(0, [Outside, Wait(false)])
  {
    acts := SecondAsks();
    acts := Then(2, acts, Decrement(0), Lock(2, [Inside(false), Wait(false)]), Lock(1, [Clear, Wait(false)]));
    acts := Then(2, acts, Store(0), Lock(1, [Clear, Wait(false)]), Lock(0, [Wake, Wait(false)]));
    assert !SomeoneSleeps(Lock(0, [Wake, Wait(false)]));
    acts := Then(2, acts, FutexWake(0, 0), Lock(0, [Wake, Wait(false)]), Lock(0, [Outside, Wait(false)]));
  }

  /** The answer can be wrong: a thread that has blocked once holds the lock with a word of 2, although nobody waits. */
  lemma FalsePositive() returns (acts: seq<Action>)
    ensures Holds(Run(2, acts), 1) && HasWaiters(Run(2, acts)) && !SomeoneWaits(Run(2, acts), 1)
  {
    acts := Overtaken();
    acts := Then(2, acts, FutexWait(1), Lock(0, [Outside, Wait(false)]), Lock(0, [Outside, Reswap(false)]));
    acts := Then(2, acts, ExchangeAgain(1), Lock(0, [Outside, Reswap(false)]), Lock(2, [Outside, Inside(true)]));
  }

  /** And a timed attempt that gives up leaves its mark to a holder that has never blocked. */
  lemma FalsePositiveAfterTimeOut() returns (acts: seq<Action>)
    ensures Run(2, acts) == Lock(2, [Inside(false), Outside]) && GaveUp(2, acts)
    ensures HasWaiters(Run(2, acts)) && !SomeoneWaits(Run(2, acts), 0)
  {
    var in0 := Inside(false);
    var first := FirstTakes();
    acts := Then(2, first, Begin(1, true), Lock(1, [in0, Outside]), Lock(1, [in0, Test(true)]));
    acts := Then(2, acts, Read(1, false), Lock(1, [in0, Test(true)]), Lock(1, [in0, Swap(true)]));
    acts := Then(2, acts, Exchange(1), Lock(1, [in0, Swap(true)]), Lock(2, [in0, Wait(true)]));
    acts := Then(2, acts, FutexWait(1), Lock(2, [in0, Wait(true)]), Lock(2, [in0, Asleep(true)]));
    acts := Then(2, acts, TimeOut(1), Lock(2, [in0, Asleep(true)]), Lock(2, [in0, Reswap(true)]));
    assert GivesUp(Run(2, acts), ExchangeAgain(1));
    var before := acts;
    acts := Then(2, acts, ExchangeAgain(1), Lock(2, [in0, Reswap(true)]), Lock(2, [in0, Outside]));
    assert acts[..|acts| - 1] == before;
  }

  /** But it misses nobody: while a thread sleeps, the answer is yes, or that thread is about to be woken. */
  lemma NoFalseNegative(threads: nat, acts: seq<Action>)
    requires SomeoneSleeps(Run(threads, acts)) && forall u: nat :: !OwesWake(Run(threads, acts), u)
    ensures HasWaiters(Run(threads, acts))
  {
    RunInv(threads, acts);
  }
}
