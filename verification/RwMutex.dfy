/** The read-write mutex, for any number of threads. Its two futex locks are plain locks here: a thread that needs
    one waits until it is free. */
module RwMutex {

  datatype Pc =
    | Outside
    | RdQueue                       // rdLock: waits for rb
    | RdCount                       // has rb, about to add 1 to readers
    | RdWait                        // first reader: counted, waits for wq
    | RdIn                          // counted and admitted, about to release rb
    | Reading
    | RdLast(upgrade: bool)         // took the count from 1 to 0, about to release wq
    | WrQueue                       // wrLock: waits for rb
    | WrWait                        // has rb, waits for wq
    | WrIn                          // has wq, about to release rb
    | Writing
    | Down                          // downgrade: counted behind a waiting reader, about to release wq

  datatype Mutex = Mutex(pcs: seq<Pc>, readers: int, rb: bool, wq: bool)

  datatype Action =
    | RdLock(t: nat)
    | WrLock(t: nat)
    | Go(t: nat)                       // the next step of an operation that is under way
    | RdUnlock(t: nat, upgrade: bool)
    | WrUnlock(t: nat)
    | Downgrade(t: nat)

  datatype Outcome = Panic | Ok(m: Mutex)

  function Init(threads: nat): Mutex {
    Mutex(seq(threads, i => Outside), 0, false, false)
  }

  /** The thread waits for a lock that is taken. */
  predicate Blocked(m: Mutex, t: nat)
    requires t < |m.pcs|
  {
    match m.pcs[t]
    case RdQueue => m.rb
    case WrQueue => m.rb
    case RdWait => m.wq
    case WrWait => m.wq
    case _ => false
  }

  predicate Enabled(m: Mutex, a: Action) {
    a.t < |m.pcs| &&
    match a
    case RdLock(t) => m.pcs[t].Outside?
    case WrLock(t) => m.pcs[t].Outside?
    case Go(t) => !m.pcs[t].Outside? && !m.pcs[t].Reading? && !m.pcs[t].Writing? && !Blocked(m, t)
    case RdUnlock(t, _) => m.pcs[t].Reading?
    case WrUnlock(t) => m.pcs[t].Writing?
    case Downgrade(t) => m.pcs[t].Writing?
  }

  function Goto(m: Mutex, t: nat, pc: Pc): Mutex
    requires t < |m.pcs|
  {
    m.(pcs := m.pcs[t := pc])
  }

  /** After the read lock has been given up: upgrade goes on to ask for the write lock. */
  function AfterRead(upgrade: bool): Pc {
    if upgrade then WrQueue else Outside
  }

  function Step(m: Mutex, a: Action): Outcome
    requires Enabled(m, a)
  {
    match a
    case RdLock(t) => Ok(Goto(m, t, RdQueue))
    case WrLock(t) => Ok(Goto(m, t, WrQueue))
    case RdUnlock(t, upgrade) =>
      Ok(Goto(m, t, if m.readers == 1 then RdLast(upgrade) else AfterRead(upgrade)).(readers := m.readers - 1))
    case WrUnlock(t) => Ok(Goto(m, t, Outside).(wq := false))
    case Downgrade(t) =>
      if m.readers == 0 then Ok(Goto(m, t, Reading).(readers := 1))
      else if m.readers != 1 then Panic
      else Ok(Goto(m, t, Down).(readers := 2))
    case Go(t) =>
      match m.pcs[t]
      case RdQueue => Ok(Goto(m, t, RdCount).(rb := true))
      case RdCount => Ok(Goto(m, t, if m.readers == 0 then RdWait else RdIn).(readers := m.readers + 1))
      case RdWait => Ok(Goto(m, t, RdIn).(wq := true))
      case RdIn => Ok(Goto(m, t, Reading).(rb := false))
      case RdLast(upgrade) => Ok(Goto(m, t, AfterRead(upgrade)).(wq := false))
      case WrQueue => Ok(Goto(m, t, WrWait).(rb := true))
      case WrWait => Ok(Goto(m, t, WrIn).(wq := true))
      case WrIn => Ok(Goto(m, t, Writing).(rb := false))
      case Down => Ok(Goto(m, t, Reading).(wq := false))
  }

  // ----- the invariant -----

  /** The thread is one of those that `readers` counts. */
  predicate Counted(pc: Pc) {
    pc.RdWait? || pc.RdIn? || pc.Reading? || pc.Down?
  }

  predicate HasRb(m: Mutex, t: nat) {
    t < |m.pcs| && (m.pcs[t].RdCount? || m.pcs[t].RdWait? || m.pcs[t].RdIn? || m.pcs[t].WrWait? || m.pcs[t].WrIn?)
  }

  /** The thread holds wq for itself alone. */
  predicate HasWq(m: Mutex, t: nat) {
    t < |m.pcs| && (m.pcs[t].WrIn? || m.pcs[t].Writing? || m.pcs[t].Down? || m.pcs[t].RdLast?)
  }

  /** The thread shares wq with all other admitted readers. */
  predicate Admitted(m: Mutex, t: nat) {
    t < |m.pcs| && (m.pcs[t].RdIn? || m.pcs[t].Reading?)
  }

  predicate FirstReader(m: Mutex, t: nat) {
    t < |m.pcs| && m.pcs[t].RdWait?
  }

  ghost function CountedSet(pcs: seq<Pc>): set<nat> {
    set t: nat | t < |pcs| && Counted(pcs[t])
  }

  /** rb is held by exactly one thread, or free. */
  ghost predicate RbInv(m: Mutex) {
    && (m.rb <==> exists t: nat :: HasRb(m, t))
    && (forall t: nat, u: nat :: HasRb(m, t) && HasRb(m, u) ==> t == u)
  }

  /** wq belongs to one thread alone, or to the admitted readers, or is free. An admitted reader without wq, and a
      downgrader that is about to release it, has it promised: the first reader waits for wq and keeps others out. */
  ghost predicate WqInv(m: Mutex) {
    && (forall t: nat, u: nat :: HasWq(m, t) && HasWq(m, u) ==> t == u)
    && (forall t: nat :: HasWq(m, t) ==> m.wq)
    && (forall t: nat, u: nat :: HasWq(m, t) ==> !Admitted(m, u))
    && (m.wq ==> (exists t: nat :: HasWq(m, t)) || (exists t: nat :: Admitted(m, t)))
    && (forall t: nat, u: nat :: m.wq && Admitted(m, t) ==> !FirstReader(m, u))
    && (forall t: nat :: (HasWq(m, t) && m.pcs[t].Down?) || (Admitted(m, t) && !m.wq) ==>
          exists u: nat :: FirstReader(m, u))
  }

  ghost predicate Inv(m: Mutex) {
    m.readers == |CountedSet(m.pcs)| && RbInv(m) && WqInv(m)
  }

  lemma InitInv(threads: nat)
    ensures Inv(Init(threads))
  {
    assert CountedSet(Init(threads).pcs) == {};
  }

  lemma CountedGoto(pcs: seq<Pc>, t: nat, pc: Pc)
    requires t < |pcs|
    ensures CountedSet(pcs[t := pc]) == if Counted(pc) then CountedSet(pcs) + {t} else CountedSet(pcs) - {t}
    ensures t in CountedSet(pcs) <==> Counted(pcs[t])
  {
  }

  lemma SizeAfter(c: set<nat>, t: nat)
    ensures |c + {t}| == |c| + if t in c then 0 else 1
    ensures |c - {t}| == |c| - if t in c then 1 else 0
  {
    if t in c {
      assert c + {t} == c;
    } else {
      assert c - {t} == c;
    }
  }

  /** A step moves one thread, and `readers` follows whether that thread is counted. */
  lemma StepShape(m: Mutex, a: Action)
    requires Enabled(m, a) && Step(m, a).Ok?
    ensures var m' := Step(m, a).m;
            && |m'.pcs| == |m.pcs| && m'.pcs == m.pcs[a.t := m'.pcs[a.t]]
            && m'.readers ==
               m.readers + (if Counted(m'.pcs[a.t]) then 1 else 0) - (if Counted(m.pcs[a.t]) then 1 else 0)
  {
  }

  lemma CountedStep(m: Mutex, a: Action)
    requires m.readers == |CountedSet(m.pcs)| && Enabled(m, a) && Step(m, a).Ok?
    ensures var m' := Step(m, a).m; m'.readers == |CountedSet(m'.pcs)|
  {
    StepShape(m, a);
    CountedGoto(m.pcs, a.t, Step(m, a).m.pcs[a.t]);
    SizeAfter(CountedSet(m.pcs), a.t);
  }

  /** `readers` says who is counted: nobody, only one thread, or others as well. */
  lemma CountMeans(m: Mutex, t: nat)
    requires m.readers == |CountedSet(m.pcs)|
    ensures m.readers == 0 ==> CountedSet(m.pcs) == {}
    ensures m.readers == 1 && t in CountedSet(m.pcs) ==> forall u :: u in CountedSet(m.pcs) ==> u == t
    ensures m.readers > 1 ==> exists u: nat :: u in CountedSet(m.pcs) && u != t
    ensures m.readers == 1 && t !in CountedSet(m.pcs) ==> exists u: nat :: u in CountedSet(m.pcs) && u != t
    ensures m.readers >= 0
  {
    var c := CountedSet(m.pcs);
    if t in c {
      assert |c - {t}| == |c| - 1;
      if |c| > 1 {
        var u :| u in c - {t};
      } else {
        assert c - {t} == {};
      }
    } else if |c| > 0 {
      var u :| u in c;
    }
  }

  lemma StepRb(m: Mutex, a: Action)
    requires RbInv(m) && Enabled(m, a) && Step(m, a).Ok?
    ensures RbInv(Step(m, a).m)
  {
    var m' := Step(m, a).m;
    assert forall u: nat :: u != a.t ==> (HasRb(m', u) <==> HasRb(m, u));
    if HasRb(m, a.t) && !HasRb(m', a.t) {
      assert forall u: nat :: !HasRb(m', u);
    } else if HasRb(m', a.t) {
      assert m'.rb;
    }
  }

  lemma OthersStay(m: Mutex, m': Mutex, t: nat)
    requires |m'.pcs| == |m.pcs| && t < |m.pcs| && m'.pcs == m.pcs[t := m'.pcs[t]]
    ensures forall u: nat :: u != t ==> (HasWq(m', u) <==> HasWq(m, u))
    ensures forall u: nat :: u != t ==> (Admitted(m', u) <==> Admitted(m, u))
    ensures forall u: nat :: u != t ==> (FirstReader(m', u) <==> FirstReader(m, u))
  {
  }

  /** The last reader takes wq over for itself; otherwise an admitted reader, or the first reader, remains. */
  lemma RdUnlockWq(m: Mutex, a: Action)
    requires Inv(m) && Enabled(m, a) && a.RdUnlock?
    ensures WqInv(Step(m, a).m)
  {
    var m' := Step(m, a).m;
    OthersStay(m, m', a.t);
    CountMeans(m, a.t);
    assert Admitted(m, a.t) && a.t in CountedSet(m.pcs);
    if m.readers > 1 {
      var u: nat :| u in CountedSet(m.pcs) && u != a.t;
      assert Admitted(m, u) || FirstReader(m, u) || HasWq(m, u);
      assert Admitted(m', u) || FirstReader(m', u);
    } else {
      assert forall u: nat :: Admitted(m, u) || FirstReader(m, u) ==> u in CountedSet(m.pcs);
      assert HasWq(m', a.t);
    }
  }

  /** A writer that downgrades counts itself first, or second after the first reader: the assertion holds. */
  lemma DowngradeWq(m: Mutex, a: Action)
    requires Inv(m) && Enabled(m, a) && a.Downgrade?
    ensures Step(m, a).Ok? && WqInv(Step(m, a).m)
  {
    CountMeans(m, a.t);
    assert HasWq(m, a.t);
    if m.readers > 0 {
      var u: nat :| u in CountedSet(m.pcs) && u != a.t;
      assert FirstReader(m, u) by {
        assert !Admitted(m, u) && !HasWq(m, u);
      }
      CountMeans(m, u);
      assert HasRb(m, u);
      assert forall v: nat :: v in CountedSet(m.pcs) ==> HasRb(m, v) || Admitted(m, v) || HasWq(m, v);
      assert forall v: nat :: v in CountedSet(m.pcs) ==> v == u;
    }
    var m' := Step(m, a).m;
    OthersStay(m, m', a.t);
    assert forall u: nat :: Admitted(m, u) || FirstReader(m, u) ==> u in CountedSet(m.pcs);
    assert HasWq(m', a.t) || Admitted(m', a.t);
  }

  /** A reader that finds others counted is admitted at once: wq belongs to the readers already. */
  lemma RdCountWq(m: Mutex, a: Action)
    requires Inv(m) && Enabled(m, a) && a.Go? && m.pcs[a.t].RdCount?
    ensures WqInv(Step(m, a).m)
  {
    var m' := Step(m, a).m;
    OthersStay(m, m', a.t);
    CountMeans(m, a.t);
    assert HasRb(m, a.t);
    assert forall u: nat :: FirstReader(m, u) ==> HasRb(m, u);
    if m.readers > 0 {
      var u: nat :| u in CountedSet(m.pcs) && u != a.t;
      assert !FirstReader(m, u) && (Admitted(m, u) || HasWq(m, u));
      assert Admitted(m, u);
    } else {
      assert forall u: nat :: Admitted(m, u) || FirstReader(m, u) ==> u in CountedSet(m.pcs);
    }
  }

  /** A thread that takes or has wq for itself stops, and wq is free again. */
  lemma ReleaseWq(m: Mutex, t: nat, pc: Pc)
    requires Inv(m) && HasWq(m, t)
    requires pc.Outside? || pc.WrQueue? || (pc.Reading? && m.pcs[t].Down?)
    ensures WqInv(Goto(m, t, pc).(wq := false))
  {
    var m' := Goto(m, t, pc).(wq := false);
    OthersStay(m, m', t);
    assert forall u: nat :: Admitted(m', u) ==> u == t;
    assert !HasWq(m', t) && (Admitted(m', t) <==> pc.Reading?);
    if pc.Reading? {
      var u: nat :| FirstReader(m, u);
      assert FirstReader(m', u);
    }
  }

  /** wq goes to a thread that has rb: the first reader takes it for all readers, a writer for itself. */
  lemma TakeWq(m: Mutex, t: nat, pc: Pc)
    requires Inv(m) && t < |m.pcs| && !m.wq
    requires (m.pcs[t].RdWait? && pc.RdIn?) || (m.pcs[t].WrWait? && pc.WrIn?)
    ensures WqInv(Goto(m, t, pc).(wq := true))
  {
    var m' := Goto(m, t, pc).(wq := true);
    OthersStay(m, m', t);
    assert HasRb(m, t) && forall u: nat :: FirstReader(m, u) ==> HasRb(m, u);
    assert Admitted(m', t) || HasWq(m', t);
    assert forall u: nat :: HasWq(m, u) ==> m.wq;
  }

  /** A step that leaves alone what matters for wq. */
  lemma NeutralWq(m: Mutex, m': Mutex, t: nat)
    requires Inv(m) && t < |m.pcs| && |m'.pcs| == |m.pcs| && m'.pcs == m.pcs[t := m'.pcs[t]] && m'.wq == m.wq
    requires (HasWq(m', t) <==> HasWq(m, t)) && (Admitted(m', t) <==> Admitted(m, t))
    requires !m.pcs[t].RdWait? && !m'.pcs[t].RdWait? && !m'.pcs[t].Down?
    ensures WqInv(m')
  {
    OthersStay(m, m', t);
  }

  lemma GoWq(m: Mutex, a: Action)
    requires Inv(m) && Enabled(m, a) && !a.RdUnlock? && !a.Downgrade? && (a.Go? ==> !m.pcs[a.t].RdCount?)
    ensures Step(m, a).Ok? && WqInv(Step(m, a).m)
  {
    var m', t := Step(m, a).m, a.t;
    if a.WrUnlock? || (a.Go? && (m.pcs[t].RdLast? || m.pcs[t].Down?)) {
      ReleaseWq(m, t, m'.pcs[t]);
    } else if a.Go? && (m.pcs[t].RdWait? || m.pcs[t].WrWait?) {
      TakeWq(m, t, m'.pcs[t]);
    } else {
      NeutralWq(m, m', t);
    }
  }

  /** No step violates the assertion on `readers`, and every step keeps the invariant. */
  lemma StepInv(m: Mutex, a: Action)
    requires Inv(m) && Enabled(m, a)
    ensures Step(m, a).Ok? && Inv(Step(m, a).m)
  {
    match a {
      case RdUnlock(_, _) => RdUnlockWq(m, a);
      case Downgrade(_) => DowngradeWq(m, a);
      case Go(t) =>
        if m.pcs[t].RdCount? {
          RdCountWq(m, a);
        } else {
          GoWq(m, a);
        }
      case _ => GoWq(m, a);
    }
    CountedStep(m, a);
    StepRb(m, a);
  }

  // ----- whole runs -----

  function Run(threads: nat, acts: seq<Action>): Outcome {
    if acts == [] then Ok(Init(threads))
    else
      match Run(threads, acts[..|acts| - 1])
      case Panic => Panic
      case Ok(m) => if Enabled(m, acts[|acts| - 1]) then Step(m, acts[|acts| - 1]) else Ok(m)
  }

  lemma {:induction false} RunInv(threads: nat, acts: seq<Action>)
    ensures Run(threads, acts).Ok? && Inv(Run(threads, acts).m)
  {
    if acts == [] {
      InitInv(threads);
    } else {
      RunInv(threads, acts[..|acts| - 1]);
      var m, a := Run(threads, acts[..|acts| - 1]).m, acts[|acts| - 1];
      if Enabled(m, a) {
        StepInv(m, a);
      }
    }
  }

  /** A writer excludes all readers and all other writers. A thread that downgrades excludes writers in every step
      of the way, also while it reads and wq is not held by anyone. */
  lemma WriterExcludesAll(threads: nat, acts: seq<Action>, t: nat, u: nat)
    requires var m := Run(threads, acts);
             m.Ok? && t < |m.m.pcs| && u < |m.m.pcs| && t != u && m.m.pcs[t].Writing?
    ensures var pc := Run(threads, acts).m.pcs[u];
            !pc.Writing? && !pc.WrIn? && !pc.Reading? && !pc.RdIn? && !pc.Down?
  {
    RunInv(threads, acts);
    var m := Run(threads, acts).m;
    assert HasWq(m, t);
    assert !Admitted(m, u) && !HasWq(m, u);
  }

  /** From the moment it starts to downgrade until it gives up its read lock, a thread is passed by no writer: only
      it itself moves on, from the downgrade to reading, and no step makes a writer meanwhile. */
  lemma DowngradeIsAtomic(threads: nat, acts: seq<Action>, a: Action, t: nat) returns (m': Mutex)
    requires var m := Run(threads, acts);
             m.Ok? && Enabled(m.m, a) && t < |m.m.pcs| && (m.m.pcs[t].Down? || m.m.pcs[t].Reading?)
    ensures var m := Run(threads, acts).m;
            && Step(m, a) == Ok(m') && |m'.pcs| == |m.pcs|
            && (a.t != t ==> m'.pcs[t] == m.pcs[t])
            && (a.t == t && m.pcs[t].Down? ==> m'.pcs[t].Reading?)
    ensures m'.pcs[t].Down? || m'.pcs[t].Reading? ==>
              forall u :: 0 <= u < |m'.pcs| ==> !m'.pcs[u].Writing? && !m'.pcs[u].WrIn?
  {
    RunInv(threads, acts);
    var m := Run(threads, acts).m;
    StepInv(m, a);
    m' := Step(m, a).m;
    StepShape(m, a);
    if m'.pcs[t].Down? || m'.pcs[t].Reading? {
      assert HasWq(m', t) || Admitted(m', t);
      forall u: nat | u < |m'.pcs|
        ensures !m'.pcs[u].Writing? && !m'.pcs[u].WrIn?
      {
        assert m'.pcs[u].Writing? || m'.pcs[u].WrIn? ==> HasWq(m', u);
      }
    }
  }

  /** If nobody is inside the lock but some thread is on its way in or out, some such thread can go on. */
  lemma NoDeadlock(threads: nat, acts: seq<Action>, t: nat)
    requires var m := Run(threads, acts);
             && m.Ok? && t < |m.m.pcs| && !m.m.pcs[t].Outside?
             && (forall u: nat :: u < |m.m.pcs| ==> !m.m.pcs[u].Reading? && !m.m.pcs[u].Writing?)
    ensures exists u: nat :: Enabled(Run(threads, acts).m, Go(u))
  {
    RunInv(threads, acts);
    var m := Run(threads, acts).m;
    if Blocked(m, t) {
      var u := t;
      if m.pcs[t].RdQueue? || m.pcs[t].WrQueue? {
        u :| HasRb(m, u);
      }
      if Blocked(m, u) {
        assert m.wq;
        if v: nat :| HasWq(m, v) {
          assert Enabled(m, Go(v));
        } else {
          var v: nat :| Admitted(m, v);
          assert Enabled(m, Go(v));
        }
      } else {
        assert Enabled(m, Go(u));
      }
    } else {
      assert Enabled(m, Go(t));
    }
  }

  // ----- every operation ends where it should -----

  /** The thread is on its way to reading. */
  predicate ToRead(pc: Pc) {
    pc.RdQueue? || pc.RdCount? || pc.RdWait? || pc.RdIn? || pc.Down?
  }

  /** Or to writing, perhaps from reading. */
  predicate ToWrite(pc: Pc) {
    pc.WrQueue? || pc.WrWait? || pc.WrIn? || pc == RdLast(true)
  }

  predicate ToOutside(pc: Pc) {
    pc == RdLast(false)
  }

  /** How many steps of its own an operation still needs. */
  function StepsLeft(pc: Pc): nat {
    match pc
    case RdQueue => 4
    case RdCount => 3
    case RdWait => 2
    case RdIn => 1
    case Down => 1
    case RdLast(upgrade) => if upgrade then 4 else 1
    case WrQueue => 3
    case WrWait => 2
    case WrIn => 1
    case _ => 0
  }

  /** What a thread is up to after it has begun an operation: to lock is to go on to reading or writing, to unlock is to
      go outside, to upgrade is to go on to writing, and to downgrade is to go on to reading. */
  ghost predicate Begun(a: Action, pc: Pc) {
    match a
    case RdLock(_) => ToRead(pc)
    case WrLock(_) => ToWrite(pc)
    case RdUnlock(_, upgrade) => if upgrade then ToWrite(pc) else ToOutside(pc) || pc.Outside?
    case WrUnlock(_) => pc.Outside?
    case Downgrade(_) => ToRead(pc) || pc.Reading?
    case Go(_) => true
  }

  /** A step of its own keeps a thread on its way until it is there, and brings it nearer; steps of others leave it
      alone. */
  lemma OnTheWay(m: Mutex, a: Action)
    requires Enabled(m, a) && Step(m, a).Ok?
    ensures var m' := Step(m, a).m;
            && |m'.pcs| == |m.pcs| && (forall u: nat :: u < |m.pcs| && u != a.t ==> m'.pcs[u] == m.pcs[u])
            && Begun(a, m'.pcs[a.t])
            && (a.Go? ==>
                  && StepsLeft(m'.pcs[a.t]) < StepsLeft(m.pcs[a.t])
                  && (ToRead(m.pcs[a.t]) ==> ToRead(m'.pcs[a.t]) || m'.pcs[a.t].Reading?)
                  && (ToWrite(m.pcs[a.t]) ==> ToWrite(m'.pcs[a.t]) || m'.pcs[a.t].Writing?)
                  && (ToOutside(m.pcs[a.t]) ==> m'.pcs[a.t].Outside?))
  {
  }

  /** Where the operation leads. */
  ghost predicate Ended(a: Action, pc: Pc) {
    match a
    case RdLock(_) => pc.Reading?
    case WrLock(_) => pc.Writing?
    case RdUnlock(_, upgrade) => if upgrade then pc.Writing? else pc.Outside?
    case WrUnlock(_) => pc.Outside?
    case Downgrade(_) => pc.Reading?
    case Go(_) => true
  }

  /** Between actions, the operation begun by `a` is under way or done, and `n` more steps of its own complete it. */
  ghost predicate Within(a: Action, pc: Pc, n: nat) {
    && StepsLeft(pc) <= n
    && if StepsLeft(pc) > 0 then Begun(a, pc) else Ended(a, pc)
  }

  lemma StepWithin(m: Mutex, begun: Action, a: Action, n: nat)
    requires Enabled(m, a) && Step(m, a).Ok? && begun.t < |m.pcs| && !begun.Go? && Within(begun, m.pcs[begun.t], n)
    requires a.t == begun.t ==> a.Go?
    ensures |Step(m, a).m.pcs| == |m.pcs|
    ensures Within(begun, Step(m, a).m.pcs[begun.t], if a.t == begun.t && n > 0 then n - 1 else n)
  {
    OnTheWay(m, a);
  }

  lemma BegunWithin(m: Mutex, a: Action)
    requires Enabled(m, a) && Step(m, a).Ok? && !a.Go?
    ensures |Step(m, a).m.pcs| == |m.pcs| && Within(a, Step(m, a).m.pcs[a.t], 4)
  {
    OnTheWay(m, a);
  }

  /** How many steps of its own the operation begun by action `from` has made in the run. */
  function OwnSteps(threads: nat, acts: seq<Action>, from: nat): nat
    requires from < |acts|
    decreases |acts|
  {
    if |acts| == from + 1 then 0
    else
      var last, a := acts[..|acts| - 1], acts[|acts| - 1];
      var m := Run(threads, last);
      OwnSteps(threads, last, from) + (if m.Ok? && a.t == acts[from].t && Enabled(m.m, a) then 1 else 0)
  }

  /** In every run, a thread that has begun an operation and begins no other is on its way, or has ended where the
      operation leads; four steps of its own complete it. */
  lemma {:induction false} OperationsEnd(threads: nat, acts: seq<Action>, from: nat)
    requires from < |acts| && !acts[from].Go?
    requires Run(threads, acts[..from]).Ok? && Enabled(Run(threads, acts[..from]).m, acts[from])
    requires forall i :: from < i < |acts| && acts[i].t == acts[from].t ==> acts[i].Go?
    ensures Run(threads, acts).Ok? && acts[from].t < |Run(threads, acts).m.pcs|
    ensures var n := OwnSteps(threads, acts, from);
            Within(acts[from], Run(threads, acts).m.pcs[acts[from].t], if n < 4 then 4 - n else 0)
    decreases |acts|
  {
    RunInv(threads, acts);
    var last := acts[..|acts| - 1];
    RunInv(threads, last);
    var m, a := Run(threads, last).m, acts[|acts| - 1];
    if |acts| == from + 1 {
      assert last == acts[..from];
      BegunWithin(m, a);
    } else {
      assert last[..from] == acts[..from];
      OperationsEnd(threads, last, from);
      var n := OwnSteps(threads, last, from);
      if Enabled(m, a) {
        StepWithin(m, acts[from], a, if n < 4 then 4 - n else 0);
      }
    }
  }
}
