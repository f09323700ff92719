/** The locks of the cache hierarchy. An access takes locks on its way up and releases that of the child; on its way
    back it takes the child's lock again before it lets go of its own. */
module LockOrder {
  import opened Wrappers

  /** Every cache has a lock for requests from below, one for its own lines, and, next to a core, one for the filter. */
  datatype Lock = Tcc(cache: nat) | Bcc(cache: nat) | FilterLock(cache: nat)

  datatype Op = Take(lock: Lock) | Release(lock: Lock)

  /** How far every cache is above the cores; `top` is above all. */
  datatype Levels = Levels(of: seq<nat>, top: nat)

  ghost predicate Ok(t: Levels) {
    forall c :: 0 <= c < |t.of| ==> t.of[c] < t.top
  }

  predicate Known(t: Levels, l: Lock) {
    l.cache < |t.of|
  }

  /** Locks for requests from below count upwards, then locks of the lines count downwards. */
  function Rank(t: Levels, l: Lock): int
    requires Known(t, l)
  {
    match l
    case Tcc(c) => t.of[c]
    case Bcc(c) => 2 * t.top - t.of[c]
    case FilterLock(c) => 2 * t.top + 1
  }

  /** All locks held rank below this one. */
  ghost predicate Above(t: Levels, held: set<Lock>, l: Lock) {
    Known(t, l) && forall h :: h in held ==> Known(t, h) && Rank(t, h) < Rank(t, l)
  }

  /** A thread carries out its operations: the locks it holds afterwards, or None if it takes a lock that does not
      rank above those it holds, or releases one that it does not hold. */
  ghost function RunOps(t: Levels, held: set<Lock>, ops: seq<Op>): Option<set<Lock>>
    decreases |ops|
  {
    if ops == [] then Some(held)
    else match ops[0]
      case Take(l) => if Above(t, held, l) then RunOps(t, held + {l}, ops[1..]) else None
      case Release(l) => if l in held then RunOps(t, held - {l}, ops[1..]) else None
  }

  lemma {:induction false} RunConcat(t: Levels, held: set<Lock>, a: seq<Op>, b: seq<Op>)
    requires RunOps(t, held, a).Some?
    ensures RunOps(t, held, a + b) == RunOps(t, RunOps(t, held, a).value, b)
    decreases |a|
  {
    if a == [] {
      assert a + b == b;
    } else {
      assert (a + b)[1..] == a[1..] + b;
      match a[0] {
        case Take(l) => { RunConcat(t, held + {l}, a[1..], b); }
        case Release(l) => { RunConcat(t, held - {l}, a[1..], b); }
      }
    }
  }

  // ----- accesses and invalidations -----

  /** What a cache does while it holds its locks: accesses to its parents, for the line or for a victim, and
      invalidations of its children, in any order; and all that these lead to. */
  datatype Job = Up(cache: nat, jobs: seq<Job>) | Down(cache: nat, jobs: seq<Job>)

  /** Accesses go up in the hierarchy, invalidations go down, and nothing goes up from an invalidation. */
  ghost predicate JobOk(t: Levels, j: Job)
    decreases j
  {
    && j.cache < |t.of|
    && forall k :: 0 <= k < |j.jobs| ==>
         && JobOk(t, j.jobs[k])
         && (j.jobs[k].Up? ==> j.Up? && t.of[j.jobs[k].cache] > t.of[j.cache])
         && (j.jobs[k].Down? ==> t.of[j.jobs[k].cache] < t.of[j.cache])
  }

  function JobOps(t: Levels, j: Job, childLock: Lock): seq<Op>
    requires j.cache < |t.of|
    decreases j, 1, 0
  {
    match j
    case Up(c, jobs) =>
      if t.of[c] == 0 then
        [Release(childLock), Take(Bcc(c))] + JobsOps(t, j, |jobs|) + [Take(childLock), Release(Bcc(c))]
      else
        [Release(childLock), Take(Tcc(c)), Take(Bcc(c))] + JobsOps(t, j, |jobs|)
        + [Take(childLock), Release(Bcc(c)), Release(Tcc(c))]
    case Down(c, jobs) =>
      if t.of[c] == 0 then [Take(Bcc(c)), Take(FilterLock(c)), Release(Bcc(c)), Release(FilterLock(c))]
      else [Take(Bcc(c))] + JobsOps(t, j, |jobs|) + [Release(Bcc(c))]
  }

  /** The first `n` jobs of a cache; accesses to its parents find its own lock as the child's. */
  function JobsOps(t: Levels, j: Job, n: nat): seq<Op>
    requires n <= |j.jobs|
    decreases j, 0, n
  {
    if n == 0 then []
    else JobsOps(t, j, n - 1) + if j.jobs[n - 1].cache < |t.of| then JobOps(t, j.jobs[n - 1], Bcc(j.cache)) else []
  }

  /** Only locks for requests from below, of caches below `level`. */
  ghost predicate TccsBelow(t: Levels, held: set<Lock>, level: nat) {
    forall h :: h in held ==> h.Tcc? && Known(t, h) && Rank(t, h) < level
  }

  ghost predicate AllBelow(t: Levels, held: set<Lock>, rank: int) {
    forall h :: h in held ==> Known(t, h) && Rank(t, h) < rank
  }

  lemma Compose(t: Levels, h0: set<Lock>, a: seq<Op>, b: seq<Op>, c: seq<Op>, h1: set<Lock>, h2: set<Lock>)
    requires RunOps(t, h0, a) == Some(h1) && RunOps(t, h1, b) == Some(h2)
    ensures RunOps(t, h0, a + b + c) == RunOps(t, h2, c)
  {
    RunConcat(t, h0, a, b);
    RunConcat(t, h0, a + b, c);
  }

  lemma TakeOne(t: Levels, held: set<Lock>, l: Lock, ops: seq<Op>)
    requires Above(t, held, l) && ops != [] && ops[0] == Take(l)
    ensures RunOps(t, held, ops) == RunOps(t, held + {l}, ops[1..])
  {
  }

  lemma ReleaseOne(t: Levels, held: set<Lock>, l: Lock, ops: seq<Op>)
    requires l in held && ops != [] && ops[0] == Release(l)
    ensures RunOps(t, held, ops) == RunOps(t, held - {l}, ops[1..])
  {
  }

  lemma StartTerminal(t: Levels, held: set<Lock>, childLock: Lock, c: nat)
    requires Ok(t) && c < |t.of| && TccsBelow(t, held, t.of[c]) && childLock !in held
    ensures RunOps(t, held + {childLock}, [Release(childLock), Take(Bcc(c))]) == Some(held + {Bcc(c)})
  {
    var ops := [Release(childLock), Take(Bcc(c))];
    ReleaseOne(t, held + {childLock}, childLock, ops);
    assert held + {childLock} - {childLock} == held;
    TakeOne(t, held, Bcc(c), ops[1..]);
    assert ops[1..][1..] == [];
  }

  lemma EndTerminal(t: Levels, held: set<Lock>, childLock: Lock, c: nat)
    requires Ok(t) && c < |t.of| && TccsBelow(t, held, t.of[c])
    requires Known(t, childLock) && Rank(t, childLock) > Rank(t, Bcc(c))
    ensures RunOps(t, held + {Bcc(c)}, [Take(childLock), Release(Bcc(c))]) == Some(held + {childLock})
  {
    var ops := [Take(childLock), Release(Bcc(c))];
    TakeOne(t, held + {Bcc(c)}, childLock, ops);
    ReleaseOne(t, held + {Bcc(c)} + {childLock}, Bcc(c), ops[1..]);
    assert held + {Bcc(c)} + {childLock} - {Bcc(c)} == held + {childLock};
    assert ops[1..][1..] == [];
  }

  lemma StartInner(t: Levels, held: set<Lock>, childLock: Lock, c: nat)
    requires Ok(t) && c < |t.of| && TccsBelow(t, held, t.of[c]) && childLock !in held
    ensures RunOps(t, held + {childLock}, [Release(childLock), Take(Tcc(c)), Take(Bcc(c))])
            == Some(held + {Tcc(c)} + {Bcc(c)})
  {
    var ops := [Release(childLock), Take(Tcc(c)), Take(Bcc(c))];
    ReleaseOne(t, held + {childLock}, childLock, ops);
    assert held + {childLock} - {childLock} == held;
    TakeOne(t, held, Tcc(c), ops[1..]);
    TakeOne(t, held + {Tcc(c)}, Bcc(c), ops[1..][1..]);
    assert ops[1..][1..][1..] == [];
  }

  lemma EndInner(t: Levels, held: set<Lock>, childLock: Lock, c: nat)
    requires Ok(t) && c < |t.of| && TccsBelow(t, held, t.of[c])
    requires Known(t, childLock) && Rank(t, childLock) > Rank(t, Bcc(c))
    ensures RunOps(t, held + {Tcc(c)} + {Bcc(c)}, [Take(childLock), Release(Bcc(c)), Release(Tcc(c))])
            == Some(held + {childLock})
  {
    var ops := [Take(childLock), Release(Bcc(c)), Release(Tcc(c))];
    var all := held + {Tcc(c)} + {Bcc(c)};
    TakeOne(t, all, childLock, ops);
    ReleaseOne(t, all + {childLock}, Bcc(c), ops[1..]);
    ReleaseOne(t, all + {childLock} - {Bcc(c)}, Tcc(c), ops[1..][1..]);
    assert all + {childLock} - {Bcc(c)} - {Tcc(c)} == held + {childLock};
    assert ops[1..][1..][1..] == [];
  }

  lemma DownTerminal(t: Levels, held: set<Lock>, c: nat)
    requires Ok(t) && c < |t.of| && AllBelow(t, held, Rank(t, Bcc(c)))
    ensures RunOps(t, held, [Take(Bcc(c)), Take(FilterLock(c)), Release(Bcc(c)), Release(FilterLock(c))]) == Some(held)
  {
    var ops := [Take(Bcc(c)), Take(FilterLock(c)), Release(Bcc(c)), Release(FilterLock(c))];
    var b, f := Bcc(c), FilterLock(c);
    TakeOne(t, held, b, ops);
    TakeOne(t, held + {b}, f, ops[1..]);
    ReleaseOne(t, held + {b} + {f}, b, ops[1..][1..]);
    ReleaseOne(t, held + {b} + {f} - {b}, f, ops[1..][1..][1..]);
    assert held + {b} + {f} - {b} - {f} == held;
    assert ops[1..][1..][1..][1..] == [];
  }

  /** An access finds the child's lock held, keeps to the order, and leaves all locks as it found them. */
  lemma {:induction false} UpSafe(t: Levels, j: Job, held: set<Lock>, childLock: Lock)
    requires Ok(t) && j.Up? && JobOk(t, j) && TccsBelow(t, held, t.of[j.cache])
    requires Known(t, childLock) && Rank(t, childLock) > Rank(t, Bcc(j.cache)) && !childLock.Tcc?
    ensures RunOps(t, held + {childLock}, JobOps(t, j, childLock)) == Some(held + {childLock})
    decreases j, 1, 0
  {
    var c, jobs := j.cache, JobsOps(t, j, |j.jobs|);
    if t.of[c] == 0 {
      StartTerminal(t, held, childLock, c);
      JobsSafe(t, j, |j.jobs|, held);
      EndTerminal(t, held, childLock, c);
      Compose(t, held + {childLock}, [Release(childLock), Take(Bcc(c))], jobs, [Take(childLock), Release(Bcc(c))],
              held + {Bcc(c)}, held + {Bcc(c)});
    } else {
      var inner := held + {Tcc(c)} + {Bcc(c)};
      StartInner(t, held, childLock, c);
      JobsSafe(t, j, |j.jobs|, held + {Tcc(c)});
      EndInner(t, held, childLock, c);
      Compose(t, held + {childLock}, [Release(childLock), Take(Tcc(c)), Take(Bcc(c))], jobs,
              [Take(childLock), Release(Bcc(c)), Release(Tcc(c))], inner, inner);
    }
  }

  /** So does what a cache does for an access while it holds its own lock. */
  lemma {:induction false} JobsSafe(t: Levels, j: Job, n: nat, held: set<Lock>)
    requires Ok(t) && j.Up? && JobOk(t, j) && n <= |j.jobs| && TccsBelow(t, held, t.of[j.cache] + 1)
    ensures RunOps(t, held + {Bcc(j.cache)}, JobsOps(t, j, n)) == Some(held + {Bcc(j.cache)})
    decreases j, 0, n
  {
    if n > 0 {
      var own, job := Bcc(j.cache), j.jobs[n - 1];
      assert JobOk(t, job);
      JobsSafe(t, j, n - 1, held);
      if job.Up? {
        UpSafe(t, job, held, own);
      } else {
        DownSafe(t, job, held + {own}, own);
      }
      RunConcat(t, held + {own}, JobsOps(t, j, n - 1), JobOps(t, job, own));
    }
  }

  /** An invalidation finds only locks below its own, keeps to the order, and leaves all locks as it found them. */
  lemma {:induction false} DownSafe(t: Levels, j: Job, held: set<Lock>, childLock: Lock)
    requires Ok(t) && j.Down? && JobOk(t, j) && AllBelow(t, held, Rank(t, Bcc(j.cache)))
    ensures RunOps(t, held, JobOps(t, j, childLock)) == Some(held)
    decreases j, 1, 0
  {
    var c := j.cache;
    if t.of[c] == 0 {
      DownTerminal(t, held, c);
    } else {
      TakeOne(t, held, Bcc(c), [Take(Bcc(c))]);
      DownJobsSafe(t, j, |j.jobs|, held + {Bcc(c)});
      ReleaseOne(t, held + {Bcc(c)}, Bcc(c), [Release(Bcc(c))]);
      assert held + {Bcc(c)} - {Bcc(c)} == held;
      Compose(t, held, [Take(Bcc(c))], JobsOps(t, j, |j.jobs|), [Release(Bcc(c))], held + {Bcc(c)}, held + {Bcc(c)});
    }
  }

  lemma {:induction false} DownJobsSafe(t: Levels, j: Job, n: nat, held: set<Lock>)
    requires Ok(t) && j.Down? && JobOk(t, j) && n <= |j.jobs| && AllBelow(t, held, Rank(t, Bcc(j.cache)) + 1)
    ensures RunOps(t, held, JobsOps(t, j, n)) == Some(held)
    decreases j, 0, n
  {
    if n > 0 {
      var own, job := Bcc(j.cache), j.jobs[n - 1];
      assert JobOk(t, job) && job.Down?;
      DownJobsSafe(t, j, n - 1, held);
      DownSafe(t, job, held, own);
      RunConcat(t, held, JobsOps(t, j, n - 1), JobOps(t, job, own));
    }
  }

  // ----- which locks are held while a cache is at work -----

  /** The locks under which a cache serves an access: the one that keeps other accesses out, which a cache next to a
      core does not need, and the one that keeps invalidations out. */
  function Own(t: Levels, c: nat): set<Lock>
    requires c < |t.of|
  {
    if t.of[c] == 0 then {Bcc(c)} else {Tcc(c), Bcc(c)}
  }

  /** After the first `k` operations the thread holds these locks. */
  ghost predicate HoldsAfter(t: Levels, held: set<Lock>, ops: seq<Op>, k: nat, now: set<Lock>) {
    k <= |ops| && RunOps(t, held, ops[..k]) == Some(now)
  }

  /** And then it carries out `next`. */
  ghost predicate HoldsAt(t: Levels, held: set<Lock>, ops: seq<Op>, next: seq<Op>, now: set<Lock>) {
    exists k: nat :: HoldsAfter(t, held, ops, k, now) && next <= ops[k..]
  }

  lemma AtCut(t: Levels, held: set<Lock>, pre: seq<Op>, next: seq<Op>, rest: seq<Op>, now: set<Lock>)
    requires RunOps(t, held, pre) == Some(now)
    ensures HoldsAt(t, held, pre + (next + rest), next, now)
  {
    var ops := pre + (next + rest);
    assert ops[..|pre|] == pre && ops[|pre|..] == next + rest;
    assert HoldsAfter(t, held, ops, |pre|, now);
  }

  /** What is done for job number `n`. */
  function Part(t: Levels, j: Job, n: nat): seq<Op>
    requires n < |j.jobs|
  {
    if j.jobs[n].cache < |t.of| then JobOps(t, j.jobs[n], Bcc(j.cache)) else []
  }

  lemma JobsStep(t: Levels, j: Job, n: nat)
    requires n < |j.jobs|
    ensures JobsOps(t, j, n + 1) == JobsOps(t, j, n) + Part(t, j, n)
  {
  }

  lemma Regroup(all: seq<Op>, a: seq<Op>, b: seq<Op>, c: seq<Op>, d: seq<Op>)
    requires all == a + (b + c)
    ensures all + d == a + (b + (c + d))
  {
  }

  /** These are the jobs from number `n` on, but `n` itself. */
  ghost predicate After(t: Levels, j: Job, n: nat, m: nat, rest: seq<Op>)
    requires n < m <= |j.jobs|
  {
    JobsOps(t, j, m) == JobsOps(t, j, n) + (Part(t, j, n) + rest)
  }

  lemma AfterStep(t: Levels, j: Job, n: nat, m: nat, rest: seq<Op>)
    requires n < m < |j.jobs| && After(t, j, n, m, rest)
    ensures After(t, j, n, m + 1, rest + Part(t, j, m))
  {
    JobsStep(t, j, m);
    Regroup(JobsOps(t, j, m), JobsOps(t, j, n), Part(t, j, n), rest, Part(t, j, m));
  }

  lemma AfterFirst(t: Levels, j: Job, n: nat)
    requires n < |j.jobs|
    ensures After(t, j, n, n + 1, [])
  {
    JobsStep(t, j, n);
    assert Part(t, j, n) + [] == Part(t, j, n);
  }

  lemma {:induction false} JobsTail(t: Levels, j: Job, n: nat, m: nat) returns (rest: seq<Op>)
    requires n < m <= |j.jobs|
    ensures After(t, j, n, m, rest)
    decreases m
  {
    if m == n + 1 {
      rest := [];
      AfterFirst(t, j, n);
    } else {
      rest := JobsTail(t, j, n, m - 1);
      AfterStep(t, j, n, m - 1, rest);
      rest := rest + Part(t, j, m - 1);
    }
  }

  /** The beginning and the end of an access. */
  lemma UpParts(t: Levels, j: Job, held: set<Lock>, childLock: Lock) returns (first: seq<Op>, last: seq<Op>)
    requires Ok(t) && j.Up? && JobOk(t, j) && TccsBelow(t, held, t.of[j.cache])
    requires Known(t, childLock) && Rank(t, childLock) > Rank(t, Bcc(j.cache)) && !childLock.Tcc?
    ensures JobOps(t, j, childLock) == first + JobsOps(t, j, |j.jobs|) + last
    ensures RunOps(t, held + {childLock}, first) == Some(held + Own(t, j.cache))
    ensures last != [] && last[0] == Take(childLock)
  {
    var c := j.cache;
    if t.of[c] == 0 {
      first, last := [Release(childLock), Take(Bcc(c))], [Take(childLock), Release(Bcc(c))];
      StartTerminal(t, held, childLock, c);
    } else {
      first := [Release(childLock), Take(Tcc(c)), Take(Bcc(c))];
      last := [Take(childLock), Release(Bcc(c)), Release(Tcc(c))];
      StartInner(t, held, childLock, c);
      assert held + {Tcc(c)} + {Bcc(c)} == held + Own(t, c);
    }
  }

  /** What was done before the end of an access, or before one of its jobs, leaves its own locks in hand. */
  lemma UpAt(t: Levels, j: Job, held: set<Lock>, childLock: Lock, n: nat, first: seq<Op>)
    requires Ok(t) && j.Up? && JobOk(t, j) && TccsBelow(t, held, t.of[j.cache]) && n <= |j.jobs|
    requires RunOps(t, held + {childLock}, first) == Some(held + Own(t, j.cache))
    ensures RunOps(t, held + {childLock}, first + JobsOps(t, j, n)) == Some(held + Own(t, j.cache))
  {
    var c := j.cache;
    if t.of[c] == 0 {
      JobsSafe(t, j, n, held);
    } else {
      JobsSafe(t, j, n, held + {Tcc(c)});
      assert held + {Tcc(c)} + {Bcc(c)} == held + Own(t, c);
    }
    RunConcat(t, held + {childLock}, first, JobsOps(t, j, n));
  }

  lemma UpWorksAt(t: Levels, j: Job, held: set<Lock>, childLock: Lock, n: nat)
    requires Ok(t) && j.Up? && JobOk(t, j) && TccsBelow(t, held, t.of[j.cache]) && n < |j.jobs|
    requires Known(t, childLock) && Rank(t, childLock) > Rank(t, Bcc(j.cache)) && !childLock.Tcc?
    ensures HoldsAt(t, held + {childLock}, JobOps(t, j, childLock), Part(t, j, n), held + Own(t, j.cache))
  {
    var first, last := UpParts(t, j, held, childLock);
    var rest := JobsTail(t, j, n, |j.jobs|);
    UpAt(t, j, held, childLock, n, first);
    AtCut(t, held + {childLock}, first + JobsOps(t, j, n), Part(t, j, n), rest + last, held + Own(t, j.cache));
    Regrouped(first, JobsOps(t, j, n), Part(t, j, n), rest, last);
  }

  lemma Regrouped(first: seq<Op>, before: seq<Op>, next: seq<Op>, rest: seq<Op>, last: seq<Op>)
    ensures first + (before + (next + rest)) + last == first + before + (next + (rest + last))
  {
  }

  /** Whatever a cache does for an access, it does under its own locks and without that of the child; and it takes the
      child's lock again while it still holds its own. */
  lemma UpWorks(t: Levels, j: Job, held: set<Lock>, childLock: Lock)
    requires Ok(t) && j.Up? && JobOk(t, j) && TccsBelow(t, held, t.of[j.cache])
    requires Known(t, childLock) && Rank(t, childLock) > Rank(t, Bcc(j.cache)) && !childLock.Tcc?
    ensures forall n: nat :: n < |j.jobs| ==>
              HoldsAt(t, held + {childLock}, JobOps(t, j, childLock), Part(t, j, n), held + Own(t, j.cache))
    ensures HoldsAt(t, held + {childLock}, JobOps(t, j, childLock), [Take(childLock)], held + Own(t, j.cache))
    ensures childLock !in held + Own(t, j.cache)
  {
    forall n: nat | n < |j.jobs|
      ensures HoldsAt(t, held + {childLock}, JobOps(t, j, childLock), Part(t, j, n), held + Own(t, j.cache))
    {
      UpWorksAt(t, j, held, childLock, n);
    }
    var first, last := UpParts(t, j, held, childLock);
    UpAt(t, j, held, childLock, |j.jobs|, first);
    AtCut(t, held + {childLock}, first + JobsOps(t, j, |j.jobs|), [Take(childLock)], last[1..], held + Own(t, j.cache));
    assert [Take(childLock)] + last[1..] == last;
  }

  lemma DownWorksAt(t: Levels, j: Job, held: set<Lock>, childLock: Lock, n: nat)
    requires Ok(t) && j.Down? && JobOk(t, j) && AllBelow(t, held, Rank(t, Bcc(j.cache))) && n < |j.jobs|
    requires t.of[j.cache] > 0
    ensures HoldsAt(t, held, JobOps(t, j, childLock), Part(t, j, n), held + {Bcc(j.cache)})
  {
    var h, first, last := held + {Bcc(j.cache)}, [Take(Bcc(j.cache))], [Release(Bcc(j.cache))];
    var rest := JobsTail(t, j, n, |j.jobs|);
    TakeOne(t, held, Bcc(j.cache), first);
    DownJobsSafe(t, j, n, h);
    RunConcat(t, held, first, JobsOps(t, j, n));
    AtCut(t, held, first + JobsOps(t, j, n), Part(t, j, n), rest + last, h);
    Regrouped(first, JobsOps(t, j, n), Part(t, j, n), rest, last);
  }

  /** A cache invalidates its children, or next to a core the filter, while it keeps other accesses and invalidations of
      its own lines out. */
  lemma DownWorks(t: Levels, j: Job, held: set<Lock>, childLock: Lock)
    requires Ok(t) && j.Down? && JobOk(t, j) && AllBelow(t, held, Rank(t, Bcc(j.cache)))
    ensures t.of[j.cache] > 0 ==>
              forall n: nat :: n < |j.jobs| ==>
                HoldsAt(t, held, JobOps(t, j, childLock), Part(t, j, n), held + {Bcc(j.cache)})
    ensures t.of[j.cache] == 0 ==>
              HoldsAfter(t, held, JobOps(t, j, childLock), 2, held + {Bcc(j.cache)} + {FilterLock(j.cache)})
  {
    var c := j.cache;
    if t.of[c] == 0 {
      var ops := [Take(Bcc(c)), Take(FilterLock(c))];
      TakeOne(t, held, Bcc(c), ops);
      TakeOne(t, held + {Bcc(c)}, FilterLock(c), ops[1..]);
      assert ops[1..][1..] == [];
      assert JobOps(t, j, childLock)[..2] == ops;
    } else {
      forall n: nat | n < |j.jobs|
        ensures HoldsAt(t, held, JobOps(t, j, childLock), Part(t, j, n), held + {Bcc(c)})
      {
        DownWorksAt(t, j, held, childLock, n);
      }
    }
  }

  /** A load or store: the core takes the filter's lock and accesses its cache. */
  function CoreOps(t: Levels, j: Job): seq<Op>
    requires j.cache < |t.of|
  {
    var l := FilterLock(j.cache);
    [Take(l)] + JobOps(t, j, l) + [Release(l)]
  }

  lemma CoreSafe(t: Levels, j: Job)
    requires Ok(t) && j.Up? && JobOk(t, j)
    ensures RunOps(t, {}, CoreOps(t, j)) == Some({})
  {
    var l := FilterLock(j.cache);
    TakeOne(t, {}, l, [Take(l)]);
    UpSafe(t, j, {}, l);
    ReleaseOne(t, {} + {l}, l, [Release(l)]);
    assert {} + {l} - {l} == {};
    Compose(t, {}, [Take(l)], JobOps(t, j, l), [Release(l)], {} + {l}, {} + {l});
  }

  // ----- any number of threads -----

  /** The locks a thread holds, and what it still has to do. */
  datatype Thread = Thread(held: set<Lock>, ops: seq<Op>)

  /** No two threads hold the same lock, and every thread keeps to the order until it is done and holds none. */
  ghost predicate SystemOk(t: Levels, threads: seq<Thread>) {
    && (forall i :: 0 <= i < |threads| ==> RunOps(t, threads[i].held, threads[i].ops) == Some({}))
    && (forall i, j :: 0 <= i < j < |threads| ==> threads[i].held !! threads[j].held)
  }

  /** The thread is not at its end, and does not wait for a lock that another one holds. */
  ghost predicate CanStep(threads: seq<Thread>, i: nat) {
    && i < |threads| && threads[i].ops != []
    && (threads[i].ops[0].Take? ==> forall j :: 0 <= j < |threads| ==> threads[i].ops[0].lock !in threads[j].held)
  }

  /** The lock that a thread takes next. */
  function NextRank(t: Levels, th: Thread): int {
    if th.ops != [] && th.ops[0].Take? && Known(t, th.ops[0].lock) then Rank(t, th.ops[0].lock) else 2 * t.top + 2
  }

  /** From a thread that is not done, following who waits for whom leads to one that can go on. */
  lemma {:induction false} FindStep(t: Levels, threads: seq<Thread>, i: nat) returns (k: nat)
    requires Ok(t) && SystemOk(t, threads) && i < |threads| && threads[i].ops != []
    ensures CanStep(threads, k)
    decreases 2 * t.top + 2 - NextRank(t, threads[i])
  {
    if CanStep(threads, i) {
      k := i;
    } else {
      var l := threads[i].ops[0].lock;
      var j :| 0 <= j < |threads| && l in threads[j].held;
      Waits(t, threads[i], threads[j], l);
      k := FindStep(t, threads, j);
    }
  }

  /** Whoever holds the lock is not done, and waits, if at all, for one of higher rank. */
  lemma Waits(t: Levels, waiting: Thread, holder: Thread, l: Lock)
    requires Ok(t) && RunOps(t, waiting.held, waiting.ops) == Some({}) && RunOps(t, holder.held, holder.ops) == Some({})
    requires waiting.ops != [] && waiting.ops[0] == Take(l) && l in holder.held
    ensures holder.ops != [] && NextRank(t, waiting) < NextRank(t, holder) <= 2 * t.top + 2
  {
  }

  /** One thread goes on. */
  ghost function Step(threads: seq<Thread>, i: nat): seq<Thread>
    requires i < |threads| && threads[i].ops != []
  {
    var th := threads[i];
    var held := if th.ops[0].Take? then th.held + {th.ops[0].lock} else th.held - {th.ops[0].lock};
    threads[i := Thread(held, th.ops[1..])]
  }

  lemma StepOk(t: Levels, threads: seq<Thread>, i: nat)
    requires SystemOk(t, threads) && CanStep(threads, i)
    ensures SystemOk(t, Step(threads, i))
  {
  }

  /** Any run: at every turn some thread that can goes on; others have no effect. */
  ghost function Run(threads: seq<Thread>, schedule: seq<nat>): seq<Thread> {
    if schedule == [] then threads
    else
      var before, i := Run(threads, schedule[..|schedule| - 1]), schedule[|schedule| - 1];
      if CanStep(before, i) then Step(before, i) else before
  }

  lemma {:induction false} RunOk(t: Levels, threads: seq<Thread>, schedule: seq<nat>)
    requires SystemOk(t, threads)
    ensures SystemOk(t, Run(threads, schedule))
  {
    if schedule != [] {
      RunOk(t, threads, schedule[..|schedule| - 1]);
      var before, i := Run(threads, schedule[..|schedule| - 1]), schedule[|schedule| - 1];
      if CanStep(before, i) {
        StepOk(t, before, i);
      }
    }
  }

  ghost predicate Accesses(t: Levels, accesses: seq<Job>) {
    forall k :: 0 <= k < |accesses| ==> accesses[k].cache < |t.of| && accesses[k].Up? && JobOk(t, accesses[k])
  }

  /** All that a core does: any loads and stores, one after the other. */
  ghost function Program(t: Levels, accesses: seq<Job>): seq<Op>
    requires Accesses(t, accesses)
  {
    if accesses == [] then []
    else Program(t, accesses[..|accesses| - 1]) + CoreOps(t, accesses[|accesses| - 1])
  }

  lemma {:induction false} ProgramSafe(t: Levels, accesses: seq<Job>)
    requires Ok(t) && Accesses(t, accesses)
    ensures RunOps(t, {}, Program(t, accesses)) == Some({})
  {
    if accesses != [] {
      var before, last := accesses[..|accesses| - 1], accesses[|accesses| - 1];
      ProgramSafe(t, before);
      CoreSafe(t, last);
      RunConcat(t, {}, Program(t, before), CoreOps(t, last));
    }
  }

  /** Any number of cores, in any hierarchy, with any accesses, in any interleaving: as long as one is not done, one can
      go on. */
  lemma NoDeadlock(t: Levels, threads: seq<Thread>, accesses: seq<seq<Job>>, schedule: seq<nat>)
    requires Ok(t) && |accesses| == |threads|
    requires forall i :: 0 <= i < |accesses| ==> Accesses(t, accesses[i])
    requires forall i :: 0 <= i < |threads| ==> threads[i] == Thread({}, Program(t, accesses[i]))
    ensures var now := Run(threads, schedule);
            && ((forall i :: 0 <= i < |now| ==> now[i].ops == []) || exists k :: CanStep(now, k))
            && (forall i, j :: 0 <= i < j < |now| ==> now[i].held !! now[j].held)
            && (forall i :: 0 <= i < |now| && now[i].ops == [] ==> now[i].held == {})
  {
    forall i | 0 <= i < |threads|
      ensures RunOps(t, threads[i].held, threads[i].ops) == Some({})
    {
      ProgramSafe(t, accesses[i]);
    }
    RunOk(t, threads, schedule);
    var now := Run(threads, schedule);
    if i :| 0 <= i < |now| && now[i].ops != [] {
      var k := FindStep(t, now, i);
    }
  }
}
