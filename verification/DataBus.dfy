/** How the detailed memory model reserves the data bus of a channel. It keeps the last few transfers in a sorted log,
    and looks for the first gap in which a new transfer fits. */
module DataBus {

  /** A transfer takes the bus from `start` up to, but not including, `end`. */
  datatype Slot = Slot(start: nat, end: nat)

  /** Timing in memory cycles: how long a transfer takes, the pause between transfers, how long after its command a
      transfer begins (for reads and writes), how much of the transfer the reader waits for, and the size of the log. */
  datatype Params = Params(tTrans: nat, tRTRS: nat, tCAS: nat, tCWD: nat, tTransCrit: nat, depth: nat)

  ghost predicate Ok(p: Params) {
    p.tTrans > 0 && p.tTransCrit <= p.tTrans && p.depth > 0
  }

  function DataLatency(p: Params, write: bool): nat {
    if write then p.tCWD else p.tCAS
  }

  /** Two transfers, with the pause between them. */
  ghost predicate Apart(p: Params, a: Slot, b: Slot) {
    a.end + p.tRTRS <= b.start || b.end + p.tRTRS <= a.start
  }

  /** A transfer that starts at `s` keeps apart from every transfer of the log. */
  ghost predicate Fits(p: Params, log: seq<Slot>, s: nat) {
    forall i :: 0 <= i < |log| ==> Apart(p, log[i], Slot(s, s + p.tTrans))
  }

  ghost predicate NoLater(a: Slot, b: Slot) {
    a.start <= b.start && a.end <= b.end
  }

  /** Only a transfer that is taken to begin at cycle 0 is longer than a transfer is. */
  ghost predicate Long(p: Params, a: Slot) {
    a.start + p.tTrans <= a.end && (a.start > 0 ==> a.start + p.tTrans == a.end)
  }

  ghost predicate Ordered(p: Params, log: seq<Slot>) {
    && (forall i :: 0 <= i < |log| ==> Long(p, log[i]))
    && (forall i, j :: 0 <= i < j < |log| ==> NoLater(log[i], log[j]))
  }

  ghost predicate LogOk(p: Params, log: seq<Slot>) {
    |log| <= p.depth && Ordered(p, log)
  }

  /** The loop's test for a conflict of the slot at `s` with a transfer. */
  predicate Conflict(p: Params, a: Slot, s: nat) {
    var e, busEnd := s + p.tTrans + p.tRTRS, a.end + p.tRTRS;
    (a.start < e <= busEnd) || (a.start <= s < busEnd)
  }

  /** For a transfer that is long enough, the test finds every conflict. */
  lemma ConflictIs(p: Params, a: Slot, s: nat)
    requires Ok(p) && a.start + p.tTrans <= a.end
    ensures Conflict(p, a, s) <==> !Apart(p, a, Slot(s, s + p.tTrans))
  {
  }

  /** Past a conflict, there is no earlier slot than right behind the transfer. */
  lemma NoneBefore(p: Params, a: Slot, s: nat, t: nat)
    requires Ok(p) && a.start + p.tTrans <= a.end && Conflict(p, a, s) && s <= t < a.end + p.tRTRS
    ensures !Apart(p, a, Slot(t, t + p.tTrans))
  {
  }

  /** The first `n` transfers leave the slot alone. */
  ghost predicate Clear(p: Params, log: seq<Slot>, n: nat, s: nat) {
    n <= |log| && forall i :: 0 <= i < n ==> Apart(p, log[i], Slot(s, s + p.tTrans))
  }

  /** Moving behind a transfer does not run into an earlier one. */
  lemma StaysClear(p: Params, log: seq<Slot>, n: nat, s: nat)
    requires Ok(p) && LogOk(p, log) && n < |log| && Clear(p, log, n, s) && Conflict(p, log[n], s)
    ensures Clear(p, log, n + 1, log[n].end + p.tRTRS)
  {
  }

  /** What is asked of the bus: a read or a write that may be issued from `rdwrStart` on, and how many cycles waking the
      rank from power-down takes. */
  datatype Request = Request(write: bool, rdwrStart: nat, penalty: nat)

  /** The transfer for a request: the first that keeps apart from the log, delayed by the penalty. */
  ghost predicate Chosen(p: Params, log: seq<Slot>, q: Request, slot: Slot) {
    var first := q.rdwrStart + if q.write then p.tCWD else p.tCAS;
    && slot.end == slot.start + p.tTrans && slot.start >= first + q.penalty
    && Fits(p, log, slot.start - q.penalty)
    && forall s :: first <= s < slot.start - q.penalty ==> !Fits(p, log, s)
  }

  /** The order of the sort. */
  predicate Before(a: Slot, b: Slot) {
    a.start < b.start || (a.start == b.start && a.end < b.end)
  }

  /** Where a transfer belongs in a sorted log. */
  function PlaceOf(log: seq<Slot>, slot: Slot): (k: nat)
    ensures k <= |log|
  {
    if log == [] || !Before(slot, log[|log| - 1]) then |log| else PlaceOf(log[..|log| - 1], slot)
  }

  function Inserted(log: seq<Slot>, slot: Slot): seq<Slot> {
    log[..PlaceOf(log, slot)] + [slot] + log[PlaceOf(log, slot)..]
  }

  /** The log after one more transfer. If it grows too long its first transfer goes, and the next one is taken to have
      begun at cycle 0. */
  function Noted(p: Params, log: seq<Slot>, slot: Slot): seq<Slot>
    requires p.depth > 0
  {
    var more := Inserted(log, slot);
    if |more| > p.depth && |more| > 1 then more[1..][0 := more[1].(start := 0)] else more
  }

  class Bus {
    const p: Params
    var accessLog: seq<Slot>
    ghost var history: seq<Slot>  // all transfers so far

    /** Every transfer so far lies inside some transfer of the log, so the log has lost none. */
    ghost predicate Valid()
      reads this
    {
      Ok(p) && accessLog == LogOf(p, history) && LogOk(p, accessLog) && Covers(accessLog, history)
    }

    constructor (p: Params)
      requires Ok(p)
      ensures Valid() && history == [] && accessLog == [] && this.p == p
    {
      this.p := p;
      accessLog, history := [], [];
    }

    /** The first cycle for the command, not before `arrivalCycle`, for which the transfer fits into the log. */
    method CalcInterIssueCycle(write: bool, arrivalCycle: nat) returns (issueCycle: nat)
      requires Valid()
      ensures issueCycle >= arrivalCycle
      ensures Fits(p, accessLog, issueCycle + DataLatency(p, write))
      ensures forall s :: arrivalCycle + DataLatency(p, write) <= s < issueCycle + DataLatency(p, write) ==>
                !Fits(p, accessLog, s)
    {
      var tWait := DataLatency(p, write);
      var tSlot := p.tTrans + p.tRTRS;
      var tStart := arrivalCycle + tWait;
      var tEnd := tStart + tSlot;
      var i := 0;
      while i < |accessLog|
        invariant i <= |accessLog| && arrivalCycle + tWait <= tStart && tEnd == tStart + tSlot
        invariant Clear(p, accessLog, i, tStart)
        invariant forall s :: arrivalCycle + tWait <= s < tStart ==> !Fits(p, accessLog, s)
      {
        var busStart := accessLog[i].start;
        var busEnd := accessLog[i].end + p.tRTRS;
        ConflictIs(p, accessLog[i], tStart);
        if (busStart < tEnd && tEnd <= busEnd) || (busStart <= tStart && tStart < busEnd) {
          forall s | tStart <= s < busEnd
            ensures !Fits(p, accessLog, s)
          {
            NoneBefore(p, accessLog[i], tStart, s);
          }
          StaysClear(p, accessLog, i, tStart);
          tStart := busEnd;
          tEnd := tStart + tSlot;
        } else if busStart > tEnd {
          break;
        }
        i := i + 1;
      }
      issueCycle := tStart - tWait;
    }

    method UpdateDataBusCycle(start: nat, end: nat)
      requires Valid() && start + p.tTrans == end && InStep(p, accessLog, start)
      modifies this
      ensures Valid() && history == old(history) + [Slot(start, end)]
      ensures accessLog == Noted(p, old(accessLog), Slot(start, end))
    {
      NotedOk(p, accessLog, history, Slot(start, end));
      assert (history + [Slot(start, end)])[..|history|] == history;
      Insert(Slot(start, end));
      if |accessLog| > p.depth {
        accessLog := accessLog[1..];
        accessLog := accessLog[0 := accessLog[0].(start := 0)];
      }
    }

    /** Puts a transfer into its place in the log, which was sorted before. */
    method Insert(slot: Slot)
      modifies this
      ensures accessLog == Inserted(old(accessLog), slot) && history == old(history) + [slot]
    {
      var k: nat := |accessLog|;
      assert accessLog[..k] == accessLog;
      while k > 0 && Before(slot, accessLog[k - 1])
        invariant k <= |accessLog| && PlaceOf(accessLog[..k], slot) == PlaceOf(accessLog, slot)
      {
        assert accessLog[..k][..k - 1] == accessLog[..k - 1];
        k := k - 1;
      }
      accessLog := accessLog[..k] + [slot] + accessLog[k..];
      history := history + [slot];
    }

    /** Reserves the bus for an access that arrived at `arrivalCycle` and may be issued from `rdwrStart` on; waking the
        rank from power-down takes `penalty` cycles more. Without a penalty the transfer keeps apart from all transfers
        so far, also from those the log has dropped. */
    method Reserve(write: bool, arrivalCycle: nat, rdwrStart: nat, penalty: nat) returns (latency: nat)
      requires Valid() && arrivalCycle <= rdwrStart
      modifies this
      ensures Valid() && |history| == |old(history)| + 1 && old(history) <= history
      ensures var slot := history[|history| - 1];
              && arrivalCycle + latency == slot.start + p.tTransCrit
              && Chosen(p, old(accessLog), Request(write, rdwrStart, penalty), slot)
              && accessLog == Noted(p, old(accessLog), slot)
      ensures |accessLog| == if |history| < p.depth then |history| else p.depth
      ensures penalty == 0 ==> forall i :: 0 <= i < |old(history)| ==> Apart(p, old(history)[i], history[|history| - 1])
    {
      var rdwrIssueCycle := CalcInterIssueCycle(write, rdwrStart);
      var issueDelay := rdwrIssueCycle - arrivalCycle;
      var dataDelay := DataLatency(p, write) + p.tTransCrit;
      latency := issueDelay + dataDelay + penalty;
      var latencyMem := latency + (p.tTrans - p.tTransCrit);
      var busEndCycle := arrivalCycle + latencyMem;
      var busStartCycle := busEndCycle - p.tTrans;
      ghost var s := rdwrIssueCycle + DataLatency(p, write);
      assert busStartCycle == s + penalty;
      FitsInStep(p, accessLog, s, penalty);
      FitsAll(p, accessLog, history, s);
      UpdateDataBusCycle(busStartCycle, busEndCycle);
      LogSize(p, history);
    }
  }

  // ----- the log stands for all transfers -----

  ghost predicate Inside(h: Slot, a: Slot) {
    a.start <= h.start && h.end <= a.end
  }

  ghost predicate Covered(log: seq<Slot>, h: Slot) {
    exists i :: 0 <= i < |log| && Inside(h, log[i])
  }

  ghost predicate Covers(log: seq<Slot>, history: seq<Slot>) {
    forall i :: 0 <= i < |history| ==> Covered(log, history[i])
  }

  /** A transfer at `start` ends after all transfers of the log that begin before it. */
  ghost predicate InStep(p: Params, log: seq<Slot>, start: nat) {
    forall i :: 0 <= i < |log| && log[i].start <= start ==> log[i].end <= start + p.tTrans
  }

  lemma FitsInStep(p: Params, log: seq<Slot>, s: nat, penalty: nat)
    requires Ok(p) && Ordered(p, log) && Fits(p, log, s)
    ensures InStep(p, log, s + penalty)
  {
    forall i | 0 <= i < |log| && log[i].start <= s + penalty
      ensures log[i].end <= s + penalty + p.tTrans
    {
      assert Apart(p, log[i], Slot(s, s + p.tTrans));
    }
  }

  /** What keeps apart from the log keeps apart from every transfer so far. */
  lemma FitsAll(p: Params, log: seq<Slot>, history: seq<Slot>, s: nat)
    requires Fits(p, log, s) && Covers(log, history)
    ensures forall i :: 0 <= i < |history| ==> Apart(p, history[i], Slot(s, s + p.tTrans))
  {
    forall i | 0 <= i < |history|
      ensures Apart(p, history[i], Slot(s, s + p.tTrans))
    {
      assert Covered(log, history[i]);
      var k :| 0 <= k < |log| && Inside(history[i], log[k]);
      assert Apart(p, log[k], Slot(s, s + p.tTrans));
    }
  }

  /** Whoever belongs behind the place begins no earlier; the one before does not belong behind. */
  lemma {:induction false} PlaceIs(p: Params, log: seq<Slot>, slot: Slot)
    requires Ordered(p, log)
    ensures var k := PlaceOf(log, slot);
            && (forall i :: k <= i < |log| ==> slot.start <= log[i].start)
            && (k > 0 ==> !Before(slot, log[k - 1]))
  {
    if log != [] && Before(slot, log[|log| - 1]) {
      PlaceIs(p, log[..|log| - 1], slot);
    }
  }

  /** The log stays in order and within its size, and loses no transfer. */
  lemma NotedOk(p: Params, log: seq<Slot>, history: seq<Slot>, slot: Slot)
    requires Ok(p) && LogOk(p, log) && Covers(log, history)
    requires slot.start + p.tTrans == slot.end && InStep(p, log, slot.start)
    ensures LogOk(p, Noted(p, log, slot)) && Covers(Noted(p, log, slot), history + [slot])
  {
    var k := PlaceOf(log, slot);
    PlaceIs(p, log, slot);
    InsertedOrdered(p, log, slot, k);
    InsertedCovers(log, history, slot, k);
    if |Inserted(log, slot)| > p.depth {
      Forgotten(p, Inserted(log, slot), history + [slot]);
    }
  }

  lemma InsertedOrdered(p: Params, log: seq<Slot>, slot: Slot, k: nat)
    requires Ordered(p, log) && slot.start + p.tTrans == slot.end && InStep(p, log, slot.start) && k <= |log|
    requires forall i :: k <= i < |log| ==> slot.start <= log[i].start
    requires k > 0 ==> !Before(slot, log[k - 1])
    ensures Ordered(p, log[..k] + [slot] + log[k..])
  {
    forall i | 0 <= i < |log|
      ensures if i < k then NoLater(log[i], slot) else NoLater(slot, log[i])
    {
      if i < k {
        assert log[i] == log[k - 1] || NoLater(log[i], log[k - 1]);
      } else {
        assert Long(p, log[i]);
      }
    }
    InsertedBetween(p, log, slot, k);
  }

  lemma InsertedBetween(p: Params, log: seq<Slot>, slot: Slot, k: nat)
    requires Ordered(p, log) && Long(p, slot) && k <= |log|
    requires forall i :: 0 <= i < |log| ==> if i < k then NoLater(log[i], slot) else NoLater(slot, log[i])
    ensures Ordered(p, log[..k] + [slot] + log[k..])
  {
    var log' := log[..k] + [slot] + log[k..];
    forall i, j | 0 <= i < j < |log'|
      ensures NoLater(log'[i], log'[j])
    {
      assert i != k ==> log'[i] == log[if i < k then i else i - 1];
      assert j != k ==> log'[j] == log[if j < k then j else j - 1];
    }
  }

  lemma InsertedCovers(log: seq<Slot>, history: seq<Slot>, slot: Slot, k: nat)
    requires Covers(log, history) && k <= |log|
    ensures Covers(log[..k] + [slot] + log[k..], history + [slot])
  {
    var log', more := log[..k] + [slot] + log[k..], history + [slot];
    forall i | 0 <= i < |more|
      ensures Covered(log', more[i])
    {
      if i < |history| {
        assert Covered(log, history[i]);
        var n :| 0 <= n < |log| && Inside(history[i], log[n]);
        assert log'[if n < k then n else n + 1] == log[n];
      } else {
        assert log'[k] == slot;
      }
    }
  }

  /** Dropping the first transfer of the log loses none, because the next one is stretched over it. */
  lemma Forgotten(p: Params, log: seq<Slot>, history: seq<Slot>)
    requires Ordered(p, log) && |log| > 1 && Covers(log, history)
    ensures var log' := log[1..][0 := log[1].(start := 0)]; Ordered(p, log') && Covers(log', history)
  {
    var log' := log[1..][0 := log[1].(start := 0)];
    forall i | 0 <= i < |history|
      ensures Covered(log', history[i])
    {
      assert Covered(log, history[i]);
      var n :| 0 <= n < |log| && Inside(history[i], log[n]);
      assert Inside(history[i], log'[if n == 0 then 0 else n - 1]);
    }
  }

  // ----- the log holds the latest transfers -----

  /** Every transfer is in the log, or is no later than the first of the log, which is then taken to have begun at cycle
      0; and all of the log but the first are transfers as they were. */
  ghost predicate Latest(log: seq<Slot>, history: seq<Slot>) {
    && (forall h :: h in history ==> h in log || (log != [] && log[0].start == 0 && h.end <= log[0].end))
    && (forall i :: 0 < i < |log| ==> log[i] in history)
    && (log != [] ==> Stretched(log[0], history))
  }

  /** The transfer is one of the history, or one that is taken to have begun at cycle 0. */
  ghost predicate Stretched(a: Slot, history: seq<Slot>) {
    exists h :: h in history && a.end == h.end && (a.start == h.start || a.start == 0)
  }

  lemma StretchedStays(a: Slot, history: seq<Slot>, slot: Slot)
    ensures Stretched(a, history) ==> Stretched(a, history + [slot])
    ensures Stretched(slot, history + [slot])
  {
    if Stretched(a, history) {
      var h :| h in history && a.end == h.end && (a.start == h.start || a.start == 0);
      assert h in history + [slot];
    }
    assert slot in history + [slot];
  }

  lemma InsertedLatest(log: seq<Slot>, history: seq<Slot>, slot: Slot, k: nat)
    requires Latest(log, history) && k <= |log| && (k == 0 && log != [] ==> log[0].start > 0)
    ensures Latest(log[..k] + [slot] + log[k..], history + [slot])
  {
    var log', more := log[..k] + [slot] + log[k..], history + [slot];
    StretchedStays(if log == [] then slot else log[0], history, slot);
    assert log'[k] == slot;
    forall h | h in more
      ensures h in log' || (log'[0].start == 0 && h.end <= log'[0].end)
    {
      if h in history && h in log {
        var i :| 0 <= i < |log| && log[i] == h;
        assert log'[if i < k then i else i + 1] == h;
      }
    }
    forall i | 0 < i < |log'|
      ensures log'[i] in more
    {
      assert i != k ==> log'[i] == log[if i < k then i else i - 1];
    }
  }

  lemma DroppedLatest(p: Params, log: seq<Slot>, history: seq<Slot>)
    requires Ordered(p, log) && |log| > 1 && Latest(log, history)
    ensures Latest(log[1..][0 := log[1].(start := 0)], history)
  {
    var log' := log[1..][0 := log[1].(start := 0)];
    forall h | h in history
      ensures h in log' || (log'[0].start == 0 && h.end <= log'[0].end)
    {
      if h in log {
        var i :| 0 <= i < |log| && log[i] == h;
        assert i > 1 ==> log'[i - 1] == h;
        assert i <= 1 ==> NoLater(log[0], log[1]);
      }
    }
    assert log[1] in history;
  }

  // ----- whole runs -----

  /** The log after these transfers. */
  function LogOf(p: Params, history: seq<Slot>): seq<Slot>
    requires p.depth > 0
  {
    if history == [] then []
    else Noted(p, LogOf(p, history[..|history| - 1]), history[|history| - 1])
  }

  /** These requests lead to these transfers. */
  ghost predicate Run(p: Params, reqs: seq<Request>, history: seq<Slot>)
    requires p.depth > 0
  {
    |history| == |reqs| && forall i: nat :: i < |reqs| ==> ChosenAt(p, reqs, history, i)
  }

  ghost predicate ChosenAt(p: Params, reqs: seq<Request>, history: seq<Slot>, i: nat)
    requires p.depth > 0 && i < |reqs| == |history|
  {
    Chosen(p, LogOf(p, history[..i]), reqs[i], history[i])
  }

  ghost predicate AllApart(p: Params, history: seq<Slot>) {
    forall i, j :: 0 <= i < j < |history| ==> Apart(p, history[i], history[j])
  }

  ghost predicate NoMoreThan(reqs: seq<Request>, penalty: nat) {
    forall i :: 0 <= i < |reqs| ==> reqs[i].penalty <= penalty
  }

  /** The log stands for all transfers, and if `apart` they keep apart. */
  ghost predicate Stands(p: Params, history: seq<Slot>, apart: bool)
    requires p.depth > 0
  {
    && LogOk(p, LogOf(p, history)) && Covers(LogOf(p, history), history)
    && (apart ==> AllApart(p, history))
  }

  lemma StandsOn(p: Params, history: seq<Slot>, q: Request, slot: Slot, apart: bool)
    requires Ok(p) && Stands(p, history, apart) && Chosen(p, LogOf(p, history), q, slot) && (apart ==> q.penalty == 0)
    ensures Stands(p, history + [slot], apart)
  {
    var log := LogOf(p, history);
    FitsInStep(p, log, slot.start - q.penalty, q.penalty);
    NotedOk(p, log, history, slot);
    FitsAll(p, log, history, slot.start - q.penalty);
    assert (history + [slot])[..|history|] == history;
  }

  /** So it is after every transfer of a run. */
  lemma {:induction false} RunStands(p: Params, reqs: seq<Request>, history: seq<Slot>, apart: bool, n: nat)
    requires Ok(p) && Run(p, reqs, history) && (apart ==> NoMoreThan(reqs, 0)) && n <= |reqs|
    ensures Stands(p, history[..n], apart)
  {
    if n > 0 {
      RunStands(p, reqs, history, apart, n - 1);
      OneMoreStands(p, reqs, history, apart, n - 1);
    }
  }

  lemma OneMoreStands(p: Params, reqs: seq<Request>, history: seq<Slot>, apart: bool, n: nat)
    requires Ok(p) && Run(p, reqs, history) && (apart ==> NoMoreThan(reqs, 0)) && n < |reqs|
    requires Stands(p, history[..n], apart)
    ensures Stands(p, history[..n + 1], apart)
  {
    assert ChosenAt(p, reqs, history, n);
    StandsOn(p, history[..n], reqs[n], history[n], apart);
    assert history[..n + 1] == history[..n] + [history[n]];
  }

  ghost predicate RunLatest(p: Params, history: seq<Slot>)
    requires p.depth > 0
  {
    Latest(LogOf(p, history), history)
  }

  lemma {:induction false} LatestInRun(p: Params, reqs: seq<Request>, history: seq<Slot>, n: nat)
    requires Ok(p) && Run(p, reqs, history) && n <= |reqs|
    ensures RunLatest(p, history[..n])
  {
    if n > 0 {
      LatestInRun(p, reqs, history, n - 1);
      LastOfRun(p, reqs, history, n - 1);
      OneMoreLatest(p, history[..n - 1], reqs[n - 1], history[n - 1]);
    }
  }

  lemma LastOfRun(p: Params, reqs: seq<Request>, history: seq<Slot>, n: nat)
    requires Ok(p) && Run(p, reqs, history) && n < |reqs|
    ensures Stands(p, history[..n], false) && Chosen(p, LogOf(p, history[..n]), reqs[n], history[n])
    ensures history[..n + 1] == history[..n] + [history[n]]
  {
    RunStands(p, reqs, history, false, n);
    assert ChosenAt(p, reqs, history, n);
  }

  /** In every run the log holds the latest transfers, as many as it can. */
  lemma KeepsLatest(p: Params, reqs: seq<Request>, history: seq<Slot>)
    requires Ok(p) && Run(p, reqs, history)
    ensures Latest(LogOf(p, history), history)
    ensures |LogOf(p, history)| == if |history| < p.depth then |history| else p.depth
  {
    LogSize(p, history);
    LatestInRun(p, reqs, history, |history|);
    assert history[..|history|] == history;
  }

  lemma OneMoreLatest(p: Params, history: seq<Slot>, q: Request, slot: Slot)
    requires Ok(p) && Stands(p, history, false) && Chosen(p, LogOf(p, history), q, slot)
    requires RunLatest(p, history)
    ensures RunLatest(p, history + [slot])
  {
    assert (history + [slot])[..|history|] == history;
    NotedLatest(p, LogOf(p, history), history, q, slot);
  }

  lemma NotedLatest(p: Params, log: seq<Slot>, history: seq<Slot>, q: Request, slot: Slot)
    requires Ok(p) && LogOk(p, log) && Chosen(p, log, q, slot) && Latest(log, history)
    ensures Latest(Noted(p, log, slot), history + [slot])
  {
    FirstStands(p, log, q, slot);
    InsertedLatest(log, history, slot, PlaceOf(log, slot));
    if |Inserted(log, slot)| > p.depth && |Inserted(log, slot)| > 1 {
      DroppedLatest(p, Inserted(log, slot), history + [slot]);
    }
  }

  /** The log stays in order, and no transfer goes before one that is taken to have begun at cycle 0. */
  lemma FirstStands(p: Params, log: seq<Slot>, q: Request, slot: Slot)
    requires Ok(p) && LogOk(p, log) && Chosen(p, log, q, slot)
    ensures Ordered(p, Inserted(log, slot)) && (PlaceOf(log, slot) == 0 && log != [] ==> log[0].start > 0)
  {
    var k := PlaceOf(log, slot);
    FitsInStep(p, log, slot.start - q.penalty, q.penalty);
    PlaceIs(p, log, slot);
    InsertedOrdered(p, log, slot, k);
    if k == 0 && log != [] {
      assert slot.start <= log[0].start;
      assert Apart(p, log[0], Slot(slot.start - q.penalty, slot.start - q.penalty + p.tTrans));
    }
  }

  /** The log holds as many transfers as it can. */
  lemma {:induction false} LogSize(p: Params, history: seq<Slot>)
    requires p.depth > 0
    ensures |LogOf(p, history)| == if |history| < p.depth then |history| else p.depth
  {
    if history != [] {
      LogSize(p, history[..|history| - 1]);
    }
  }

  ghost function Gap(p: Params): nat {
    p.tTrans + p.tRTRS
  }

  /** When the second of two requests may be issued that collide. */
  ghost function Sooner(p: Params, penalty: nat, at: nat): nat
    requires Gap(p) <= at
  {
    if penalty < Gap(p) then at - (Gap(p) - penalty) else at
  }

  /** Two requests that both wake an idle rank. The second one comes late; it chooses the free bus before the first
      transfer, and is then delayed into it. */
  ghost function BothDelayed(p: Params, write: bool, penalty: nat, at: nat): (seq<Request>, seq<Slot>)
    requires Gap(p) <= at
  {
    var first, second := at + DataLatency(p, write) + penalty, Sooner(p, penalty, at) + DataLatency(p, write) + penalty;
    ([Request(write, at, penalty), Request(write, Sooner(p, penalty, at), penalty)],
     [Slot(first, first + p.tTrans), Slot(second, second + p.tTrans)])
  }

  lemma BothDelayedRun(p: Params, write: bool, penalty: nat, at: nat)
    requires Ok(p) && Gap(p) <= at && penalty > 0
    ensures var (reqs, history) := BothDelayed(p, write, penalty, at);
            Run(p, reqs, history) && !Apart(p, history[0], history[1])
  {
    var (reqs, history) := BothDelayed(p, write, penalty, at);
    assert history[..0] == [] && history[..1] == [history[0]] && history[..1][..0] == [];
    assert LogOf(p, history[..1]) == [history[0]];
    assert Chosen(p, [], reqs[0], history[0]);
    assert Chosen(p, [history[0]], reqs[1], history[1]);
  }

  /** With penalties up to a limit, the transfers of every run keep apart if and only if that limit is 0. */
  lemma OnlyWithoutPenalty(p: Params, penalty: nat)
    requires Ok(p)
    ensures penalty == 0 <==>
            forall reqs: seq<Request>, history: seq<Slot> ::
              Run(p, reqs, history) && NoMoreThan(reqs, penalty) ==> AllApart(p, history)
  {
    if penalty == 0 {
      forall reqs: seq<Request>, history: seq<Slot> | Run(p, reqs, history) && NoMoreThan(reqs, 0)
        ensures AllApart(p, history)
      {
        RunStands(p, reqs, history, true, |reqs|);
        assert history[..|reqs|] == history;
      }
    } else {
      var (reqs, history) := BothDelayed(p, false, penalty, Gap(p));
      BothDelayedRun(p, false, penalty, Gap(p));
      assert NoMoreThan(reqs, penalty);
      assert !AllApart(p, history) by {
        assert !Apart(p, history[0], history[1]);
      }
    }
  }

  method ReserveFirst(p: Params, write: bool, penalty: nat, at: nat) returns (bus: Bus)
    requires Ok(p) && Gap(p) <= at
    ensures fresh(bus) && bus.p == p && bus.Valid()
    ensures bus.history == bus.accessLog == BothDelayed(p, write, penalty, at).1[..1]
  {
    ghost var slot := BothDelayed(p, write, penalty, at).1[0];
    bus := new Bus(p);
    var latency := bus.Reserve(write, at, at, penalty);
    assert Fits(p, [], slot.start - penalty);
    assert bus.history == [slot];
  }

  /** The same on the bus itself, for any penalty and at any time: two requests collide that arrive together, or less
      than a gap apart and the later one first. */
  method Collide(p: Params, write: bool, penalty: nat, at: nat) returns (bus: Bus)
    requires Ok(p) && penalty > 0 && Gap(p) <= at
    ensures bus.p == p && bus.Valid() && |bus.history| == 2 && !Apart(p, bus.history[0], bus.history[1])
  {
    ghost var history := BothDelayed(p, write, penalty, at).1;
    BothDelayedRun(p, write, penalty, at);
    bus := ReserveFirst(p, write, penalty, at);
    var gap := p.tTrans + p.tRTRS;
    var sooner := if penalty < gap then at - (gap - penalty) else at;
    var latency := bus.Reserve(write, sooner, sooner, penalty);
    assert Fits(p, history[..1], history[1].start - penalty);
    assert bus.history == history;
  }
}
