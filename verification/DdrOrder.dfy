/** In which order the controller serves requests, in all its runs: which rows stay together, when writes go before
    reads, how many row hits follow each other, and which rows stay open. */
module DdrOrder {
  import opened DdrQueue
  import opened DdrState
  import opened DdrMemory
  import opened DdrProgress
  import T = DdrTiming

  // ----- row hits -----

  /** Operation `m` is the first after `n` that serves the list. */
  ghost predicate NextService(ops: seq<Op>, w: bool, b: nat, n: int, m: int) {
    -1 <= n < m < |ops| && ServesList(ops[m], w, b) && forall k :: n < k < m ==> !ServesList(ops[k], w, b)
  }

  /** Operation `n` serves `r`, and the next service of the list is that of `next`. */
  ghost predicate ServedInTurn(ops: seq<Op>, w: bool, b: nat, n: nat, r: Request, next: Request) {
    n < |ops| && Serves(ops[n], w, r) && forall m :: NextService(ops, w, b, n, m) ==> Serves(ops[m], w, next)
  }

  /** Request `r` is served, and directly after it the list's next service is that of `next`. */
  ghost predicate DirectlyAfter(ops: seq<Op>, w: bool, b: nat, r: Request, next: Request) {
    exists n: nat :: ServedInTurn(ops, w, b, n, r, next)
  }

  /** Nothing overtakes the first request of a list. */
  lemma {:induction false} FirstIsNext(d: DDRMemory, ops: seq<Op>, states: seq<Snapshot>, w: bool, b: nat, m: nat)
    requires Run(d, ops, states) && Limited(ListAt(states[0].req, w, b), d.rowHitLimit)
    requires ListAt(states[0].req, w, b) != [] && NextService(ops, w, b, -1, m)
    ensures Serves(ops[m], w, ListAt(states[0].req, w, b)[0])
    decreases |ops|
  {
    RestRuns(d, ops, states);
    FirstOrLater(d, ops[0], states[0], states[1], w, b);
    if m > 0 {
      assert !ServesList(ops[0], w, b);
      var k := OneOp(d, ops[0], states[0], states[1], w, b, 0);
      assert k == 0;
      forall j | -1 < j < m - 1
        ensures !ServesList(ops[1..][j], w, b)
      {
        assert !ServesList(ops[j + 1], w, b);
      }
      FirstIsNext(d, ops[1..], states[1..], w, b, m - 1);
    }
  }

  /** When the first request of a list has been served, the second is the first. */
  lemma SecondIsFirst(d: DDRMemory, op: Op, x: Snapshot, y: Snapshot, w: bool, b: nat)
    requires Leads(d, op, x, y) && ServesList(op, w, b)
    requires Limited(ListAt(x.req, w, b), d.rowHitLimit) && |ListAt(x.req, w, b)| > 1
    ensures Limited(ListAt(y.req, w, b), d.rowHitLimit)
    ensures ListAt(y.req, w, b) != [] && ListAt(y.req, w, b)[0] == ListAt(x.req, w, b)[1]
  {
    ServiceSeen(d, op.turn, op.cur, w, b);
    var k := AdmissionKeeps(d, op.turn, op.cur, w, b, 0);
    assert k == 0;
  }

  /** In every run, of two requests for one row that stand one behind the other in a bank's list the second is served
      directly after the first, whatever arrives. */
  lemma {:induction false} RowHitsTogether(d: DDRMemory, ops: seq<Op>, states: seq<Snapshot>, w: bool, b: nat, k: nat)
    requires Run(d, ops, states)
    requires var q := ListAt(states[0].req, w, b);
             && Limited(q, d.rowHitLimit) && k + 1 < |q| && q[k].row == q[k + 1].row
             && ServicesOf(ops, w, b) > Wait(q[..k], d.rowHitLimit)
    ensures var q := ListAt(states[0].req, w, b); DirectlyAfter(ops, w, b, q[k], q[k + 1])
    decreases |ops|
  {
    var q := ListAt(states[0].req, w, b);
    RestRuns(d, ops, states);
    FirstOrLater(d, ops[0], states[0], states[1], w, b);
    if k == 0 && ServesList(ops[0], w, b) {
      SecondIsFirst(d, ops[0], states[0], states[1], w, b);
      forall m | NextService(ops, w, b, 0, m)
        ensures Serves(ops[m], w, q[1])
      {
        NextLater(ops, w, b, 0, m);
        FirstIsNext(d, ops[1..], states[1..], w, b, m - 1);
      }
      assert ServedInTurn(ops, w, b, 0, q[0], q[1]);
    } else {
      var k' := OneOp(d, ops[0], states[0], states[1], w, b, k);
      RowHitsTogether(d, ops[1..], states[1..], w, b, k');
      var n: nat :| ServedInTurn(ops[1..], w, b, n, q[k], q[k + 1]);
      TurnLater(ops, w, b, n, q[k], q[k + 1]);
    }
  }

  lemma NextLater(ops: seq<Op>, w: bool, b: nat, n: int, m: int)
    requires n >= 0 && NextService(ops, w, b, n, m)
    ensures NextService(ops[1..], w, b, n - 1, m - 1)
  {
    forall j | n - 1 < j < m - 1
      ensures !ServesList(ops[1..][j], w, b)
    {
      assert !ServesList(ops[j + 1], w, b);
    }
  }

  lemma TurnLater(ops: seq<Op>, w: bool, b: nat, n: nat, r: Request, next: Request)
    requires ops != [] && ServedInTurn(ops[1..], w, b, n, r, next)
    ensures ServedInTurn(ops, w, b, n + 1, r, next)
  {
    forall m | NextService(ops, w, b, n + 1, m)
      ensures Serves(ops[m], w, next)
    {
      NextLater(ops, w, b, n + 1, m);
      assert Serves(ops[1..][m - 1], w, next);
    }
  }

  /** A request that enters for a row whose last request carries less than the limit stands directly behind that one. */
  lemma EntersBehind(d: DDRMemory, op: Op, x: Snapshot, y: Snapshot, m: nat)
    requires Leads(d, op, x, y) && op.Entering?
    requires var q := ListAt(x.req, d.deferredWrites && op.r.write, op.r.bank);
             Limited(q, d.rowHitLimit) && IsLast(q, op.r.row, m) && q[m].rowHitSeq < d.rowHitLimit
    ensures var w := d.deferredWrites && op.r.write;
            var q, q' := ListAt(x.req, w, op.r.bank), ListAt(y.req, w, op.r.bank);
            && Limited(q', d.rowHitLimit) && m + 1 < |q'| && q'[m] == q[m] && q'[m + 1] == op.s && q'[..m] == q[..m]
            && op.s == op.r.(rowHitSeq := q[m].rowHitSeq + 1)
  {
    var k := EntersAt(d, op, x, y);
    var w := d.deferredWrites && op.r.write;
    var q, q' := ListAt(x.req, w, op.r.bank), ListAt(y.req, w, op.r.bank);
    assert k == m + 1;
    assert q'[m] == q'[..k][m] && q'[..m] == q'[..k][..m];
  }

  /** A row hit overtakes: a new request is served directly after the last one that waits for its row, before all other
      rows that have been waiting, unless that one carries the limit. */
  lemma HitOvertakes(d: DDRMemory, ops: seq<Op>, states: seq<Snapshot>, m: nat)
    requires Run(d, ops, states) && ops != [] && ops[0].Entering?
    requires var w := d.deferredWrites && ops[0].r.write;
             var q := ListAt(states[0].req, w, ops[0].r.bank);
             && Limited(q, d.rowHitLimit) && IsLast(q, ops[0].r.row, m) && q[m].rowHitSeq < d.rowHitLimit
             && ServicesOf(ops[1..], w, ops[0].r.bank) > Wait(q[..m], d.rowHitLimit)
    ensures var w := d.deferredWrites && ops[0].r.write;
            var q := ListAt(states[0].req, w, ops[0].r.bank);
            && ops[0].s == ops[0].r.(rowHitSeq := q[m].rowHitSeq + 1)
            && DirectlyAfter(ops, w, ops[0].r.bank, q[m], ops[0].s)
  {
    RestRuns(d, ops, states);
    EntersBehind(d, ops[0], states[0], states[1], m);
    var b, w := ops[0].r.bank, d.deferredWrites && ops[0].r.write;
    RowHitsTogether(d, ops[1..], states[1..], w, b, m);
    AllLater(ops, w, b, ListAt(states[0].req, w, b)[m], ops[0].s);
  }

  lemma AllLater(ops: seq<Op>, w: bool, b: nat, r: Request, next: Request)
    requires ops != [] && DirectlyAfter(ops[1..], w, b, r, next)
    ensures DirectlyAfter(ops, w, b, r, next)
  {
    var n: nat :| ServedInTurn(ops[1..], w, b, n, r, next);
    TurnLater(ops, w, b, n, r, next);
  }

  // ----- writes and reads -----

  /** A read is served only if reads are queued and the writes have not reached the mark: three quarters of the depth,
      or one quarter once they are being served. Otherwise a write is. */
  lemma QueueChosen(d: DDRMemory, op: Op, x: Snapshot, y: Snapshot, w: bool, r: Request)
    requires Leads(d, op, x, y) && Serves(op, w, r)
    ensures !w <==>
            && x.req.rd != [] && |x.req.wr| <= 3 * d.queueDepth / 4
            && !(x.dram.lastCmdWasWrite && |x.req.wr| > d.queueDepth / 4)
  {
    var w0, r0 := ServedFrom(d, op.turn, op.cur);
  }

  /** With deferred writes all writes and nothing else are in the queue for writes; without, nothing is. */
  ghost predicate InTheirQueue(d: DDRMemory, x: Pending) {
    && (forall r :: r in x.wr ==> r.write && d.deferredWrites)
    && (forall r :: r in x.rd && d.deferredWrites ==> !r.write)
  }

  /** Some request is served from the queue. */
  ghost predicate ServesKind(op: Op, w: bool) {
    exists r :: Serves(op, w, r)
  }

  /** What one operation does to the count of writes and to the direction of the bus. */
  lemma DirectionKept(d: DDRMemory, op: Op, x: Snapshot, y: Snapshot)
    requires Leads(d, op, x, y) && InTheirQueue(d, x.req)
    ensures InTheirQueue(d, y.req)
    ensures !ServesKind(op, true) ==> |y.req.wr| >= |x.req.wr|
    ensures ServesKind(op, true) ==> y.dram.lastCmdWasWrite
    ensures ServesKind(op, false) && d.deferredWrites ==> !y.dram.lastCmdWasWrite
    ensures !ServesKind(op, true) && !ServesKind(op, false) ==> y.dram.lastCmdWasWrite == x.dram.lastCmdWasWrite
  {
    match op
    case Firing(turn, cur) =>
      ServiceDirection(d, turn, cur);
      EntryDirection(d, turn, cur);
    case _ =>
  }

  lemma ServiceDirection(d: DDRMemory, turn: Turn, cur: nat)
    requires d.Half(turn, cur) && InTheirQueue(d, turn.before)
    ensures var op := Firing(turn, cur);
            && InTheirQueue(d, turn.mid)
            && (!ServesKind(op, true) ==> |turn.mid.wr| == |turn.before.wr|)
            && (ServesKind(op, true) ==> turn.dramAfter.lastCmdWasWrite)
            && (ServesKind(op, false) && d.deferredWrites ==> !turn.dramAfter.lastCmdWasWrite)
            && (!ServesKind(op, true) && !ServesKind(op, false) ==>
                  turn.dramAfter.lastCmdWasWrite == turn.dramBefore.lastCmdWasWrite)
  {
    if turn.served.Some? {
      var w, r := ServedFrom(d, turn, cur);
      assert Serves(Firing(turn, cur), w, r);
      FromQueue(QueueOf(turn.before, w), turn.served.value);
    }
  }

  lemma FromQueue(q: seq<Request>, i: nat)
    requires i < |q|
    ensures var q' := q[..i] + q[i + 1..]; forall k :: 0 <= k < |q'| ==> q'[k] in q
  {
  }

  lemma EntryDirection(d: DDRMemory, turn: Turn, cur: nat)
    requires d.Worked(turn, cur) && InTheirQueue(d, turn.mid)
    ensures InTheirQueue(d, turn.after) && |turn.after.wr| >= |turn.mid.wr|
  {
  }

  /** In every run: once the writes fill more than three quarters of their queue, no read is served until some turn
      finds no more than a quarter of it filled. */
  lemma {:induction false} WritesDrain(d: DDRMemory, ops: seq<Op>, states: seq<Snapshot>, n: nat)
    requires Run(d, ops, states) && n < |ops| && InTheirQueue(d, states[0].req)
    requires |states[0].req.wr| > 3 * d.queueDepth / 4 || states[0].dram.lastCmdWasWrite
    requires forall j: nat :: j <= n && ops[j].Firing? ==> |states[j].req.wr| > d.queueDepth / 4
    ensures !ServesKind(ops[n], false)
    decreases n
  {
    RestRuns(d, ops, states);
    if ServesKind(ops[0], false) {
      var r :| Serves(ops[0], false, r);
      QueueChosen(d, ops[0], states[0], states[1], false, r);
      assert false;
    }
    if n > 0 {
      DirectionKept(d, ops[0], states[0], states[1]);
      forall j: nat | j <= n - 1 && ops[1..][j].Firing?
        ensures |states[1..][j].req.wr| > d.queueDepth / 4
      {
        assert ops[j + 1].Firing?;
      }
      WritesDrain(d, ops[1..], states[1..], n - 1);
    }
  }

  /** The other way round: once a read has been served, no write is, until some turn finds no read queued or more than
      three quarters of the writes' queue filled. */
  lemma {:induction false} ReadsGoFirst(d: DDRMemory, ops: seq<Op>, states: seq<Snapshot>, n: nat)
    requires Run(d, ops, states) && n < |ops| && InTheirQueue(d, states[0].req) && d.deferredWrites
    requires !states[0].dram.lastCmdWasWrite
    requires forall j: nat :: j <= n && ops[j].Firing? ==>
               states[j].req.rd != [] && |states[j].req.wr| <= 3 * d.queueDepth / 4
    ensures !ServesKind(ops[n], true)
    decreases n
  {
    RestRuns(d, ops, states);
    if ServesKind(ops[0], true) {
      var r :| Serves(ops[0], true, r);
      QueueChosen(d, ops[0], states[0], states[1], true, r);
      assert false;
    }
    if n > 0 {
      DirectionKept(d, ops[0], states[0], states[1]);
      forall j: nat | j <= n - 1 && ops[1..][j].Firing?
        ensures states[1..][j].req.rd != [] && |states[1..][j].req.wr| <= 3 * d.queueDepth / 4
      {
        assert ops[j + 1].Firing?;
      }
      ReadsGoFirst(d, ops[1..], states[1..], n - 1);
    }
  }

  // ----- when the controller tries again -----

  /** Until the cycle for which a turn asks, no try serves any of the requests that are left. */
  lemma NothingMissed(d: DDRMemory, turn: Turn, cur: nat, again: Turn, cur': nat)
    requires d.Half(turn, cur) && turn.dramBefore.minRespCycle >= d.p.tCL
    requires turn.retry.Some? ==> cur' < turn.retry.value
    requires d.Half(again, cur') && again.before == turn.mid && again.dramBefore == turn.dramAfter
    ensures again.served.None?
  {
  }

  /** And if nothing was ready although the bus was free, a try in that cycle serves one. */
  lemma ReadyThen(d: DDRMemory, turn: Turn, cur: nat, again: Turn)
    requires d.Half(turn, cur) && turn.served.None? && !d.Empty(turn.before)
    requires turn.dramBefore.minRespCycle <= cur + d.p.tCL
    ensures turn.retry.Some? && turn.retry.value > cur
    ensures d.Half(again, turn.retry.value) && again.before == turn.mid && again.dramBefore == turn.dramAfter ==>
              again.served.Some?
  {
    var x, dram := turn.before, turn.dramBefore;
    var w := d.ChooseWrites(x.rd, x.wr, dram.lastCmdWasWrite);
    var k: nat :| k < |QueueOf(x, w)| && IsHead(ListsOf(x, w), QueueOf(x, w)[k])
                  && T.MinCmd(d.p, dram, QueueOf(x, w)[k]) == turn.retry.value;
    assert d.ReadyAt(dram, QueueOf(x, w), ListsOf(x, w), turn.retry.value, k);
    assert !d.ReadyAt(dram, QueueOf(x, w), ListsOf(x, w), cur, k);
  }

  // ----- the registers of a bank -----

  /** The request that a turn has taken out of a queue, if it is for bank `b`. */
  ghost function ServedBy(op: Op, b: nat): seq<Request> {
    if !op.Firing? || op.turn.served.None? then []
    else
      var q, i := QueueOf(op.turn.before, ServesKind(op, true)), op.turn.served.value;
      if i < |q| && q[i].bank == b then [q[i]] else []
  }

  /** All requests of bank `b` that are served in a run, in order. */
  ghost function ServedIn(ops: seq<Op>, b: nat): seq<Request> {
    if ops == [] then [] else ServedIn(ops[..|ops| - 1], b) + ServedBy(ops[|ops| - 1], b)
  }

  /** Bank `b` of the controller as a bank with two lists. */
  function BankOf(x: Snapshot, b: nat, served: seq<Request>): Lists
    requires b < |x.dram.banks|
  {
    var bank := x.dram.banks[b];
    Lists(served, ListAt(x.req, false, b), ListAt(x.req, true, b), bank.open, bank.openRow, bank.curRowHits)
  }

  /** A controller that has just been made. */
  function Beginning(d: DDRMemory): Snapshot
    requires T.ParamsOk(d.p)
  {
    var none := seq(|d.p.rankOf|, i => []);
    Snapshot(Pending([], [], [], none, none, 0, {}), T.Fresh(d.p))
  }

  /** A request that enters is an arrival at its bank. */
  lemma EntryIsArrival(d: DDRMemory, x: Snapshot, r: Request, s: Request, y: Snapshot, b: nat, served: seq<Request>)
    requires r.bank < |x.dram.banks| && y.dram == x.dram && b < |x.dram.banks|
    requires d.Admitted(x.req, x.dram.banks[r.bank], r, s, y.req) || d.MovedIn(x.req, x.dram.banks[r.bank], r, s, y.req)
    ensures BankOf(y, b, served) ==
            if r.bank == b then ListsAfter(BankOf(x, b, served), Comes(r), d.rowHitLimit, d.deferredWrites)
            else BankOf(x, b, served)
  {
    EntrySeen(d, x.req, x.dram.banks[r.bank], r, s, y.req, true, b);
    EntrySeen(d, x.req, x.dram.banks[r.bank], r, s, y.req, false, b);
  }

  /** The first half of a turn is a service of one bank, after which the row stays open unless the closed-page policy
      closes it, or nothing. */
  lemma HalfIsService(d: DDRMemory, turn: Turn, cur: nat, b: nat, served: seq<Request>) returns (e: seq<ListsEvent>)
    requires d.Half(turn, cur) && b < |turn.dramBefore.banks|
    ensures b < |turn.dramAfter.banks| && |e| <= 1
    ensures var x, y := Snapshot(turn.before, turn.dramBefore), Snapshot(turn.mid, turn.dramAfter);
            BankOf(y, b, served + ServedBy(Firing(turn, cur), b)) ==
            if e == [] then BankOf(x, b, served)
            else ListsAfter(BankOf(x, b, served), e[0], d.rowHitLimit, d.deferredWrites)
  {
    e := [];
    ServiceSeen(d, turn, cur, true, b);
    ServiceSeen(d, turn, cur, false, b);
    if turn.served.Some? {
      var w, r := ServedFrom(d, turn, cur);
      assert Serves(Firing(turn, cur), w, r);
      assert ServesKind(Firing(turn, cur), true) == w;
      if r.bank == b {
        assert ServesList(Firing(turn, cur), w, b);
        e := [Goes(w, d.p.closedPage && !HitsNext(ListAt(turn.before, w, b)))];
      }
    }
  }

  function Following(b: Lists, e: seq<ListsEvent>, limit: nat, deferredWrites: bool): Lists {
    if e == [] then b
    else ListsAfter(Following(b, e[..|e| - 1], limit, deferredWrites), e[|e| - 1], limit, deferredWrites)
  }

  /** A turn is at most two events of the bank. */
  lemma TurnIsEvents(d: DDRMemory, turn: Turn, cur: nat, b: nat, served: seq<Request>) returns (e: seq<ListsEvent>)
    requires d.Worked(turn, cur) && b < |turn.dramBefore.banks|
    ensures b < |turn.dramAfter.banks|
    ensures var x, y := Snapshot(turn.before, turn.dramBefore), Snapshot(turn.after, turn.dramAfter);
            BankOf(y, b, served + ServedBy(Firing(turn, cur), b)) ==
            Following(BankOf(x, b, served), e, d.rowHitLimit, d.deferredWrites)
  {
    e := HalfIsService(d, turn, cur, b, served);
    var more := AdmissionIsArrival(d, turn, cur, b, served + ServedBy(Firing(turn, cur), b));
    ShortRun(BankOf(Snapshot(turn.before, turn.dramBefore), b, served), e, more, d.rowHitLimit, d.deferredWrites);
    e := e + more;
  }

  lemma ShortRun(b: Lists, e: seq<ListsEvent>, more: seq<ListsEvent>, limit: nat, deferredWrites: bool)
    requires |e| <= 1 && |more| <= 1
    ensures Following(b, e + more, limit, deferredWrites) ==
            Following(Following(b, e, limit, deferredWrites), more, limit, deferredWrites)
  {
    assert more == [] ==> e + more == e;
    assert more != [] ==> (e + more)[..|e + more| - 1] == e;
  }

  lemma AdmissionIsArrival(d: DDRMemory, turn: Turn, cur: nat, b: nat, served: seq<Request>)
    returns (e: seq<ListsEvent>)
    requires d.Worked(turn, cur) && b < |turn.dramAfter.banks|
    ensures |e| <= 1
    ensures var x, y := Snapshot(turn.mid, turn.dramAfter), Snapshot(turn.after, turn.dramAfter);
            BankOf(y, b, served) == Following(BankOf(x, b, served), e, d.rowHitLimit, d.deferredWrites)
  {
    e := [];
    var x, y := Snapshot(turn.mid, turn.dramAfter), Snapshot(turn.after, turn.dramAfter);
    if |x.req.rd| != d.queueDepth && |x.req.wr| != d.queueDepth && x.req.ovf != [] {
      var r := x.req.ovf[0].(arrivalCycle := cur, ev := !x.req.ovf[0].write);
      EntryIsArrival(d, x, r, turn.entered, y, b, served);
      if r.bank == b {
        e := [Comes(r)];
      }
    }
  }

  /** An operation is a short run of the bank. */
  lemma OpIsEvents(d: DDRMemory, op: Op, x: Snapshot, y: Snapshot, b: nat, served: seq<Request>)
    returns (e: seq<ListsEvent>)
    requires Leads(d, op, x, y) && T.Shape(d.p, x.dram) && b < |x.dram.banks|
    ensures T.Shape(d.p, y.dram) && b < |y.dram.banks|
    ensures BankOf(y, b, served + ServedBy(op, b)) ==
            Following(BankOf(x, b, served), e, d.rowHitLimit, d.deferredWrites)
  {
    e := [];
    match op
    case Entering(r, s) =>
      EntryIsArrival(d, x, r, s, y, b, served);
      if r.bank == b {
        e := [Comes(r)];
      }
    case Firing(turn, cur) => e := TurnIsEvents(d, turn, cur, b, served);
    case Refreshing(cycle) => e := [RowClosed];
    case _ =>
  }

  lemma {:induction false} RunFollows(events: seq<ListsEvent>, e: seq<ListsEvent>, limit: nat, deferredWrites: bool)
    ensures ListsRun(events + e, limit, deferredWrites) ==
            Following(ListsRun(events, limit, deferredWrites), e, limit, deferredWrites)
  {
    if e == [] {
      assert events + e == events;
    } else {
      RunFollows(events, e[..|e| - 1], limit, deferredWrites);
      assert (events + e)[..|events + e| - 1] == events + e[..|e| - 1];
    }
  }

  /** In every run of the controller from its beginning, every bank with its registers behaves as a bank with two lists
      does in some run of its own. */
  lemma {:induction false} BankRuns(d: DDRMemory, ops: seq<Op>, states: seq<Snapshot>, b: nat)
    returns (events: seq<ListsEvent>)
    requires T.ParamsOk(d.p) && b < |d.p.rankOf| && Run(d, ops, states) && states[0] == Beginning(d)
    ensures T.Shape(d.p, states[|ops|].dram)
    ensures ListsRun(events, d.rowHitLimit, d.deferredWrites) == BankOf(states[|ops|], b, ServedIn(ops, b))
    decreases |ops|
  {
    if ops == [] {
      events := [];
    } else {
      var n := |ops| - 1;
      assert Leads(d, ops[n], states[n], states[n + 1]);
      events := BankRuns(d, ops[..n], states[..n + 1], b);
      var e := OpIsEvents(d, ops[n], states[n], states[n + 1], b, ServedIn(ops[..n], b));
      RunFollows(events, e, d.rowHitLimit, d.deferredWrites);
      events := events + e;
    }
  }

  /** So the limit on row hits holds of the controller and its registers: without deferred writes, or if nothing may
      join a streak, of any limit + 1 requests that a bank serves in turn at least one has not joined one. */
  lemma StreaksEnd(d: DDRMemory, ops: seq<Op>, states: seq<Snapshot>, b: nat, i: nat)
    requires T.ParamsOk(d.p) && b < |d.p.rankOf| && Run(d, ops, states) && states[0] == Beginning(d)
    requires !d.deferredWrites || d.rowHitLimit == 0
    requires i + d.rowHitLimit < |ServedIn(ops, b)|
    ensures HasStart(ServedIn(ops, b), i, d.rowHitLimit)
  {
    var events := BankRuns(d, ops, states, b);
    StreakLimit(d.rowHitLimit, d.deferredWrites);
    assert ListsRun(events, d.rowHitLimit, d.deferredWrites).served == ServedIn(ops, b);
  }

  // ----- open rows -----

  /** The open row and the count of hits are those of the request served last. */
  ghost predicate OfLast(b: Lists) {
    b.open ==>
      |b.served| > 0 && b.served[|b.served| - 1].row == b.openRow && b.served[|b.served| - 1].rowHitSeq == b.hits
  }

  lemma StepOfLast(b: Lists, e: ListsEvent, limit: nat, deferredWrites: bool)
    requires OfLast(b)
    ensures OfLast(ListsAfter(b, e, limit, deferredWrites))
  {
  }

  lemma {:induction false} RunOfLast(events: seq<ListsEvent>, limit: nat, deferredWrites: bool)
    ensures OfLast(ListsRun(events, limit, deferredWrites))
  {
    if events != [] {
      var before := events[..|events| - 1];
      RunOfLast(before, limit, deferredWrites);
      StepOfLast(ListsRun(before, limit, deferredWrites), events[|events| - 1], limit, deferredWrites);
    }
  }

  /** In every run the open row of a bank is the row of the request that the bank has served last, and its count of row
      hits is the number that request carried. */
  lemma RegistersTell(d: DDRMemory, ops: seq<Op>, states: seq<Snapshot>, b: nat)
    requires T.ParamsOk(d.p) && b < |d.p.rankOf| && Run(d, ops, states) && states[0] == Beginning(d)
    ensures b < |states[|ops|].dram.banks|
    ensures var bank, served := states[|ops|].dram.banks[b], ServedIn(ops, b);
            bank.open ==> |served| > 0 && served[|served| - 1].row == bank.openRow
                          && served[|served| - 1].rowHitSeq == bank.curRowHits
  {
    var events := BankRuns(d, ops, states, b);
    RunOfLast(events, d.rowHitLimit, d.deferredWrites);
  }

  /** After a service the row stays open, except that the closed-page policy closes it unless the next request of the
      list hits it. */
  lemma RowStaysOpen(d: DDRMemory, op: Op, x: Snapshot, y: Snapshot, w: bool, r: Request)
    requires Leads(d, op, x, y) && Serves(op, w, r) && ListOk(ListAt(x.req, w, r.bank), d.rowHitLimit)
    ensures r.bank < |y.dram.banks|
    ensures var q, bank := ListAt(x.req, w, r.bank), y.dram.banks[r.bank];
            && bank.openRow == r.row && bank.curRowHits == r.rowHitSeq
            && (bank.open <==>
                !d.p.closedPage || (|q| > 1 && q[1].row == r.row && q[1].rowHitSeq == r.rowHitSeq + 1))
  {
    var w0, r0 := ServedFrom(d, op.turn, op.cur);
    assert ListAt(x.req, w, r.bank)[0] == r;
  }

  /** The open row of the bank is the one that the first request of one of its lists hits next. */
  ghost predicate OpenForNext(x: Snapshot, b: nat) {
    b < |x.dram.banks| && x.dram.banks[b].open ==>
      exists w :: NextHits(ListAt(x.req, w, b), x.dram.banks[b])
  }

  ghost predicate NextHits(q: seq<Request>, bank: T.BankRegs) {
    q != [] && q[0].row == bank.openRow && q[0].rowHitSeq == bank.curRowHits + 1
  }

  ghost predicate ListsOk(d: DDRMemory, x: Snapshot, b: nat) {
    forall w :: ListOk(ListAt(x.req, w, b), d.rowHitLimit)
  }

  lemma FirstStays(q: seq<Request>, r: Request, limit: nat, openRow: bool, hits: nat)
    requires ListOk(q, limit)
    ensures var q' := Insert(q, r, limit, openRow, hits); ListOk(q', limit) && (q != [] ==> q'[0] == q[0])
  {
    InsertOk(q, r, limit, openRow, hits);
  }

  lemma EntryKeepsFirst(d: DDRMemory, x: Snapshot, r: Request, s: Request, y: Snapshot, b: nat)
    requires r.bank < |x.dram.banks| && y.dram == x.dram
    requires d.Admitted(x.req, x.dram.banks[r.bank], r, s, y.req) || d.MovedIn(x.req, x.dram.banks[r.bank], r, s, y.req)
    requires ListsOk(d, x, b) && OpenForNext(x, b)
    ensures ListsOk(d, y, b) && OpenForNext(y, b)
  {
    forall w
      ensures ListOk(ListAt(y.req, w, b), d.rowHitLimit)
      ensures ListAt(x.req, w, b) != [] ==>
                ListAt(y.req, w, b) != [] && ListAt(y.req, w, b)[0] == ListAt(x.req, w, b)[0]
    {
      var bank := x.dram.banks[r.bank];
      EntrySeen(d, x.req, bank, r, s, y.req, w, b);
      assert ListOk(ListAt(x.req, w, b), d.rowHitLimit);
      FirstStays(ListAt(x.req, w, b), r, d.rowHitLimit, T.Hit(bank, r), bank.curRowHits);
    }
    if b < |x.dram.banks| && x.dram.banks[b].open {
      var w :| NextHits(ListAt(x.req, w, b), x.dram.banks[b]);
      assert NextHits(ListAt(y.req, w, b), y.dram.banks[b]);
    }
  }

  lemma ServiceOpens(d: DDRMemory, turn: Turn, cur: nat, b: nat)
    requires d.Half(turn, cur) && d.p.closedPage
    requires var x := Snapshot(turn.before, turn.dramBefore); ListsOk(d, x, b) && OpenForNext(x, b)
    ensures var y := Snapshot(turn.mid, turn.dramAfter); ListsOk(d, y, b) && OpenForNext(y, b)
  {
    var x, y := Snapshot(turn.before, turn.dramBefore), Snapshot(turn.mid, turn.dramAfter);
    ServiceSeen(d, turn, cur, true, b);
    ServiceSeen(d, turn, cur, false, b);
    forall w
      ensures ListOk(ListAt(y.req, w, b), d.rowHitLimit)
    {
      assert ListOk(ListAt(x.req, w, b), d.rowHitLimit);
      if ServesList(Firing(turn, cur), w, b) {
        RestOk(ListAt(x.req, w, b), d.rowHitLimit);
      }
    }
    if turn.served.Some? {
      var w, r := ServedFrom(d, turn, cur);
      assert Serves(Firing(turn, cur), w, r);
      if r.bank == b {
        assert ServesList(Firing(turn, cur), w, b);
        assert ListOk(ListAt(x.req, w, b), d.rowHitLimit);
        if y.dram.banks[b].open {
          assert NextHits(ListAt(y.req, w, b), y.dram.banks[b]);
        }
      }
    }
  }

  lemma OpKeepsOpen(d: DDRMemory, op: Op, x: Snapshot, y: Snapshot, b: nat)
    requires Leads(d, op, x, y) && d.p.closedPage && ListsOk(d, x, b) && OpenForNext(x, b)
    ensures ListsOk(d, y, b) && OpenForNext(y, b)
  {
    match op
    case Entering(r, s) => EntryKeepsFirst(d, x, r, s, y, b);
    case Firing(turn, cur) =>
      ServiceOpens(d, turn, cur, b);
      var mid := Snapshot(turn.mid, turn.dramAfter);
      if |turn.mid.rd| != d.queueDepth && |turn.mid.wr| != d.queueDepth && turn.mid.ovf != [] {
        var r := turn.mid.ovf[0].(arrivalCycle := cur, ev := !turn.mid.ovf[0].write);
        EntryKeepsFirst(d, mid, r, turn.entered, y, b);
      }
    case _ => SameLists(d, x, y, b);
  }

  lemma SameLists(d: DDRMemory, x: Snapshot, y: Snapshot, b: nat)
    requires y.req.rdLists == x.req.rdLists && y.req.wrLists == x.req.wrLists && |y.dram.banks| == |x.dram.banks|
    requires b < |y.dram.banks| ==> y.dram.banks[b] == x.dram.banks[b] || !y.dram.banks[b].open
    requires ListsOk(d, x, b) && OpenForNext(x, b)
    ensures ListsOk(d, y, b) && OpenForNext(y, b)
  {
    assert forall w :: ListAt(y.req, w, b) == ListAt(x.req, w, b);
  }

  /** With the closed-page policy, in every run a row is open only for a request that waits first in a list of its bank
      and continues the streak. */
  lemma {:induction false} ClosedUnlessHit(d: DDRMemory, ops: seq<Op>, states: seq<Snapshot>, b: nat)
    requires T.ParamsOk(d.p) && Run(d, ops, states) && states[0] == Beginning(d) && d.p.closedPage
    ensures ListsOk(d, states[|ops|], b) && OpenForNext(states[|ops|], b)
    decreases |ops|
  {
    if ops != [] {
      var n := |ops| - 1;
      assert Leads(d, ops[n], states[n], states[n + 1]);
      ClosedUnlessHit(d, ops[..n], states[..n + 1], b);
      OpKeepsOpen(d, ops[n], states[n], states[n + 1], b);
    }
  }
}
