/** The memory controller of one channel. */
module DdrMemory {
  import opened Arith
  import opened Wrappers
  import opened DdrCycles
  import opened DdrQueue
  import opened DdrWindow
  import T = DdrTiming
  import opened DdrState

  /** One turn of the scheduler: the request served, if any, when to try again and what is pending after that, the
      request that has come in from outside; and the states before and after, with the cycle of the next event. */
  datatype Turn = Turn(served: Option<nat>, retry: Option<nat>, mid: Pending, entered: Request,
                       before: Pending, after: Pending, dramBefore: T.Dram, dramAfter: T.Dram, next: Option<nat>)

  /** The request behind the first one joins its streak of row hits. */
  predicate HitsNext(list: seq<Request>) {
    |list| > 1 && list[1].rowHitSeq != 0
  }

  class DDRMemory {
    const p: T.Params
    const c: Clocks
    const queueDepth: nat
    const rowHitLimit: nat
    const deferredWrites: bool

    var banks: seq<T.BankRegs>
    var rdLists: seq<seq<Request>>     // per bank
    var wrLists: seq<seq<Request>>
    var windows: seq<seq<nat>>         // per rank
    var minRespCycle: nat
    var lastCmdWasWrite: bool

    var rdQueue: seq<Request>
    var wrQueue: seq<Request>
    var overflowQueue: seq<Request>

    var events: seq<EventState>
    var nextSchedEvent: Option<nat>
    var nextSchedCycle: Option<nat>    // None stands for "never"
    var eventFreelist: seq<nat>

    var issued: nat                    // numbers the requests

    ghost var answered: set<nat>
    ghost var log: seq<T.Entry>        // the commands so far

    ghost predicate Config() {
      T.ParamsOk(p) && Ok(c) && queueDepth > 0
    }

    ghost function D(): T.Dram
      reads this`banks, this`windows, this`minRespCycle, this`lastCmdWasWrite
    {
      T.Dram(banks, windows, minRespCycle, lastCmdWasWrite)
    }

    ghost predicate Timed()
      reads this`banks, this`windows, this`minRespCycle, this`lastCmdWasWrite, this`log
    {
      T.Inv(p, D(), log)
    }

    function St(): Setup {
      Setup(|p.rankOf|, queueDepth, rowHitLimit, deferredWrites)
    }

    ghost function P(): Pending
      reads this`rdQueue, this`wrQueue, this`overflowQueue, this`rdLists, this`wrLists, this`issued, this`answered
    {
      Pending(rdQueue, wrQueue, overflowQueue, rdLists, wrLists, issued, answered)
    }

    /** The requests are in order: queues, lists and accounts agree. */
    ghost predicate Requests()
      reads this`rdQueue, this`wrQueue, this`overflowQueue, this`rdLists, this`wrLists, this`issued, this`answered
    {
      PendingOk(P(), St())
    }

    ghost predicate Scheduled()
      requires Config()
      reads this`events, this`nextSchedEvent, this`nextSchedCycle, this`eventFreelist
    {
      EventsOk(c, events, nextSchedEvent, nextSchedCycle, eventFreelist)
    }

    predicate Idle()
      reads this`rdQueue, this`wrQueue
    {
      rdQueue == [] && wrQueue == []
    }

    predicate Full()
      reads this`rdQueue, this`wrQueue
    {
      |rdQueue| == queueDepth || |wrQueue| == queueDepth
    }

    /** An event is pending just when requests are queued, and requests overflow only while others are queued. */
    ghost predicate Valid()
      reads this
    {
      && Config() && Timed() && Requests() && Scheduled()
      && (nextSchedEvent.Some? <==> !Idle()) && (overflowQueue != [] ==> !Idle())
    }

    constructor (p: T.Params, c: Clocks, queueDepth: nat, rowHitLimit: nat, deferredWrites: bool)
      requires T.ParamsOk(p) && Ok(c) && queueDepth > 0
      ensures Valid() && issued == 0 && log == []
    {
      this.p, this.c, this.queueDepth, this.rowHitLimit := p, c, queueDepth, rowHitLimit;
      this.deferredWrites := deferredWrites;
      var d := T.Fresh(p);
      banks, windows, minRespCycle, lastCmdWasWrite := d.banks, d.windows, d.minRespCycle, d.lastCmdWasWrite;
      rdLists, wrLists := seq(|p.rankOf|, i => []), seq(|p.rankOf|, i => []);
      rdQueue, wrQueue, overflowQueue := [], [], [];
      events, nextSchedEvent, nextSchedCycle, eventFreelist := [], None, None, [];
      issued, answered, log := 0, {}, [];
      new;
      T.FreshInv(p);
    }

    // ----- commands -----

    function FindMinCmdCycle(r: Request): nat
      requires T.Shape(p, T.Dram(banks, windows, minRespCycle, lastCmdWasWrite)) && r.bank < |banks|
      reads this`banks, this`windows, this`minRespCycle, this`lastCmdWasWrite
    {
      T.FindMinCmdCycle(p, banks[r.bank], windows[p.rankOf[r.bank]][0], r)
    }

    /** Issues the commands for a ready request. */
    method IssueCommands(r: Request, curCycle: nat, nextHit: bool)
      requires Config() && Timed() && T.Ready(p, D(), r, curCycle)
      modifies this`banks, this`windows, this`minRespCycle, this`lastCmdWasWrite, this`log
      ensures Timed() && D() == T.Issue(p, old(D()), r, curCycle, nextHit)
      ensures log == old(log) + [T.EntryOf(p, old(D()), r, curCycle)]
    {
      ghost var d := D();
      T.Known(p, d, log, r.bank);
      WriteCommands(r, curCycle, nextHit);
      T.AccessKeeps(p, d, log, r, curCycle, nextHit, D());
      log := log + [T.EntryOf(p, d, r, curCycle)];
    }

    method WriteCommands(r: Request, curCycle: nat, nextHit: bool)
      requires Config() && T.Shape(p, D()) && T.Ready(p, D(), r, curCycle) && T.RegsOk(p, banks[r.bank])
      modifies this`banks, this`windows, this`minRespCycle, this`lastCmdWasWrite
      ensures D() == T.Issue(p, old(D()), r, curCycle, nextHit)
    {
      T.CommandLater(p, D(), r, curCycle);
      var bank := banks[r.bank];
      var minCmdCycle := MinBusCycle(r, curCycle);
      if !(r.row == bank.openRow && bank.open) {
        var actCycle;
        bank, actCycle := Activate(r);
        minCmdCycle := Max(minCmdCycle, actCycle + p.tRCD);
      }
      var cmdCycle := Max(minCmdCycle, minRespCycle - p.tCL);
      assert bank.lastCmdCycle < cmdCycle;
      minRespCycle := cmdCycle + p.tCL + p.tBL;
      lastCmdWasWrite := r.write;
      bank := Release(bank, r, cmdCycle, nextHit);
      banks := banks[r.bank := bank];
    }

    method MinBusCycle(r: Request, curCycle: nat) returns (minCmdCycle: nat)
      requires minRespCycle >= p.tCL
      ensures minCmdCycle == T.BusCycle(p, D(), r, curCycle)
    {
      minCmdCycle := Max(curCycle, minRespCycle - p.tCL);
      if lastCmdWasWrite && !r.write {
        minCmdCycle := Max(minCmdCycle, minRespCycle + p.tWTR);
      }
    }

    /** Records the activation of the request's row. */
    method Activate(r: Request) returns (bank: T.BankRegs, actCycle: nat)
      requires T.Shape(p, D()) && r.bank < |banks| && !T.Hit(banks[r.bank], r)
      modifies this`windows
      ensures actCycle == T.ActCycle(p, banks[r.bank], T.Oldest(p, old(D()), r.bank), r)
      ensures bank == T.Opened(p, banks[r.bank], T.Oldest(p, old(D()), r.bank), r)
      ensures var rank := p.rankOf[r.bank]; windows == old(windows)[rank := Record(old(windows)[rank], actCycle)]
    {
      bank := banks[r.bank];
      var preIssued := bank.open;
      var preCycle := if !bank.open then bank.minPreCycle else Max(r.arrivalCycle, bank.minPreCycle);
      var rank := p.rankOf[r.bank];
      actCycle := Max(r.arrivalCycle, Max(preCycle + p.tRP, bank.lastActCycle + p.tRRD));
      actCycle := Max(actCycle, windows[rank][0] + p.tFAW);
      bank := bank.(open := true, openRow := r.row);
      if preIssued {
        bank := bank.(minPreCycle := preCycle + p.tRAS);
      }
      assert windows[rank][0] <= actCycle;
      windows := windows[rank := Record(windows[rank], actCycle)];
      bank := bank.(lastActCycle := actCycle);
    }

    /** Records when the row can be precharged; with the closed-page policy the row closes unless it is hit next. */
    method Release(open: T.BankRegs, r: Request, cmdCycle: nat, nextHit: bool) returns (bank: T.BankRegs)
      requires minRespCycle == cmdCycle + p.tCL + p.tBL
      ensures bank == T.AfterCommand(p, open, r, cmdCycle, nextHit)
    {
      bank := open;
      if p.closedPage && !nextHit {
        bank := bank.(open := false);
      }
      var recover := if r.write then minRespCycle + p.tWR else cmdCycle + p.tRTP;
      bank := bank.(minPreCycle := Max(bank.minPreCycle, Max(bank.lastActCycle + p.tRAS, recover)));
      bank := bank.(lastCmdCycle := cmdCycle, curRowHits := r.rowHitSeq);
    }

    /** Closes all rows once every bank has come to rest. */
    method Refresh(sysCycle: nat)
      requires Valid()
      modifies this`banks, this`log
      ensures Valid() && D() == T.Refresh(p, old(D()), SysToMemCycle(c, sysCycle))
      ensures log == old(log) + [T.RefreshEntry(p, old(D()), SysToMemCycle(c, sysCycle))]
    {
      RefreshBanks(sysCycle);
    }

    method RefreshBanks(sysCycle: nat)
      requires Config() && Timed()
      modifies this`banks, this`log
      ensures Timed() && D() == T.Refresh(p, old(D()), SysToMemCycle(c, sysCycle))
      ensures log == old(log) + [T.RefreshEntry(p, old(D()), SysToMemCycle(c, sysCycle))]
    {
      ghost var d := D();
      var memCycle := SysToMemCycle(c, sysCycle);
      var minRefreshCycle := LatestBank(memCycle);
      var refreshDoneCycle := minRefreshCycle + p.tRFC;
      assert p.tRFC >= p.tRP;
      CloseBanks(refreshDoneCycle - p.tRP);
      T.RefreshKeeps(p, d, log, memCycle, D());
      log := log + [T.RefreshEntry(p, d, memCycle)];
    }

    method LatestBank(memCycle: nat) returns (cycle: nat)
      ensures cycle == T.RefreshStart(D(), memCycle) >= memCycle
    {
      cycle := memCycle;
      var i := 0;
      while i < |banks|
        invariant i <= |banks| && cycle == Max(memCycle, T.BusyUntil(banks[..i]))
      {
        assert banks[..i + 1][..i] == banks[..i];
        cycle := Max(cycle, Max(banks[i].minPreCycle, banks[i].lastCmdCycle));
        i := i + 1;
      }
      assert banks[..i] == banks;
    }

    method CloseBanks(minPreCycle: nat)
      modifies this`banks
      ensures banks == T.Closed(old(banks), minPreCycle)
    {
      var i := 0;
      while i < |banks|
        invariant i <= |banks| == |old(banks)|
        invariant forall b :: 0 <= b < |banks| ==>
                    banks[b] == if b < i then old(banks)[b].(open := false, minPreCycle := minPreCycle)
                                else old(banks)[b]
      {
        banks := banks[i := banks[i].(open := false, minPreCycle := minPreCycle)];
        i := i + 1;
      }
    }

    // ----- queueing -----

    /** Finds the place of a request in its bank's list, searching from the back. */
    method Place(q: seq<Request>, r: Request) returns (q': seq<Request>, s: Request)
      requires r.bank < |banks|
      ensures InPlace(banks[r.bank], q, r, s, q')
    {
      var bank := banks[r.bank];
      var m := SearchBack(q, r.row);
      ghost var k: nat := m;
      if m > 0 {
        if q[m - 1].rowHitSeq < rowHitLimit {
          s := r.(rowHitSeq := q[m - 1].rowHitSeq + 1);
          q' := q[..m] + [s] + q[m..];
        } else {
          s, k := r.(rowHitSeq := 0), |q|;
          q' := q + [s];
        }
      } else if bank.open && r.row == bank.openRow && bank.curRowHits < rowHitLimit && q == [] {
        s := r.(rowHitSeq := bank.curRowHits + 1);
        q' := [s] + q;
      } else {
        s, k := r.(rowHitSeq := 0), |q|;
        q' := q + [s];
      }
      assert Joins(q, r, s, k, rowHitLimit, bank.open && r.row == bank.openRow, bank.curRowHits);
      assert q' == q[..k] + [s] + q[k..];
    }

    /** The list `q` of the bank has been joined by `r` as `s`. */
    ghost predicate InPlace(bank: T.BankRegs, q: seq<Request>, r: Request, s: Request, q': seq<Request>) {
      Joined(q, r, s, q', rowHitLimit, bank.open && r.row == bank.openRow, bank.curRowHits)
    }

    lemma InPlaceIs(bank: T.BankRegs, q: seq<Request>, r: Request, s: Request, q': seq<Request>)
      requires InPlace(bank, q, r, s, q')
      ensures q' == Insert(q, r, rowHitLimit, T.Hit(bank, r), bank.curRowHits) && s in q'
      ensures s == r.(rowHitSeq := s.rowHitSeq)
    {
      JoinedIsInsert(q, r, s, q', rowHitLimit, bank.open && r.row == bank.openRow, bank.curRowHits);
    }

    method SearchBack(q: seq<Request>, row: nat) returns (m: nat)
      ensures m <= |q| && (m > 0 ==> IsLast(q, row, m - 1)) && forall i :: m <= i < |q| ==> q[i].row != row
    {
      m := |q|;
      while m > 0 && q[m - 1].row != row
        invariant m <= |q| && forall i :: m <= i < |q| ==> q[i].row != row
      {
        m := m - 1;
      }
    }

    /** Request `k` of the queue heads its bank's list, and its time has come. */
    ghost predicate ReadyAt(d: T.Dram, queue: seq<Request>, lists: seq<seq<Request>>, curCycle: nat, k: nat)
      requires T.Shape(p, d) && |lists| == |d.banks|
    {
      k < |queue| && IsHead(lists, queue[k]) && T.MinCmd(p, d, queue[k]) <= curCycle
    }

    /** The first request of the queue, in order of arrival, that is ready; else the cycle when the first will be. */
    method FindReady(queue: seq<Request>, lists: seq<seq<Request>>, curCycle: nat) returns (i: nat, min: Option<nat>)
      requires Config() && T.Shape(p, D()) && QInv(queue, lists, rowHitLimit) && |lists| == |banks|
      ensures i <= |queue| && (i < |queue| ==> ReadyAt(D(), queue, lists, curCycle, i))
      ensures forall k: nat :: k < i ==> !ReadyAt(D(), queue, lists, curCycle, k)
      ensures i == |queue| > 0 ==> min.Some? && min.value > curCycle && Soonest(D(), queue, lists, min.value)
    {
      if queue != [] {
        var h := HeadExists(queue, lists, rowHitLimit);
      }
      i, min := Scan(queue, lists, curCycle);
    }

    method Scan(queue: seq<Request>, lists: seq<seq<Request>>, curCycle: nat) returns (i: nat, min: Option<nat>)
      requires Config() && T.Shape(p, D()) && |lists| == |banks|
      requires queue != [] ==> exists k: nat :: k < |queue| && IsHead(lists, queue[k])
      ensures i <= |queue| && (i < |queue| ==> ReadyAt(D(), queue, lists, curCycle, i))
      ensures forall k: nat :: k < i ==> !ReadyAt(D(), queue, lists, curCycle, k)
      ensures i == |queue| > 0 ==> min.Some? && min.value > curCycle && Soonest(D(), queue, lists, min.value)
    {
      i, min := 0, None;
      ghost var first: nat := 0;
      while i < |queue|
        invariant i <= |queue|
        invariant forall k: nat :: k < i ==> !ReadyAt(D(), queue, lists, curCycle, k)
        invariant forall k: nat :: k < i && IsHead(lists, queue[k]) ==>
                    min.Some? && T.MinCmd(p, D(), queue[k]) >= min.value
        invariant min.Some? ==>
                    first < i && IsHead(lists, queue[first]) && T.MinCmd(p, D(), queue[first]) == min.value > curCycle
      {
        if IsHead(lists, queue[i]) {
          var minCmdCycle := FindMinCmdCycle(queue[i]);
          if min.None? || minCmdCycle < min.value {
            min, first := Some(minCmdCycle), i;
          }
          if minCmdCycle <= curCycle {
            break;
          }
        }
        i := i + 1;
      }
    }

    /** Cycle `m` is the least at which a request that heads its bank's list is ready. */
    ghost predicate Soonest(d: T.Dram, queue: seq<Request>, lists: seq<seq<Request>>, m: nat)
      requires T.Shape(p, d) && |lists| == |d.banks|
    {
      && (exists k: nat :: k < |queue| && IsHead(lists, queue[k]) && T.MinCmd(p, d, queue[k]) == m)
      && (forall k: nat :: k < |queue| && IsHead(lists, queue[k]) ==> T.MinCmd(p, d, queue[k]) >= m)
    }

    /** Puts a request into its queue and its bank's list. A write is answered at once. */
    method Queue(req: Request, memCycle: nat) returns (s: Request)
      requires |rdLists| == |wrLists| == |banks| && req.bank < |banks| && req.id !in answered
      modifies this`rdQueue, this`wrQueue, this`rdLists, this`wrLists, this`answered
      ensures var r := req.(arrivalCycle := memCycle, ev := !req.write);
              var bank := banks[r.bank];
              && s.bank == r.bank < |wrLists| == |rdLists|
              && var list := ListFor(P(), St(), r);
                 InPlace(bank, ListFor(old(P()), St(), r), r, s, list) && P() == Enlist(old(P()), St(), s, list)
    {
      var r := req.(ev := true);
      if r.write {
        r := r.(ev := false);
        answered := answered + {r.id};
      }
      r := r.(arrivalCycle := memCycle);
      s := Enter(r);
    }

    method Enter(r: Request) returns (s: Request)
      requires |rdLists| == |wrLists| == |banks| && r.bank < |banks|
      modifies this`rdQueue, this`wrQueue, this`rdLists, this`wrLists
      ensures var bank := banks[r.bank];
              && s.bank == r.bank < |wrLists| == |rdLists|
              && var list := ListFor(P(), St(), r);
                 InPlace(bank, ListFor(old(P()), St(), r), r, s, list) && P() == Entered(old(P()), St(), s, list)
    {
      var useWrQueue := deferredWrites && r.write;
      var list;
      if useWrQueue {
        list, s := Place(wrLists[r.bank], r);
        wrLists := wrLists[r.bank := list];
        wrQueue := wrQueue + [s];
      } else {
        list, s := Place(rdLists[r.bank], r);
        rdLists := rdLists[r.bank := list];
        rdQueue := rdQueue + [s];
      }
    }

    // ----- scheduling -----

    /** Issues the commands of a request, answers it if it is a read, and takes it out of queue and list. */
    method Serve(isWriteQueue: bool, i: nat, curCycle: nat, sysCycle: nat)
      requires Config() && Timed() && Requests() && curCycle == SysToMemCycle(c, sysCycle)
      requires Heads(P(), isWriteQueue, i) && T.Ready(p, D(), QueueOf(P(), isWriteQueue)[i], curCycle)
      modifies this`banks, this`windows, this`minRespCycle, this`lastCmdWasWrite, this`log
      modifies this`rdQueue, this`wrQueue, this`rdLists, this`wrLists, this`answered
      ensures Timed() && Requests() && minRespCycle >= curCycle + p.tCL
      ensures DidServe(old(P()), old(D()), isWriteQueue, i, curCycle, P(), D())
      ensures old(log) <= log && old(answered) <= answered
    {
      ghost var x := P();
      ServeOk(x, St(), isWriteQueue, i);
      var r := if isWriteQueue then wrQueue[i] else rdQueue[i];
      ServeSplits(x, isWriteQueue, i, if r.ev then answered + {r.id} else answered);
      Command(r, if isWriteQueue then wrLists[r.bank] else rdLists[r.bank], curCycle);
      assert P() == x;
      Respond(r, sysCycle);
      assert P() == x.(answered := if r.ev then x.answered + {r.id} else x.answered);
      Dequeue(isWriteQueue, i);
    }

    method Command(r: Request, list: seq<Request>, curCycle: nat)
      requires Config() && Timed() && T.Ready(p, D(), r, curCycle)
      modifies this`banks, this`windows, this`minRespCycle, this`lastCmdWasWrite, this`log
      ensures Timed() && D() == T.Issue(p, old(D()), r, curCycle, HitsNext(list))
      ensures minRespCycle >= curCycle + p.tCL
      ensures log == old(log) + [T.EntryOf(p, old(D()), r, curCycle)]
    {
      var nextHit := |list| > 1 && list[1].rowHitSeq != 0;
      T.RespLater(p, D(), r, curCycle, nextHit);
      IssueCommands(r, curCycle, nextHit);
    }

    /** Answers a read once its data have come. */
    method Respond(r: Request, sysCycle: nat)
      requires Config() && minRespCycle >= SysToMemCycle(c, sysCycle)
      requires r.ev ==> !r.write && r.id !in answered
      modifies this`answered
      ensures answered == if r.ev then old(answered) + {r.id} else old(answered)
    {
      if r.ev {
        assert !r.write;
        DoneNotBefore(c, minRespCycle, sysCycle);
        var doneSysCycle := MemToSysCycle(c, minRespCycle);
        assert doneSysCycle >= sysCycle;
        answered := answered + {r.id};
      }
    }

    method Dequeue(isWriteQueue: bool, i: nat)
      requires Heads(P(), isWriteQueue, i)
      modifies this`rdQueue, this`wrQueue, this`rdLists, this`wrLists
      ensures P() == Dequeued(old(P()), isWriteQueue, i)
    {
      if isWriteQueue {
        var b := wrQueue[i].bank;
        wrQueue := wrQueue[..i] + wrQueue[i + 1..];
        wrLists := wrLists[b := wrLists[b][1..]];
      } else {
        var b := rdQueue[i].bank;
        rdQueue := rdQueue[..i] + rdQueue[i + 1..];
        rdLists := rdLists[b := rdLists[b][1..]];
      }
    }

    /** Writes go first while their queue is filling up, or when there is nothing else to do. */
    predicate ChooseWrites(rd: seq<Request>, wr: seq<Request>, lastWasWrite: bool) {
      rd == [] || |wr| > 3 * queueDepth / 4 || (lastWasWrite && |wr| > queueDepth / 4)
    }

    /** Chooses a queue, and in it the first ready request. */
    method Pick(curCycle: nat) returns (isWriteQueue: bool, i: nat, min: Option<nat>)
      requires Config() && Timed() && Requests() && !Idle()
      ensures isWriteQueue == ChooseWrites(rdQueue, wrQueue, lastCmdWasWrite) && i <= |QueueOf(P(), isWriteQueue)|
      ensures NoneReady(P(), D(), isWriteQueue, i, curCycle)
      ensures i < |QueueOf(P(), isWriteQueue)| ==>
                ReadyAt(D(), QueueOf(P(), isWriteQueue), ListsOf(P(), isWriteQueue), curCycle, i)
      ensures i == |QueueOf(P(), isWriteQueue)| ==>
                && min.Some? && min.value > curCycle
                && Soonest(D(), QueueOf(P(), isWriteQueue), ListsOf(P(), isWriteQueue), min.value)
    {
      isWriteQueue := ChooseWrites(rdQueue, wrQueue, lastCmdWasWrite);
      assert QueueOf(P(), isWriteQueue) != [];
      if isWriteQueue {
        i, min := FindReady(wrQueue, wrLists, curCycle);
      } else {
        i, min := FindReady(rdQueue, rdLists, curCycle);
      }
    }

    /** Of the first `n` requests of the queue none is ready. */
    ghost predicate NoneReady(x: Pending, d: T.Dram, isWrite: bool, n: nat, curCycle: nat)
      requires T.Shape(p, d) && |x.rdLists| == |x.wrLists| == |d.banks|
    {
      forall k: nat :: k < n ==> !ReadyAt(d, QueueOf(x, isWrite), ListsOf(x, isWrite), curCycle, k)
    }

    /** Request `i` of the queue has been served: its commands are issued, and it has gone, answered. */
    ghost predicate DidServe(x: Pending, d: T.Dram, isWrite: bool, i: nat, curCycle: nat, x': Pending, d': T.Dram)
      requires T.Shape(p, d)
    {
      && Heads(x, isWrite, i) && x' == ServeFrom(x, isWrite, i)
      && T.Ready(p, d, QueueOf(x, isWrite)[i], curCycle)
      && var r := QueueOf(x, isWrite)[i];
         d' == T.Issue(p, d, r, curCycle, HitsNext(ListsOf(x, isWrite)[r.bank]))
    }

    predicate Empty(x: Pending) {
      x.rd == [] && x.wr == []
    }

    /** What one try comes to when the bus is free: no request of the chosen queue is ready, or the first that is ready
        is served. And when to try again. */
    ghost predicate TriedQueue(x: Pending, d: T.Dram, w: bool, cur: nat, served: Option<nat>,
                               next: Option<nat>, y: Pending, d': T.Dram)
      requires T.Shape(p, d) && |x.rdLists| == |x.wrLists| == |d.banks|
    {
      match served
      case None =>
        && y == x && d' == d && NoneReady(x, d, w, |QueueOf(x, w)|, cur)
        && next.Some? && Soonest(d, QueueOf(x, w), ListsOf(x, w), next.value)
      case Some(i) =>
        && NoneReady(x, d, w, i, cur) && DidServe(x, d, w, i, cur, y, d')
        && (next.None? <==> Empty(y)) && (next.Some? ==> next.value + p.tCL == d'.minRespCycle)
    }

    /** Otherwise nothing is queued, or the bus is not free yet. */
    ghost predicate Tried(x: Pending, d: T.Dram, cur: nat, served: Option<nat>, next: Option<nat>,
                          y: Pending, d': T.Dram)
      requires T.Shape(p, d) && |x.rdLists| == |x.wrLists| == |d.banks|
    {
      if Empty(x) || cur + p.tCL < d.minRespCycle then
        served.None? && y == x && d' == d && next == (if Empty(x) then None else Some(d.minRespCycle - p.tCL))
      else TriedQueue(x, d, ChooseWrites(x.rd, x.wr, d.lastCmdWasWrite), cur, served, next, y, d')
    }

    /** Reads are queued, and the writes fill neither more than three quarters of their queue nor, once they are being
        served, more than one quarter. */
    ghost predicate ReadsNext(x: Pending, lastWasWrite: bool) {
      x.rd != [] && |x.wr| <= 3 * queueDepth / 4 && (lastWasWrite ==> |x.wr| <= queueDepth / 4)
    }

    /** Serves the first ready request, if there is one, and says when to try again. */
    method TrySchedule(curCycle: nat, sysCycle: nat) returns (next: Option<nat>, ghost served: Option<nat>)
      requires Config() && Timed() && Requests() && curCycle == SysToMemCycle(c, sysCycle)
      modifies this`banks, this`windows, this`minRespCycle, this`lastCmdWasWrite, this`log
      modifies this`rdQueue, this`wrQueue, this`rdLists, this`wrLists, this`answered
      ensures Timed() && Requests() && (next.None? <==> Idle()) && (next.Some? ==> next.value >= curCycle)
      ensures Tried(old(P()), old(D()), curCycle, served, next, P(), D())
      ensures served.Some? ==> (|rdQueue| < |old(rdQueue)| <==> ReadsNext(old(P()), old(lastCmdWasWrite)))
      ensures old(log) <= log && old(answered) <= answered
    {
      served := None;
      if rdQueue == [] && wrQueue == [] {
        next := None;
      } else if curCycle + p.tCL < minRespCycle {
        next := Some(minRespCycle - p.tCL);
      } else {
        next, served := TryQueue(curCycle, sysCycle);
      }
    }

    method TryQueue(curCycle: nat, sysCycle: nat) returns (next: Option<nat>, ghost served: Option<nat>)
      requires Config() && Timed() && Requests() && curCycle == SysToMemCycle(c, sysCycle)
      requires !Idle() && curCycle + p.tCL >= minRespCycle
      modifies this`banks, this`windows, this`minRespCycle, this`lastCmdWasWrite, this`log
      modifies this`rdQueue, this`wrQueue, this`rdLists, this`wrLists, this`answered
      ensures Timed() && Requests() && (next.None? <==> Idle()) && (next.Some? ==> next.value >= curCycle)
      ensures TriedQueue(old(P()), old(D()), old(ChooseWrites(rdQueue, wrQueue, lastCmdWasWrite)), curCycle, served,
                         next, P(), D())
      ensures old(log) <= log && old(answered) <= answered
    {
      served := None;
      var isWriteQueue, i, minSchedCycle := Pick(curCycle);
      if i == if isWriteQueue then |wrQueue| else |rdQueue| {
        next := minSchedCycle;
      } else {
        served := Some(i);
        next := ServeNow(isWriteQueue, i, curCycle, sysCycle);
      }
    }

    method ServeNow(isWriteQueue: bool, i: nat, curCycle: nat, sysCycle: nat) returns (next: Option<nat>)
      requires Config() && Timed() && Requests() && curCycle == SysToMemCycle(c, sysCycle)
      requires Heads(P(), isWriteQueue, i) && T.Ready(p, D(), QueueOf(P(), isWriteQueue)[i], curCycle)
      modifies this`banks, this`windows, this`minRespCycle, this`lastCmdWasWrite, this`log
      modifies this`rdQueue, this`wrQueue, this`rdLists, this`wrLists, this`answered
      ensures Timed() && Requests() && (next.None? <==> Idle()) && (next.Some? ==> next.value >= curCycle)
      ensures DidServe(old(P()), old(D()), isWriteQueue, i, curCycle, P(), D())
      ensures next.Some? ==> next.value + p.tCL == minRespCycle
      ensures old(log) <= log && old(answered) <= answered
    {
      Serve(isWriteQueue, i, curCycle, sysCycle);
      next := NextCycle();
    }

    method NextCycle() returns (next: Option<nat>)
      requires minRespCycle >= p.tCL
      ensures (next.None? <==> Idle()) && (next.Some? ==> next.value + p.tCL == minRespCycle)
    {
      next := if rdQueue == [] && wrQueue == [] then None else Some(minRespCycle - p.tCL);
    }

    // ----- events -----

    predicate Later(cycle: Option<nat>, m: nat) {
      cycle.None? || cycle.value > m
    }

    /** Replaces the live event, if there is one, by an event for `minSchedCycle`. */
    method Reschedule(minSchedCycle: nat, sysCycle: nat)
      requires Config() && Scheduled() && minSchedCycle >= SysToMemCycle(c, sysCycle)
      modifies this`events, this`nextSchedEvent, this`nextSchedCycle, this`eventFreelist
      ensures Scheduled() && nextSchedCycle == Some(minSchedCycle) && nextSchedEvent.Some?
      ensures Replanned(old(events), old(nextSchedEvent), events, nextSchedEvent.value)
    {
      if nextSchedEvent.Some? {
        Annul(nextSchedEvent.value);
      }
      var enqSysCycle := EventCycle(minSchedCycle, sysCycle);
      StartEvent(enqSysCycle);
      nextSchedCycle := Some(minSchedCycle);
    }

    method Annul(e: nat)
      requires Config() && Scheduled() && nextSchedEvent == Some(e)
      modifies this`events
      ensures Free(events, eventFreelist) && OthersRest(events, None)
      ensures old(events[e]).QUEUED? && events == old(events)[e := ANNULLED(old(events[e]).at)]
    {
      assert events[e].QUEUED?;
      Changes(events, eventFreelist, e, ANNULLED(events[e].at));
      events := events[e := ANNULLED(events[e].at)];
    }

    /** Takes an event from the free list, or a new one, and queues it. */
    method StartEvent(at: nat)
      requires Free(events, eventFreelist) && OthersRest(events, None)
      modifies this`events, this`nextSchedEvent, this`eventFreelist
      ensures Free(events, eventFreelist) && nextSchedEvent.Some? && OthersRest(events, nextSchedEvent)
      ensures var e := nextSchedEvent.value;
              if e < |old(events)| then old(events)[e].IDLE? && events == old(events)[e := QUEUED(at)]
              else e == |old(events)| && events == old(events) + [QUEUED(at)]
    {
      if eventFreelist != [] {
        TakeFree(events, eventFreelist, QUEUED(at));
        var e := eventFreelist[0];
        eventFreelist := eventFreelist[1..];
        assert events[e].IDLE?;
        events := events[e := QUEUED(at)];
        nextSchedEvent := Some(e);
      } else {
        NewEvent(events, eventFreelist, QUEUED(at));
        nextSchedEvent := Some(|events|);
        events := events + [QUEUED(at)];
      }
    }

    /** An event that has nothing more to do goes back to the free list. */
    method Recycle(e: nat)
      requires Config() && Free(events, eventFreelist) && e < |events| && !events[e].IDLE?
      requires OthersRest(events[e := IDLE], nextSchedEvent) && nextSchedEvent != Some(e)
      modifies this`events, this`eventFreelist
      ensures events == old(events)[e := IDLE] && Free(events, eventFreelist)
    {
      GiveBack(events, eventFreelist, e);
      assert e !in eventFreelist;
      events := events[e := IDLE];
      eventFreelist := [e] + eventFreelist;
    }

    // ----- the interface -----

    /** A request arrives. If a queue is full it has to wait outside; otherwise it enters its bank's list, and an event
        is scheduled if the request could be served before the next one. */
    method Enqueue(bank: nat, row: nat, write: bool, sysCycle: nat) returns (ghost s: Request)
      requires Valid() && bank < |p.rankOf|
      modifies this
      ensures Valid() && issued == old(issued) + 1 && D() == old(D()) && log == old(log)
      ensures var cycle := SysToMemCycle(c, sysCycle);
              if old(Full()) then
                var r := Request(old(issued), bank, row, write, 0, cycle, sysCycle, true);
                P() == old(P()).(ovf := old(overflowQueue) + [r], issued := old(issued) + 1)
              else
                var r := Request(old(issued), bank, row, write, 0, cycle, sysCycle, !write);
                Admitted(old(P()), banks[bank], r, s, P())
      ensures answered == if write && !old(Full())
                          then old(answered) + {old(issued)} else old(answered)
      ensures if old(Full()) then nextSchedCycle == old(nextSchedCycle)
              else Woken(old(nextSchedCycle), P(), D(), s, SysToMemCycle(c, sysCycle), nextSchedCycle)
    {
      var memCycle := SysToMemCycle(c, sysCycle);
      var overflow := Full();
      var req := Request(issued, bank, row, write, 0, memCycle, sysCycle, true);
      if overflow {
        WaitOutside(req);
        s := req;
      } else {
        s := Accept(req, memCycle, sysCycle);
      }
    }

    method WaitOutside(req: Request)
      requires Valid() && req.id == issued && req.ev && req.bank < |p.rankOf| && !Idle()
      modifies this`issued, this`overflowQueue
      ensures Valid() && P() == old(P()).(ovf := old(overflowQueue) + [req], issued := old(issued) + 1)
      ensures D() == old(D()) && log == old(log)
    {
      OverflowNew(P(), St(), req);
      issued := issued + 1;
      overflowQueue := overflowQueue + [req];
    }

    method Accept(req: Request, memCycle: nat, sysCycle: nat) returns (ghost s: Request)
      requires Valid() && |rdQueue| < queueDepth && |wrQueue| < queueDepth
      requires req.id == issued && req.bank < |p.rankOf| && memCycle == SysToMemCycle(c, sysCycle)
      modifies this`issued, this`rdQueue, this`wrQueue, this`rdLists, this`wrLists, this`answered
      modifies this`events, this`nextSchedEvent, this`nextSchedCycle, this`eventFreelist
      ensures Valid() && issued == old(issued) + 1 && D() == old(D()) && log == old(log)
      ensures answered == if req.write then old(answered) + {old(issued)} else old(answered)
      ensures Admitted(old(P()), banks[req.bank], req.(arrivalCycle := memCycle, ev := !req.write), s, P())
      ensures Woken(old(nextSchedCycle), P(), D(), s, memCycle, nextSchedCycle)
    {
      var admitted := Admit(req, memCycle);
      s := admitted;
      ghost var y := P();
      Wake(admitted, memCycle, sysCycle);
      assert P() == y;
    }

    /** Request `r` has entered its queue and its bank's list, where it is `s`. */
    ghost predicate Admitted(x: Pending, bank: T.BankRegs, r: Request, s: Request, y: Pending) {
      && s.bank == r.bank < |x.rdLists| == |y.rdLists| && r.bank < |x.wrLists| == |y.wrLists|
      && var list := ListFor(y, St(), r);
         InPlace(bank, ListFor(x, St(), r), r, s, list) && y == Enlist(x, St(), s, list).(issued := x.issued + 1)
    }

    method Admit(req: Request, memCycle: nat) returns (s: Request)
      requires Requests() && |rdQueue| < queueDepth && |wrQueue| < queueDepth
      requires req.id == issued && req.bank < |banks| == |p.rankOf|
      modifies this`issued, this`rdQueue, this`wrQueue, this`rdLists, this`wrLists, this`answered
      ensures Requests() && !Idle() && issued == old(issued) + 1 && s.bank < |banks|
      ensures D() == old(D()) && log == old(log)
      ensures answered == if req.write then old(answered) + {old(issued)} else old(answered)
      ensures old(Idle()) ==> IsHead(ListsOf(P(), deferredWrites && s.write), s)
      ensures Admitted(old(P()), banks[req.bank], req.(arrivalCycle := memCycle, ev := !req.write), s, P())
    {
      ghost var x := P();
      NumberUnused(x, St());
      s := Queue(req, memCycle);
      issued := issued + 1;
      EnteredNew(x, banks[req.bank], req.(arrivalCycle := memCycle, ev := !req.write), s, P());
    }

    /** The next event is for a request that heads its bank's list, as soon as bus and bank allow, if that is sooner. */
    ghost predicate Woken(before: Option<nat>, y: Pending, d: T.Dram, s: Request, memCycle: nat, after: Option<nat>) {
      && T.Shape(p, d) && s.bank < |d.banks|
      && var m := Max(Max(memCycle, d.minRespCycle - p.tCL - p.tBL), T.MinCmd(p, d, s));
         after == if IsHead(ListsOf(y, deferredWrites && s.write), s) && (before.None? || before.value > m) then Some(m)
                  else before
    }

    /** Schedules an event for a request that heads its bank's list. */
    method Wake(s: Request, memCycle: nat, sysCycle: nat)
      requires Config() && Scheduled() && Timed() && Requests() && s.bank < |banks|
      requires memCycle == SysToMemCycle(c, sysCycle)
      modifies this`events, this`nextSchedEvent, this`nextSchedCycle, this`eventFreelist
      ensures Scheduled() && Timed() && Requests() && P() == old(P()) && D() == old(D())
      ensures Woken(old(nextSchedCycle), P(), D(), s, memCycle, nextSchedCycle)
    {
      if IsHead(if deferredWrites && s.write then wrLists else rdLists, s) {
        var minSchedCycle := Max(memCycle, minRespCycle - p.tCL - p.tBL);
        if Later(nextSchedCycle, minSchedCycle) {
          minSchedCycle := Max(minSchedCycle, FindMinCmdCycle(s));
        }
        if Later(nextSchedCycle, minSchedCycle) {
          Reschedule(minSchedCycle, sysCycle);
        }
      }
    }

    /** After a new request has entered, all requests are in order, and it heads its list if no other was queued. */
    lemma EnteredNew(x: Pending, bank: T.BankRegs, r: Request, s: Request, y: Pending)
      requires PendingOk(x, St()) && |x.rd| < queueDepth && |x.wr| < queueDepth && r.ev == !r.write
      requires r.id == x.issued && r.bank < |p.rankOf| && Admitted(x, bank, r, s, y)
      ensures PendingOk(y, St()) && !(y.rd == [] && y.wr == [])
      ensures x.rd == [] && x.wr == [] ==> IsHead(ListsOf(y, deferredWrites && s.write), s)
    {
      var hit, hits := T.Hit(bank, r), bank.curRowHits;
      InPlaceIs(bank, ListFor(x, St(), r), r, s, ListFor(y, St(), r));
      EnlistNew(x, St(), r, s, Insert(ListFor(x, St(), r), r, rowHitLimit, hit, hits), hit, hits);
      if x.rd == [] && x.wr == [] {
        FirstOrNot(x, St(), r, hit, hits);
      }
    }

    /** Serves a request if one is ready, lets one in from outside, and says when the next event is due; 0 if never. */
    method Tick(sysCycle: nat) returns (nextCycle: nat, ghost turn: Turn)
      requires Config() && Timed() && Requests() && (overflowQueue != [] ==> !Idle())
      requires nextSchedCycle == Some(SysToMemCycle(c, sysCycle))
      modifies this`banks, this`windows, this`minRespCycle, this`lastCmdWasWrite, this`log
      modifies this`rdQueue, this`wrQueue, this`overflowQueue, this`rdLists, this`wrLists, this`answered
      modifies this`nextSchedEvent, this`nextSchedCycle
      ensures Timed() && Requests() && (overflowQueue != [] ==> !Idle())
      ensures nextSchedCycle.None? <==> Idle()
      ensures Planned(nextSchedCycle, old(nextSchedEvent), nextSchedEvent, nextCycle)
      ensures old(answered) <= answered && old(log) <= log
      ensures Worked(turn, SysToMemCycle(c, sysCycle)) && turn.before == old(P()) && turn.after == P()
      ensures turn.dramBefore == old(D()) && turn.dramAfter == D() && turn.next == nextSchedCycle
    {
      var memCycle := SysToMemCycle(c, sysCycle);
      assert Some(memCycle) == nextSchedCycle;
      var minSchedCycle;
      minSchedCycle, turn := Work(memCycle, sysCycle);
      nextCycle := Plan(minSchedCycle, sysCycle);
    }

    /** Records the next cycle, or that there is none. */
    method Plan(minSchedCycle: Option<nat>, sysCycle: nat) returns (nextCycle: nat)
      requires Config() && Timed() && Requests()
      requires minSchedCycle.Some? ==> minSchedCycle.value >= SysToMemCycle(c, sysCycle)
      modifies this`nextSchedEvent, this`nextSchedCycle
      ensures nextSchedCycle == minSchedCycle && Planned(minSchedCycle, old(nextSchedEvent), nextSchedEvent, nextCycle)
      ensures Timed() && Requests() && P() == old(P()) && D() == old(D()) && log == old(log)
    {
      nextSchedCycle := minSchedCycle;
      if nextSchedCycle.None? {
        nextSchedEvent := None;
        nextCycle := 0;
      } else {
        nextCycle := EventCycle(nextSchedCycle.value, sysCycle);
      }
    }

    /** The live event stays live and fires in memory cycle `next`; if that is never, there is none, which 0 says. */
    ghost predicate Planned(next: Option<nat>, before: Option<nat>, after: Option<nat>, nextCycle: nat)
      requires Config()
    {
      match next
      case None => after.None? && nextCycle == 0
      case Some(m) => after == before && nextCycle > 0 && SysToMemCycle(c, nextCycle) == m
    }

    /** The system cycle for an event in memory cycle `m`: it translates back to `m`, and is never 0. */
    method EventCycle(m: nat, sysCycle: nat) returns (cycle: nat)
      requires Config() && m >= SysToMemCycle(c, sysCycle)
      ensures cycle > 0 && cycle >= sysCycle && SysToMemCycle(c, cycle) == m
    {
      NeverZero(c, m);
      EventFallsOn(c, m, sysCycle);
      cycle := Max(MatchingMemToSysCycle(c, m), sysCycle);
    }

    method Work(memCycle: nat, sysCycle: nat) returns (minSchedCycle: Option<nat>, ghost turn: Turn)
      requires Config() && Timed() && Requests() && (overflowQueue != [] ==> !Idle())
      requires memCycle == SysToMemCycle(c, sysCycle)
      modifies this`banks, this`windows, this`minRespCycle, this`lastCmdWasWrite, this`log
      modifies this`rdQueue, this`wrQueue, this`overflowQueue, this`rdLists, this`wrLists, this`answered
      ensures Timed() && Requests() && (overflowQueue != [] ==> !Idle())
      ensures (minSchedCycle.None? <==> Idle()) && (minSchedCycle.Some? ==> minSchedCycle.value >= memCycle)
      ensures old(answered) <= answered && old(log) <= log
      ensures Worked(turn, memCycle) && turn.before == old(P()) && turn.after == P()
      ensures turn.dramBefore == old(D()) && turn.dramAfter == D() && turn.next == minSchedCycle
    {
      minSchedCycle, turn := Attempt(memCycle, sysCycle);
      assert minSchedCycle.Some? ==> minSchedCycle.value >= memCycle;
      minSchedCycle, turn := Admission(minSchedCycle, memCycle, turn);
    }

    /** The first half of a turn. */
    method Attempt(memCycle: nat, sysCycle: nat) returns (next: Option<nat>, ghost turn: Turn)
      requires Config() && Timed() && Requests() && memCycle == SysToMemCycle(c, sysCycle)
      modifies this`banks, this`windows, this`minRespCycle, this`lastCmdWasWrite, this`log
      modifies this`rdQueue, this`wrQueue, this`rdLists, this`wrLists, this`answered
      ensures Timed() && Requests() && (next.None? <==> Idle()) && (next.Some? ==> next.value >= memCycle)
      ensures Half(turn, memCycle) && turn.before == old(P()) && turn.mid == P()
      ensures turn.dramBefore == old(D()) && turn.dramAfter == D() && turn.retry == next
      ensures old(log) <= log && old(answered) <= answered
    {
      ghost var served;
      next, served := TrySchedule(memCycle, sysCycle);
      turn := HalfOf(old(P()), old(D()), memCycle, served, next, P(), D());
    }

    lemma HalfOf(x: Pending, d: T.Dram, cur: nat, served: Option<nat>, retry: Option<nat>, mid: Pending,
                 d': T.Dram) returns (t: Turn)
      requires T.Shape(p, d) && T.Shape(p, d') && |x.rdLists| == |x.wrLists| == |d.banks|
      requires Tried(x, d, cur, served, retry, mid, d')
      ensures Half(t, cur) && t.before == x && t.mid == mid && t.retry == retry
      ensures t.dramBefore == d && t.dramAfter == d'
    {
      t := Turn(served, retry, mid, Request(0, 0, 0, false, 0, 0, 0, false), x, mid, d, d', retry);
    }

    /** The second half: lets the first request from outside in if there is one and there is room. */
    method Admission(minSchedCycle: Option<nat>, memCycle: nat, ghost half: Turn)
      returns (next: Option<nat>, ghost turn: Turn)
      requires Config() && Timed() && Requests()
      requires (minSchedCycle.None? <==> Idle()) && (minSchedCycle.Some? ==> minSchedCycle.value >= memCycle)
      requires Half(half, memCycle) && half.mid == P() && half.dramAfter == D() && half.retry == minSchedCycle
      modifies this`rdQueue, this`wrQueue, this`overflowQueue, this`rdLists, this`wrLists, this`answered
      ensures Timed() && D() == old(D()) && log == old(log) && Requests() && (overflowQueue != [] ==> !Idle())
      ensures (next.None? <==> Idle()) && (next.Some? ==> next.value >= memCycle) && old(answered) <= answered
      ensures Worked(turn, memCycle) && turn.before == half.before && turn.after == P()
      ensures turn.dramBefore == half.dramBefore && turn.dramAfter == half.dramAfter && turn.next == next
    {
      if !Full() && overflowQueue != [] {
        ghost var entered;
        next, entered := LetIn(minSchedCycle, memCycle);
        turn := half.(entered := entered, after := P(), next := next);
      } else {
        next := minSchedCycle;
        turn := half.(after := P(), next := next);
      }
    }

    /** The first request from outside enters. If it heads its bank's list it may be due before `minSchedCycle`. */
    method LetIn(minSchedCycle: Option<nat>, memCycle: nat) returns (next: Option<nat>, ghost entered: Request)
      requires Config() && T.Shape(p, D()) && Requests()
      requires overflowQueue != [] && |rdQueue| < queueDepth && |wrQueue| < queueDepth
      requires (minSchedCycle.None? <==> Idle()) && (minSchedCycle.Some? ==> minSchedCycle.value >= memCycle)
      modifies this`rdQueue, this`wrQueue, this`overflowQueue, this`rdLists, this`wrLists, this`answered
      ensures Requests() && !Idle() && overflowQueue == old(overflowQueue)[1..] && old(answered) <= answered
      ensures next.Some? && next.value >= memCycle
      ensures LetFirst(old(P()), D(), memCycle, minSchedCycle, entered, P(), next)
    {
      var s := AdmitFirst(memCycle);
      entered, next := s, minSchedCycle;
      if IsHead(if deferredWrites && s.write then wrLists else rdLists, s) {
        next := Hasten(s, minSchedCycle, memCycle);
      }
    }

    /** The next event is no later than the data bus allows. */
    ghost predicate Hastened(before: Option<nat>, d: T.Dram, memCycle: nat, after: Option<nat>)
      requires T.Shape(p, d)
    {
      var m := Max(memCycle, d.minRespCycle - p.tCL - p.tBL);
      after == if before.None? || before.value > m then Some(m) else before
    }

    method Hasten(s: Request, minSchedCycle: Option<nat>, memCycle: nat) returns (next: Option<nat>)
      requires T.Shape(p, D()) && s.bank < |banks|
      ensures Hastened(minSchedCycle, D(), memCycle, next)
    {
      next := minSchedCycle;
      var minQueuedSchedCycle := Max(memCycle, minRespCycle - p.tCL - p.tBL);
      if Later(next, minQueuedSchedCycle) {
        next := Some(Max(minQueuedSchedCycle, FindMinCmdCycle(s)));
      }
      if Later(next, minQueuedSchedCycle) {
        next := Some(minQueuedSchedCycle);
      }
    }

    method AdmitFirst(memCycle: nat) returns (s: Request)
      requires T.Shape(p, D()) && Requests() && overflowQueue != [] && |rdQueue| < queueDepth && |wrQueue| < queueDepth
      modifies this`rdQueue, this`wrQueue, this`overflowQueue, this`rdLists, this`wrLists, this`answered
      ensures Requests() && !Idle() && overflowQueue == old(overflowQueue)[1..] && s.bank < |banks|
      ensures old(answered) <= answered
      ensures old(Idle()) ==> IsHead(ListsOf(P(), deferredWrites && s.write), s)
      ensures FirstEntered(old(P()), D(), memCycle, s, P())
    {
      ghost var x := P();
      var req := overflowQueue[0];
      OutsideUnanswered(x, St());
      overflowQueue := overflowQueue[1..];
      s := Queue(req, memCycle);
      EnteredMoved(x, banks[req.bank], req.(arrivalCycle := memCycle, ev := !req.write), s, P());
    }

    /** The first request from outside has entered its queue and its bank's list as `r`, where it is `s`. */
    ghost predicate MovedIn(x: Pending, bank: T.BankRegs, r: Request, s: Request, y: Pending) {
      && x.ovf != [] && s.bank == r.bank < |x.rdLists| == |y.rdLists| && r.bank < |x.wrLists| == |y.wrLists|
      && var list := ListFor(y, St(), r);
         InPlace(bank, ListFor(x, St(), r), r, s, list) && y == Enlist(x.(ovf := x.ovf[1..]), St(), s, list)
    }

    ghost predicate FirstEntered(x: Pending, d: T.Dram, memCycle: nat, s: Request, y: Pending) {
      && x.ovf != [] && x.ovf[0].bank < |d.banks|
      && MovedIn(x, d.banks[x.ovf[0].bank], x.ovf[0].(arrivalCycle := memCycle, ev := !x.ovf[0].write), s, y)
    }

    /** It has entered, and the next event is no later than the bus allows if it heads its bank's list. */
    ghost predicate LetFirst(x: Pending, d: T.Dram, memCycle: nat, minSchedCycle: Option<nat>, s: Request, y: Pending,
                             next: Option<nat>)
      requires T.Shape(p, d)
    {
      && FirstEntered(x, d, memCycle, s, y)
      && if IsHead(ListsOf(y, deferredWrites && s.write), s) then Hastened(minSchedCycle, d, memCycle, next)
         else next == minSchedCycle
    }

    /** If there is room and there is one outside. */
    ghost predicate AdmittedOne(x: Pending, d: T.Dram, cur: nat, before: Option<nat>, s: Request, y: Pending,
                                next: Option<nat>)
      requires T.Shape(p, d)
    {
      if |x.rd| != queueDepth && |x.wr| != queueDepth && x.ovf != [] then LetFirst(x, d, cur, before, s, y, next)
      else y == x && next == before
    }

    /** A whole turn: one try, and then one request from outside if there is room. */
    ghost predicate Half(t: Turn, cur: nat) {
      var x := t.before;
      && T.Shape(p, t.dramBefore) && T.Shape(p, t.dramAfter) && |x.rdLists| == |x.wrLists| == |t.dramBefore.banks|
      && Tried(x, t.dramBefore, cur, t.served, t.retry, t.mid, t.dramAfter)
    }

    ghost predicate Worked(t: Turn, cur: nat) {
      && Half(t, cur)
      && AdmittedOne(t.mid, t.dramAfter, cur, t.retry, t.entered, t.after, t.next)
    }

    lemma EnteredMoved(x: Pending, bank: T.BankRegs, r: Request, s: Request, y: Pending)
      requires PendingOk(x, St()) && |x.rd| < queueDepth && |x.wr| < queueDepth && r.ev == !r.write
      requires x.ovf != [] && r.id == x.ovf[0].id && r.bank < |p.rankOf| && MovedIn(x, bank, r, s, y)
      ensures PendingOk(y, St()) && !(y.rd == [] && y.wr == [])
      ensures x.rd == [] && x.wr == [] ==> IsHead(ListsOf(y, deferredWrites && s.write), s)
    {
      var hit, hits := T.Hit(bank, r), bank.curRowHits;
      InPlaceIs(bank, ListFor(x, St(), r), r, s, ListFor(y, St(), r));
      EnlistMoved(x, St(), r, s, Insert(ListFor(x, St(), r), r, rowHitLimit, hit, hits), hit, hits);
      if x.rd == [] && x.wr == [] {
        FirstOrNot(x, St(), r, hit, hits);
      }
    }

    /** An event fires. The live one serves requests and is queued again if there is more to do; an annulled one only
        goes back to the free list. */
    method Simulate(e: nat) returns (ghost turn: Option<Turn>)
      requires Valid() && e < |events| && (events[e].QUEUED? || events[e].ANNULLED?)
      modifies this
      ensures Valid() && issued == old(issued) && old(answered) <= answered && old(log) <= log
      ensures turn.Some? <==> old(events[e]).QUEUED?
      ensures turn.Some? ==>
                && Worked(turn.value, SysToMemCycle(c, old(events[e]).at)) && turn.value.before == old(P())
                && turn.value.after == P() && turn.value.dramBefore == old(D()) && turn.value.dramAfter == D()
                && turn.value.next == nextSchedCycle
      ensures turn.None? ==> P() == old(P()) && D() == old(D()) && nextSchedCycle == old(nextSchedCycle)
    {
      if events[e].QUEUED? {
        assert nextSchedEvent == Some(e);
        ghost var t := Fire(e);
        turn := Some(t);
      } else {
        turn := None;
        Recycle(e);
      }
    }

    method Fire(e: nat) returns (ghost turn: Turn)
      requires Valid() && nextSchedEvent == Some(e)
      modifies this`banks, this`windows, this`minRespCycle, this`lastCmdWasWrite, this`log
      modifies this`rdQueue, this`wrQueue, this`overflowQueue, this`rdLists, this`wrLists, this`answered
      modifies this`events, this`nextSchedEvent, this`nextSchedCycle, this`eventFreelist
      ensures Valid() && old(answered) <= answered && old(log) <= log
      ensures Worked(turn, SysToMemCycle(c, old(events[e]).at)) && turn.before == old(P()) && turn.after == P()
      ensures turn.dramBefore == old(D()) && turn.dramAfter == D() && turn.next == nextSchedCycle
    {
      var startCycle := Start(e);
      var nextCycle;
      nextCycle, turn := Tick(startCycle);
      Settle(e, nextCycle);
    }

    method Start(e: nat) returns (startCycle: nat)
      requires Valid() && nextSchedEvent == Some(e)
      modifies this`events
      ensures startCycle == old(events[e]).at && nextSchedCycle == Some(SysToMemCycle(c, startCycle))
      ensures Timed() && Requests() && P() == old(P()) && D() == old(D()) && log == old(log)
      ensures e < |events| && events[e].RUNNING? && Free(events, eventFreelist) && OthersRest(events, Some(e))
      ensures overflowQueue != [] ==> !Idle()
    {
      startCycle := events[e].at;
      Changes(events, eventFreelist, e, RUNNING);
      events := events[e := RUNNING];
    }

    /** After its turn the event is queued for the next cycle, or it is done. */
    method Settle(e: nat, nextCycle: nat)
      requires Config() && e < |events| && events[e].RUNNING?
      requires Free(events, eventFreelist) && OthersRest(events, Some(e))
      requires Planned(nextSchedCycle, Some(e), nextSchedEvent, nextCycle) && Timed() && Requests()
      modifies this`events, this`eventFreelist
      ensures Scheduled() && Timed() && Requests() && P() == old(P()) && D() == old(D()) && log == old(log)
    {
      if nextCycle != 0 {
        Changes(events, eventFreelist, e, QUEUED(nextCycle));
        events := events[e := QUEUED(nextCycle)];
      } else {
        Recycle(e);
      }
    }
  }
}
