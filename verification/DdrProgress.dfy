/** Runs of the memory controller as its bank lists see them: no request waits for ever, whatever else arrives. */
module DdrProgress {
  import Arith
  import opened Wrappers
  import opened DdrQueue
  import opened DdrState
  import opened DdrMemory
  import T = DdrTiming

  /** What waits in the controller, and the registers of the channel. */
  datatype Snapshot = Snapshot(req: Pending, dram: T.Dram)

  /** What happens to the controller: a request comes, which enters a list as `s` or has to wait outside; an event
      fires; a refresh; or something that leaves everything alone, like an annulled event. */
  datatype Op =
    | Entering(r: Request, s: Request)
    | Outside(r: Request)
    | Firing(turn: Turn, cur: nat)
    | Refreshing(cycle: nat)
    | Resting

  /** The operation leads from `x` to `y`, as the contracts of Enqueue, Simulate and Refresh say. */
  ghost predicate Leads(d: DDRMemory, op: Op, x: Snapshot, y: Snapshot) {
    match op
    case Entering(r, s) =>
      && |x.req.rd| != d.queueDepth && |x.req.wr| != d.queueDepth && r.bank < |x.dram.banks|
      && d.Admitted(x.req, x.dram.banks[r.bank], r, s, y.req) && y.dram == x.dram
    case Outside(r) =>
      && (|x.req.rd| == d.queueDepth || |x.req.wr| == d.queueDepth)
      && y == x.(req := x.req.(ovf := x.req.ovf + [r], issued := x.req.issued + 1))
    case Firing(turn, cur) =>
      && d.Worked(turn, cur) && turn.before == x.req && turn.after == y.req
      && turn.dramBefore == x.dram && turn.dramAfter == y.dram
    case Refreshing(cycle) => T.Shape(d.p, x.dram) && y == x.(dram := T.Refresh(d.p, x.dram, cycle))
    case Resting => y == x
  }

  ghost predicate Run(d: DDRMemory, ops: seq<Op>, states: seq<Snapshot>) {
    |states| == |ops| + 1 && forall k: nat :: k < |ops| ==> Leads(d, ops[k], states[k], states[k + 1])
  }

  /** The list of bank `b` for writes or for reads. */
  function ListAt(x: Pending, w: bool, b: nat): seq<Request> {
    if b < |ListsOf(x, w)| then ListsOf(x, w)[b] else []
  }

  /** The operation serves request `r`: the request leaves the queue for writes or for reads. */
  ghost predicate Serves(op: Op, w: bool, r: Request) {
    op.Firing? && op.turn.served.Some? &&
    var q, i := QueueOf(op.turn.before, w), op.turn.served.value;
    i < |q| && q[i] == r && QueueOf(op.turn.mid, w) == q[..i] + q[i + 1..]
  }

  ghost predicate ServesList(op: Op, w: bool, b: nat) {
    exists r :: Serves(op, w, r) && r.bank == b
  }

  /** How many of the operations serve the list. */
  ghost function ServicesOf(ops: seq<Op>, w: bool, b: nat): nat {
    if ops == [] then 0 else (if ServesList(ops[0], w, b) then 1 else 0) + ServicesOf(ops[1..], w, b)
  }

  // ----- one operation, seen from one list -----

  /** What a service does, in terms of the queues. */
  lemma ServedFrom(d: DDRMemory, turn: Turn, cur: nat) returns (w: bool, r: Request)
    requires d.Half(turn, cur) && turn.served.Some?
    ensures w <==> d.ChooseWrites(turn.before.rd, turn.before.wr, turn.dramBefore.lastCmdWasWrite)
    ensures turn.served.value < |QueueOf(turn.before, w)| && r == QueueOf(turn.before, w)[turn.served.value]
    ensures IsHead(ListsOf(turn.before, w), r) && turn.mid == ServeFrom(turn.before, w, turn.served.value)
    ensures forall w', r' :: Serves(Firing(turn, cur), w', r') <==> w' == w && r' == r
    ensures r.bank < |turn.dramBefore.banks|
    ensures turn.dramAfter ==
            T.Issue(d.p, turn.dramBefore, r, cur, HitsNext(ListsOf(turn.before, w)[r.bank]))
  {
    w := d.ChooseWrites(turn.before.rd, turn.before.wr, turn.dramBefore.lastCmdWasWrite);
    r := QueueOf(turn.before, w)[turn.served.value];
    forall w', r'
      ensures Serves(Firing(turn, cur), w', r') <==> w' == w && r' == r
    {
      assert QueueOf(turn.mid, !w) == QueueOf(turn.before, !w);
    }
  }

  /** A service takes the first request of one list, which is the one that is served, and leaves the others alone. */
  lemma ServiceSeen(d: DDRMemory, turn: Turn, cur: nat, w: bool, b: nat)
    requires d.Half(turn, cur)
    ensures var x, op := turn.before, Firing(turn, cur);
            if ServesList(op, w, b) then
              && |ListAt(x, w, b)| > 0 && Serves(op, w, ListAt(x, w, b)[0])
              && ListAt(turn.mid, w, b) == ListAt(x, w, b)[1..]
            else ListAt(turn.mid, w, b) == ListAt(x, w, b)
  {
    if turn.served.Some? {
      var w0, r0 := ServedFrom(d, turn, cur);
      assert Serves(Firing(turn, cur), w0, r0);
    }
  }

  /** A request that enters goes to its place in one list, and leaves the others alone. */
  lemma EntrySeen(d: DDRMemory, x: Pending, bank: T.BankRegs, r: Request, s: Request, y: Pending, w: bool, b: nat)
    requires d.Admitted(x, bank, r, s, y) || d.MovedIn(x, bank, r, s, y)
    ensures ListAt(y, w, b) ==
            if b == r.bank && w == (d.deferredWrites && r.write)
            then Insert(ListAt(x, w, b), r, d.rowHitLimit, T.Hit(bank, r), bank.curRowHits)
            else ListAt(x, w, b)
  {
    d.InPlaceIs(bank, ListFor(x, d.St(), r), r, s, ListFor(y, d.St(), r));
  }

  /** A request of the list stays in it, as far from being served as it was or nearer, with the one for the same row
      that is next to it. */
  ghost predicate Keeps(q: seq<Request>, k: nat, q': seq<Request>, k': nat, limit: nat) {
    && k < |q| && k' < |q'| && q'[k'] == q[k] && Limited(q, limit) && Limited(q', limit)
    && Wait(q'[..k'], limit) <= Wait(q[..k], limit)
    && (k + 1 < |q| && q[k + 1].row == q[k].row ==> k' + 1 < |q'| && q'[k' + 1] == q[k + 1])
  }

  /** Neither an entry nor anything else but a service changes how long a request of the list has to wait. */
  lemma EntryKeeps(d: DDRMemory, x: Pending, bank: T.BankRegs, r: Request, s: Request, y: Pending, w: bool, b: nat,
                   k: nat) returns (k': nat)
    requires d.Admitted(x, bank, r, s, y) || d.MovedIn(x, bank, r, s, y)
    requires Limited(ListAt(x, w, b), d.rowHitLimit) && k < |ListAt(x, w, b)|
    ensures Keeps(ListAt(x, w, b), k, ListAt(y, w, b), k', d.rowHitLimit)
  {
    EntrySeen(d, x, bank, r, s, y, w, b);
    k' := k;
    if b == r.bank && w == (d.deferredWrites && r.write) {
      k' := ArrivalKeepsWait(ListAt(x, w, b), k, r, d.rowHitLimit, T.Hit(bank, r), bank.curRowHits);
    }
  }

  /** The second half of a turn: a request may enter from outside. */
  lemma AdmissionKeeps(d: DDRMemory, turn: Turn, cur: nat, w: bool, b: nat, k: nat) returns (k': nat)
    requires d.Worked(turn, cur)
    requires Limited(ListAt(turn.mid, w, b), d.rowHitLimit) && k < |ListAt(turn.mid, w, b)|
    ensures Keeps(ListAt(turn.mid, w, b), k, ListAt(turn.after, w, b), k', d.rowHitLimit)
  {
    k' := k;
    var x := turn.mid;
    if |x.rd| != d.queueDepth && |x.wr| != d.queueDepth && x.ovf != [] {
      var r := x.ovf[0].(arrivalCycle := cur, ev := !x.ovf[0].write);
      k' := EntryKeeps(d, x, turn.dramAfter.banks[x.ovf[0].bank], r, turn.entered, turn.after, w, b, k);
    }
  }

  /** What a turn means for the request at place `k` of a list: it is served as the first, or it keeps its wait, which
      is strictly less if another request of the list is served. */
  lemma TurnKeeps(d: DDRMemory, turn: Turn, cur: nat, w: bool, b: nat, k: nat) returns (k': nat)
    requires d.Worked(turn, cur) && Limited(ListAt(turn.before, w, b), d.rowHitLimit)
    requires k < |ListAt(turn.before, w, b)| && (ServesList(Firing(turn, cur), w, b) ==> k > 0)
    ensures Keeps(ListAt(turn.before, w, b), k, ListAt(turn.after, w, b), k', d.rowHitLimit)
    ensures ServesList(Firing(turn, cur), w, b) ==>
              Wait(ListAt(turn.after, w, b)[..k'], d.rowHitLimit) < Wait(ListAt(turn.before, w, b)[..k], d.rowHitLimit)
  {
    ServiceSeen(d, turn, cur, w, b);
    var q, q', limit := ListAt(turn.before, w, b), ListAt(turn.mid, w, b), d.rowHitLimit;
    var m := if ServesList(Firing(turn, cur), w, b) then k - 1 else k;
    if m != k {
      ServiceKeeps(q, k, limit);
    }
    assert Keeps(q, k, q', m, limit);
    k' := AdmissionKeeps(d, turn, cur, w, b, m);
    KeepsOn(q, k, q', m, ListAt(turn.after, w, b), k', limit);
  }

  lemma ServiceKeeps(q: seq<Request>, k: nat, limit: nat)
    requires Limited(q, limit) && 0 < k < |q|
    ensures Keeps(q, k, q[1..], k - 1, limit) && Wait(q[1..][..k - 1], limit) < Wait(q[..k], limit)
  {
    ServiceCutsWait(q, k, limit);
  }

  lemma KeepsOn(q: seq<Request>, k: nat, q': seq<Request>, m: nat, q'': seq<Request>, k': nat, limit: nat)
    requires Keeps(q, k, q', m, limit) && Keeps(q', m, q'', k', limit)
    ensures Keeps(q, k, q'', k', limit)
    ensures Wait(q'[..m], limit) < Wait(q[..k], limit) ==> Wait(q''[..k'], limit) < Wait(q[..k], limit)
  {
  }

  /** The same for every operation. */
  lemma OneOp(d: DDRMemory, op: Op, x: Snapshot, y: Snapshot, w: bool, b: nat, k: nat) returns (k': nat)
    requires Leads(d, op, x, y) && Limited(ListAt(x.req, w, b), d.rowHitLimit) && k < |ListAt(x.req, w, b)|
    requires ServesList(op, w, b) ==> k > 0
    ensures Keeps(ListAt(x.req, w, b), k, ListAt(y.req, w, b), k', d.rowHitLimit)
    ensures ServesList(op, w, b) ==>
              Wait(ListAt(y.req, w, b)[..k'], d.rowHitLimit) < Wait(ListAt(x.req, w, b)[..k], d.rowHitLimit)
  {
    k' := k;
    match op
    case Entering(r, s) => k' := EntryKeeps(d, x.req, x.dram.banks[r.bank], r, s, y.req, w, b, k);
    case Firing(turn, cur) => k' := TurnKeeps(d, turn, cur, w, b, k);
    case _ =>
  }

  // ----- every run -----

  lemma RestRuns(d: DDRMemory, ops: seq<Op>, states: seq<Snapshot>)
    requires Run(d, ops, states) && ops != []
    ensures Leads(d, ops[0], states[0], states[1]) && Run(d, ops[1..], states[1..])
  {
    forall n: nat | n < |ops[1..]|
      ensures Leads(d, ops[1..][n], states[1..][n], states[1..][n + 1])
    {
      assert Leads(d, ops[n + 1], states[n + 1], states[n + 2]);
    }
  }

  /** In every run of the controller, with any arrivals, a request that waits in a bank's list is served once the list
      has been served more often than its wait, which is fixed by the requests ahead of it at the beginning. */
  lemma {:induction false} EveryRequestServed(d: DDRMemory, ops: seq<Op>, states: seq<Snapshot>, w: bool, b: nat,
                                              k: nat)
    requires Run(d, ops, states)
    requires Limited(ListAt(states[0].req, w, b), d.rowHitLimit) && k < |ListAt(states[0].req, w, b)|
    requires ServicesOf(ops, w, b) > Wait(ListAt(states[0].req, w, b)[..k], d.rowHitLimit)
    ensures exists n: nat :: n < |ops| && Serves(ops[n], w, ListAt(states[0].req, w, b)[k])
    decreases |ops|
  {
    var r := ListAt(states[0].req, w, b)[k];
    RestRuns(d, ops, states);
    FirstOrLater(d, ops[0], states[0], states[1], w, b);
    if !Serves(ops[0], w, r) {
      var k' := OneOp(d, ops[0], states[0], states[1], w, b, k);
      EveryRequestServed(d, ops[1..], states[1..], w, b, k');
      var n: nat :| n < |ops[1..]| && Serves(ops[1..][n], w, r);
      assert Serves(ops[n + 1], w, r);
    }
  }

  lemma FirstOrLater(d: DDRMemory, op: Op, x: Snapshot, y: Snapshot, w: bool, b: nat)
    requires Leads(d, op, x, y)
    ensures ServesList(op, w, b) ==> |ListAt(x.req, w, b)| > 0 && Serves(op, w, ListAt(x.req, w, b)[0])
  {
    if op.Firing? {
      ServiceSeen(d, op.turn, op.cur, w, b);
    }
  }

  /** A request that enters a list stands in it where it belongs, behind those that were before that place. */
  lemma EntersAt(d: DDRMemory, op: Op, x: Snapshot, y: Snapshot) returns (k: nat)
    requires Leads(d, op, x, y) && op.Entering?
    requires Limited(ListAt(x.req, d.deferredWrites && op.r.write, op.r.bank), d.rowHitLimit)
    ensures var w := d.deferredWrites && op.r.write;
            var q, q', bank := ListAt(x.req, w, op.r.bank), ListAt(y.req, w, op.r.bank), x.dram.banks[op.r.bank];
            && Limited(q', d.rowHitLimit) && k <= |q| && |q'| == |q| + 1 && q'[k] == op.s && q'[..k] == q[..k]
            && Joins(q, op.r, op.s, k, d.rowHitLimit, bank.open && op.r.row == bank.openRow, bank.curRowHits)
  {
    var Entering(r, s) := op;
    var w, bank := d.deferredWrites && r.write, x.dram.banks[r.bank];
    var q, q' := ListAt(x.req, w, r.bank), ListAt(y.req, w, r.bank);
    assert d.InPlace(bank, q, r, s, q');
    d.InPlaceIs(bank, q, r, s, q');
    InsertLimited(q, r, d.rowHitLimit, T.Hit(bank, r), bank.curRowHits);
    k := JoinedAt(q, r, s, q', d.rowHitLimit, bank.open && r.row == bank.openRow, bank.curRowHits);
  }

  /** So a request that enters a list of n requests is served once the list has been served n + n * limit + 1 times. */
  lemma NewRequestServed(d: DDRMemory, ops: seq<Op>, states: seq<Snapshot>)
    requires Run(d, ops, states) && ops != [] && ops[0].Entering?
    requires var r := ops[0].r;
             var w := d.deferredWrites && r.write;
             var q := ListAt(states[0].req, w, r.bank);
             && Limited(q, d.rowHitLimit)
             && ServicesOf(ops[1..], w, r.bank) > |q| + |q| * d.rowHitLimit
    ensures exists m: nat :: m < |ops| && Serves(ops[m], d.deferredWrites && ops[0].r.write, ops[0].s)
  {
    var w, b := d.deferredWrites && ops[0].r.write, ops[0].r.bank;
    RestRuns(d, ops, states);
    var k := EntersAt(d, ops[0], states[0], states[1]);
    var q := ListAt(states[0].req, w, b);
    CreditBound(q[..k], d.rowHitLimit);
    Arith.MulMono(k, |q|, d.rowHitLimit);
    EveryRequestServed(d, ops[1..], states[1..], w, b, k);
    var m: nat :| m < |ops[1..]| && Serves(ops[1..][m], w, ops[0].s);
    assert Serves(ops[m + 1], w, ops[0].s);
  }
}
