/** The timing of the DRAM channel: when commands are issued, and what every run of them keeps. */
module DdrTiming {
  import opened Arith
  import opened DdrQueue
  import opened DdrWindow

  /** The timing parameters in memory cycles, the page policy, and the rank of every bank; banks are numbered across
      ranks. */
  datatype Params = Params(tBL: nat, tCL: nat, tRCD: nat, tRTP: nat, tRP: nat, tRRD: nat, tRAS: nat, tFAW: nat,
                           tWTR: nat, tWR: nat, tRFC: nat, closedPage: bool, rankOf: seq<nat>, ranks: nat)

  /** The registers of one bank. */
  datatype BankRegs = BankRegs(open: bool, openRow: nat, minPreCycle: nat, lastActCycle: nat, lastCmdCycle: nat,
                               curRowHits: nat)

  datatype Dram = Dram(banks: seq<BankRegs>, windows: seq<seq<nat>>, minRespCycle: nat, lastCmdWasWrite: bool)

  predicate ParamsOk(p: Params) {
    && p.tBL > 0 && p.tCL > 0 && p.tRCD > 0 && p.tRFC >= p.tRP
    && forall b :: 0 <= b < |p.rankOf| ==> p.rankOf[b] < p.ranks
  }

  const WINDOW: nat := 4

  predicate Shape(p: Params, d: Dram) {
    && ParamsOk(p) && |d.banks| == |p.rankOf| && |d.windows| == p.ranks
    && (forall k :: 0 <= k < |d.windows| ==> |d.windows[k]| == WINDOW)
    && d.minRespCycle >= p.tCL + p.tBL
  }

  /** Nothing has been issued yet. */
  function Fresh(p: Params): Dram {
    Dram(seq(|p.rankOf|, i => BankRegs(false, 0, 0, 0, 0, 0)), seq(p.ranks, i => Zeros(WINDOW)),
         p.tCL + p.tBL + 1, false)
  }

  // ----- one command -----

  function Hit(bank: BankRegs, r: Request): bool {
    bank.open && r.row == bank.openRow
  }

  /** When the row can be precharged. */
  function PreCycle(bank: BankRegs, r: Request): nat {
    if bank.open then Max(r.arrivalCycle, bank.minPreCycle) else bank.minPreCycle
  }

  /** When the row can be activated. */
  function ActCycle(p: Params, bank: BankRegs, oldest: nat, r: Request): nat {
    Max(Max(r.arrivalCycle, Max(PreCycle(bank, r) + p.tRP, bank.lastActCycle + p.tRRD)), oldest + p.tFAW)
  }

  /** The first cycle for the column command, as far as bank and rank are concerned. */
  function FindMinCmdCycle(p: Params, bank: BankRegs, oldest: nat, r: Request): nat {
    if Hit(bank, r) then Max(r.arrivalCycle, bank.lastCmdCycle + 1) else ActCycle(p, bank, oldest, r) + p.tRCD
  }

  /** The first cycle for the column command, as far as the bus is concerned. */
  function BusCycle(p: Params, d: Dram, r: Request, cur: nat): nat
    requires d.minRespCycle >= p.tCL
  {
    var free := Max(cur, d.minRespCycle - p.tCL);
    if d.lastCmdWasWrite && !r.write then Max(free, d.minRespCycle + p.tWTR) else free
  }

  /** The cycle at which the column command is issued. */
  function CmdCycle(p: Params, d: Dram, bank: BankRegs, oldest: nat, r: Request, cur: nat): nat
    requires d.minRespCycle >= p.tCL
  {
    var bus := BusCycle(p, d, r, cur);
    var row := if Hit(bank, r) then bus else Max(bus, ActCycle(p, bank, oldest, r) + p.tRCD);
    Max(row, d.minRespCycle - p.tCL)
  }

  /** The bank's registers once the row of the request is open. */
  function Opened(p: Params, bank: BankRegs, oldest: nat, r: Request): BankRegs {
    if Hit(bank, r) then bank
    else bank.(open := true, openRow := r.row, lastActCycle := ActCycle(p, bank, oldest, r),
               minPreCycle := if bank.open then PreCycle(bank, r) + p.tRAS else bank.minPreCycle)
  }

  /** And after the column command; `nextHit` says that the next request of the list is for the same row. */
  function AfterCommand(p: Params, active: BankRegs, r: Request, cmd: nat, nextHit: bool): BankRegs {
    var recover := if r.write then cmd + p.tCL + p.tBL + p.tWR else cmd + p.tRTP;
    active.(open := if p.closedPage && !nextHit then false else active.open,
            minPreCycle := Max(active.minPreCycle, Max(active.lastActCycle + p.tRAS, recover)),
            lastCmdCycle := cmd, curRowHits := r.rowHitSeq)
  }

  function RegsAfter(p: Params, bank: BankRegs, oldest: nat, r: Request, cmd: nat, nextHit: bool): BankRegs {
    AfterCommand(p, Opened(p, bank, oldest, r), r, cmd, nextHit)
  }

  function Oldest(p: Params, d: Dram, b: nat): nat
    requires Shape(p, d) && b < |d.banks|
  {
    d.windows[p.rankOf[b]][0]
  }

  function MinCmd(p: Params, d: Dram, r: Request): nat
    requires Shape(p, d) && r.bank < |d.banks|
  {
    FindMinCmdCycle(p, d.banks[r.bank], Oldest(p, d, r.bank), r)
  }

  function Issue(p: Params, d: Dram, r: Request, cur: nat, nextHit: bool): (d': Dram)
    requires Shape(p, d) && r.bank < |d.banks|
    ensures Shape(p, d')
  {
    var bank, oldest, rank := d.banks[r.bank], Oldest(p, d, r.bank), p.rankOf[r.bank];
    var cmd := CmdCycle(p, d, bank, oldest, r, cur);
    Dram(d.banks[r.bank := RegsAfter(p, bank, oldest, r, cmd, nextHit)],
         if Hit(bank, r) then d.windows
         else d.windows[rank := Record(d.windows[rank], ActCycle(p, bank, oldest, r))],
         cmd + p.tCL + p.tBL, r.write)
  }

  /** The last cycle at which some bank is still busy. */
  function BusyUntil(banks: seq<BankRegs>): (m: nat)
    ensures forall b :: 0 <= b < |banks| ==> banks[b].minPreCycle <= m && banks[b].lastCmdCycle <= m
  {
    if banks == [] then 0
    else var last := banks[|banks| - 1];
         Max(BusyUntil(banks[..|banks| - 1]), Max(last.minPreCycle, last.lastCmdCycle))
  }

  function RefreshStart(d: Dram, cycle: nat): nat {
    Max(cycle, BusyUntil(d.banks))
  }

  function Closed(banks: seq<BankRegs>, minPreCycle: nat): (c: seq<BankRegs>)
    ensures |c| == |banks|
    ensures forall b :: 0 <= b < |banks| ==> c[b] == banks[b].(open := false, minPreCycle := minPreCycle)
  {
    if banks == [] then []
    else Closed(banks[..|banks| - 1], minPreCycle) + [banks[|banks| - 1].(open := false, minPreCycle := minPreCycle)]
  }

  /** A refresh closes all rows, and no row can be activated before it is done. */
  function Refresh(p: Params, d: Dram, cycle: nat): (d': Dram)
    requires Shape(p, d)
    ensures Shape(p, d')
  {
    var done := RefreshStart(d, cycle) + p.tRFC;
    d.(banks := Closed(d.banks, done - p.tRP))
  }

  // ----- the commands of a run -----

  datatype Entry =
    | Access(bank: nat, row: nat, write: bool, activated: bool, pre: nat, act: nat, cas: nat, end: nat)
    | Refreshed(start: nat, done: nat)

  function EntryOf(p: Params, d: Dram, r: Request, cur: nat): Entry
    requires Shape(p, d) && r.bank < |d.banks|
  {
    var bank, oldest := d.banks[r.bank], Oldest(p, d, r.bank);
    var cmd := CmdCycle(p, d, bank, oldest, r, cur);
    Access(r.bank, r.row, r.write, !Hit(bank, r), PreCycle(bank, r), ActCycle(p, bank, oldest, r), cmd,
           cmd + p.tCL + p.tBL)
  }

  /** When an access has let go of its row. */
  function Released(p: Params, e: Entry): nat
    requires e.Access?
  {
    if e.write then e.end + p.tWR else e.cas + p.tRTP
  }

  /** What two commands owe each other, `e` issued before `f`. */
  ghost predicate Compatible(p: Params, e: Entry, f: Entry) {
    match (e, f)
    case (Access(_, _, _, _, _, _, _, _), Access(_, _, _, _, _, _, _, _)) =>
      && e.end <= f.cas + p.tCL
      && (e.write && !f.write ==> f.cas >= e.end + p.tWTR)
      && (e.bank == f.bank ==> f.cas > e.cas)
      && (e.bank == f.bank && f.activated ==> f.pre >= Released(p, e) && f.act >= f.pre + p.tRP)
      && (e.bank == f.bank && f.activated && e.activated ==>
            f.pre >= e.act + p.tRAS && f.act >= e.act + p.tRAS + p.tRP && f.act >= e.act + p.tRRD)
    case (Refreshed(start, done), Access(_, _, _, activated, _, act, cas, _)) =>
      cas >= done + p.tRCD && (activated ==> act >= done)
    case (Access(_, _, _, activated, _, act, cas, _), Refreshed(start, done)) =>
      start >= Released(p, e) && start >= cas && (activated ==> start >= act + p.tRAS)
    case (Refreshed(_, _), Refreshed(_, _)) => true
  }

  /** Number `j` activated the row that bank `b` has open, and nothing has closed it since. */
  ghost predicate OpenedBy(log: seq<Entry>, b: nat, row: nat, j: nat) {
    && j < |log| && log[j].Access? && log[j].bank == b && log[j].activated && log[j].row == row
    && forall k :: j < k < |log| ==> log[k].Access? && (log[k].bank == b ==> !log[k].activated && log[k].row == row)
  }

  /** What one command needs by itself: a column access comes tRCD after the activation of its row. */
  ghost predicate Sound(p: Params, log: seq<Entry>, e: Entry) {
    match e
    case Access(b, row, _, activated, _, act, cas, end) =>
      && end == cas + p.tCL + p.tBL
      && (activated ==> cas >= act + p.tRCD)
      && (!activated ==> exists j: nat :: OpenedBy(log, b, row, j) && cas >= log[j].act + p.tRCD)
    case Refreshed(start, done) => done == start + p.tRFC
  }

  /** The activations of a rank, in the order of issue. */
  function Acts(p: Params, log: seq<Entry>, rank: nat): seq<nat> {
    if log == [] then []
    else var e := log[|log| - 1];
         Acts(p, log[..|log| - 1], rank) +
         (if e.Access? && e.activated && e.bank < |p.rankOf| && p.rankOf[e.bank] == rank then [e.act] else [])
  }

  /** All timing constraints hold between the commands of a run. */
  ghost predicate LogOk(p: Params, log: seq<Entry>) {
    && (forall j :: 0 <= j < |log| && log[j].Access? ==> log[j].bank < |p.rankOf|)
    && (forall i, j :: 0 <= i < j < |log| ==> Compatible(p, log[i], log[j]))
    && (forall j :: 0 <= j < |log| ==> Sound(p, log[..j], log[j]))
  }

  // ----- how the registers sum up the run -----

  /** An earlier command as seen from the registers of bank `b`. */
  ghost predicate Noted(p: Params, e: Entry, b: nat, bank: BankRegs) {
    match e
    case Access(eb, _, _, activated, _, act, cas, _) =>
      eb == b ==>
        && bank.lastCmdCycle >= cas && bank.minPreCycle >= Released(p, e)
        && (activated ==> bank.lastActCycle >= act && bank.minPreCycle >= act + p.tRAS)
    case Refreshed(_, done) =>
      bank.minPreCycle + p.tRP >= done && (bank.open ==> bank.lastActCycle >= done)
  }

  /** An earlier command as seen from the data bus. */
  ghost predicate Passed(p: Params, e: Entry, minResp: nat, lastWrite: bool) {
    e.Access? ==> e.end <= minResp && (e.write && !lastWrite ==> minResp >= e.end + p.tWTR + p.tCL)
  }

  /** An open row has been activated, and its first access was tRCD later. */
  ghost predicate RegsOk(p: Params, bank: BankRegs) {
    bank.minPreCycle >= bank.lastCmdCycle && (bank.open ==> bank.lastCmdCycle >= bank.lastActCycle + p.tRCD)
  }

  ghost predicate RowOk(log: seq<Entry>, b: nat, bank: BankRegs) {
    bank.open ==> exists j: nat :: OpenedBy(log, b, bank.openRow, j) && bank.lastActCycle == log[j].act
  }

  ghost predicate Windows(p: Params, log: seq<Entry>, windows: seq<seq<nat>>) {
    forall k :: 0 <= k < |windows| ==> WindowOk(p, log, k, windows[k])
  }

  ghost predicate AllNoted(p: Params, banks: seq<BankRegs>, log: seq<Entry>) {
    forall i, b :: 0 <= i < |log| && 0 <= b < |banks| ==> Noted(p, log[i], b, banks[b])
  }

  ghost predicate AllPassed(p: Params, minResp: nat, lastWrite: bool, log: seq<Entry>) {
    forall i :: 0 <= i < |log| ==> Passed(p, log[i], minResp, lastWrite)
  }

  ghost predicate AllRegs(p: Params, banks: seq<BankRegs>, log: seq<Entry>) {
    forall b :: 0 <= b < |banks| ==> RegsOk(p, banks[b]) && RowOk(log, b, banks[b])
  }

  ghost predicate Inv(p: Params, d: Dram, log: seq<Entry>) {
    && Shape(p, d)
    && AllNoted(p, d.banks, log) && AllPassed(p, d.minRespCycle, d.lastCmdWasWrite, log) && AllRegs(p, d.banks, log)
    && Windows(p, log, d.windows)
    && LogOk(p, log)
  }

  /** A request whose time has come: the guards under which it is chosen. */
  predicate Ready(p: Params, d: Dram, r: Request, cur: nat)
    requires Shape(p, d)
  {
    r.bank < |d.banks| && MinCmd(p, d, r) <= cur && d.minRespCycle <= cur + p.tCL
  }

  /** The command goes out at once, unless the bus has to turn round from writing to reading. */
  lemma CommandAtOnce(p: Params, d: Dram, r: Request, cur: nat)
    requires Shape(p, d) && Ready(p, d, r, cur)
    ensures EntryOf(p, d, r, cur).cas ==
            if d.lastCmdWasWrite && !r.write then Max(cur, d.minRespCycle + p.tWTR) else cur
  {
  }

  // ----- no command is later than it has to be -----

  /** Precharge, activation and column command of an access come at the first cycles that arrival, bank, rank and data
      bus allow. */
  lemma EarliestCommands(p: Params, d: Dram, r: Request, cur: nat, c: nat)
    requires Shape(p, d) && r.bank < |d.banks|
    ensures var e, bank, oldest := EntryOf(p, d, r, cur), d.banks[r.bank], d.windows[p.rankOf[r.bank]][0];
            && (e.activated <==> !(bank.open && bank.openRow == r.row))
            && (c >= e.pre <==> c >= bank.minPreCycle && (bank.open ==> c >= r.arrivalCycle))
            && (c >= e.act <==> c >= r.arrivalCycle && c >= e.pre + p.tRP && c >= bank.lastActCycle + p.tRRD
                                && c >= oldest + p.tFAW)
            && (c >= e.cas <==> c >= cur && c + p.tCL >= d.minRespCycle && (e.activated ==> c >= e.act + p.tRCD)
                                && (d.lastCmdWasWrite && !r.write ==> c >= d.minRespCycle + p.tWTR))
            && e.end == e.cas + p.tCL + p.tBL
  {
  }

  /** A request is ready as soon as bank and rank allow its column command. */
  lemma EarliestReady(p: Params, d: Dram, r: Request, cur: nat, c: nat)
    requires Shape(p, d) && r.bank < |d.banks|
    ensures var e, bank := EntryOf(p, d, r, cur), d.banks[r.bank];
            c >= MinCmd(p, d, r) <==>
            if e.activated then c >= e.act + p.tRCD else c >= r.arrivalCycle && c > bank.lastCmdCycle
  {
    EarliestCommands(p, d, r, cur, c);
  }

  /** The registers after an access: the row can be precharged as soon as its activation, the column command and what
      was known before allow. */
  lemma RegistersAfter(p: Params, d: Dram, r: Request, cur: nat, nextHit: bool, c: nat)
    requires Shape(p, d) && r.bank < |d.banks|
    ensures var e, d', bank := EntryOf(p, d, r, cur), Issue(p, d, r, cur, nextHit), d.banks[r.bank];
            var bank' := d'.banks[r.bank];
            && d'.banks == d.banks[r.bank := bank'] && d'.minRespCycle == e.end && d'.lastCmdWasWrite == r.write
            && bank'.lastCmdCycle == e.cas && bank'.lastActCycle == (if e.activated then e.act else bank.lastActCycle)
            && bank'.openRow == r.row && bank'.curRowHits == r.rowHitSeq && (bank'.open <==> !p.closedPage || nextHit)
            && (c >= bank'.minPreCycle <==>
                && c >= bank.minPreCycle && c >= bank'.lastActCycle + p.tRAS
                && (e.activated && bank.open ==> c >= e.pre + p.tRAS)
                && c >= if r.write then e.end + p.tWR else e.cas + p.tRTP)
  {
  }

  /** A refresh starts as soon as it is due and every bank has come to rest; rows can be activated when it is done. */
  lemma {:induction false} EarliestRefresh(p: Params, d: Dram, cycle: nat, c: nat)
    requires Shape(p, d)
    ensures c >= RefreshStart(d, cycle) <==>
            c >= cycle && forall b :: 0 <= b < |d.banks| ==> c >= d.banks[b].minPreCycle && c >= d.banks[b].lastCmdCycle
    ensures forall b :: 0 <= b < |d.banks| ==>
              var bank := Refresh(p, d, cycle).banks[b];
              !bank.open && bank.minPreCycle + p.tRP == RefreshStart(d, cycle) + p.tRFC
  {
    BusyIs(d.banks, c);
  }

  lemma {:induction false} BusyIs(banks: seq<BankRegs>, c: nat)
    ensures c >= BusyUntil(banks) <==>
            forall b :: 0 <= b < |banks| ==> c >= banks[b].minPreCycle && c >= banks[b].lastCmdCycle
  {
    if banks != [] {
      BusyIs(banks[..|banks| - 1], c);
      assert banks[|banks| - 1] in banks;
    }
  }

  // ----- one more access -----

  /** The data come after the command. */
  lemma RespLater(p: Params, d: Dram, r: Request, cur: nat, nextHit: bool)
    requires Shape(p, d) && r.bank < |d.banks|
    ensures Issue(p, d, r, cur, nextHit).minRespCycle >= cur + p.tCL + p.tBL
  {
  }

  lemma AccessCompatible(p: Params, d: Dram, e: Entry, r: Request, cur: nat)
    requires Shape(p, d) && Ready(p, d, r, cur) && RegsOk(p, d.banks[r.bank])
    requires Noted(p, e, r.bank, d.banks[r.bank]) && Passed(p, e, d.minRespCycle, d.lastCmdWasWrite)
    ensures Compatible(p, e, EntryOf(p, d, r, cur))
  {
  }

  /** The new access is noted, and so are all earlier ones. */
  lemma AccessNoted(p: Params, d: Dram, e: Entry, r: Request, cur: nat, nextHit: bool, b: nat)
    requires Shape(p, d) && Ready(p, d, r, cur) && b < |d.banks| && RegsOk(p, d.banks[r.bank])
    requires e == EntryOf(p, d, r, cur) || Noted(p, e, b, d.banks[b])
    ensures Noted(p, e, b, Issue(p, d, r, cur, nextHit).banks[b])
  {
    if b == r.bank {
      var bank, oldest := d.banks[b], Oldest(p, d, b);
      var cmd := CmdCycle(p, d, bank, oldest, r, cur);
      if e == EntryOf(p, d, r, cur) {
        NewNoted(p, bank, oldest, r, cmd, nextHit);
      } else {
        StillNoted(p, bank, oldest, r, cmd, nextHit, e);
      }
    }
  }

  lemma NewNoted(p: Params, bank: BankRegs, oldest: nat, r: Request, cmd: nat, nextHit: bool)
    ensures var e := Access(r.bank, r.row, r.write, !Hit(bank, r), PreCycle(bank, r), ActCycle(p, bank, oldest, r), cmd,
                            cmd + p.tCL + p.tBL);
            Noted(p, e, r.bank, RegsAfter(p, bank, oldest, r, cmd, nextHit))
  {
  }

  lemma StillNoted(p: Params, bank: BankRegs, oldest: nat, r: Request, cmd: nat, nextHit: bool, e: Entry)
    requires Noted(p, e, r.bank, bank) && cmd >= bank.lastCmdCycle
    ensures Noted(p, e, r.bank, RegsAfter(p, bank, oldest, r, cmd, nextHit))
  {
  }

  lemma AccessRegs(p: Params, d: Dram, r: Request, cur: nat, nextHit: bool)
    requires Shape(p, d) && Ready(p, d, r, cur) && RegsOk(p, d.banks[r.bank])
    ensures RegsOk(p, Issue(p, d, r, cur, nextHit).banks[r.bank])
    ensures EntryOf(p, d, r, cur).cas > d.banks[r.bank].lastCmdCycle
  {
  }

  lemma CommandLater(p: Params, d: Dram, r: Request, cur: nat)
    requires Shape(p, d) && Ready(p, d, r, cur) && RegsOk(p, d.banks[r.bank])
    ensures CmdCycle(p, d, d.banks[r.bank], Oldest(p, d, r.bank), r, cur) > d.banks[r.bank].lastCmdCycle
  {
    AccessRegs(p, d, r, cur, false);
  }

  lemma AccessPassed(p: Params, d: Dram, e: Entry, r: Request, cur: nat, nextHit: bool)
    requires Shape(p, d) && Ready(p, d, r, cur)
    requires e == EntryOf(p, d, r, cur) || Passed(p, e, d.minRespCycle, d.lastCmdWasWrite)
    ensures Passed(p, e, Issue(p, d, r, cur, nextHit).minRespCycle, r.write)
  {
  }

  lemma OpenedExtends(log: seq<Entry>, f: Entry, b: nat, row: nat, j: nat)
    requires OpenedBy(log, b, row, j)
    requires f.Access? && (f.bank == b ==> !f.activated && f.row == row)
    ensures OpenedBy(log + [f], b, row, j)
  {
  }

  lemma AccessRowOk(p: Params, d: Dram, log: seq<Entry>, r: Request, cur: nat, nextHit: bool, b: nat)
    requires Shape(p, d) && r.bank < |d.banks| && b < |d.banks| && RowOk(log, b, d.banks[b])
    ensures RowOk(log + [EntryOf(p, d, r, cur)], b, Issue(p, d, r, cur, nextHit).banks[b])
  {
    var f := EntryOf(p, d, r, cur);
    if b == r.bank && f.activated {
      assert OpenedBy(log + [f], b, r.row, |log|);
    } else if d.banks[b].open {
      var j: nat :| OpenedBy(log, b, d.banks[b].openRow, j) && d.banks[b].lastActCycle == log[j].act;
      OpenedExtends(log, f, b, d.banks[b].openRow, j);
      assert (log + [f])[j] == log[j];
    }
  }

  lemma AccessSound(p: Params, d: Dram, log: seq<Entry>, r: Request, cur: nat)
    requires Shape(p, d) && Ready(p, d, r, cur)
    requires RegsOk(p, d.banks[r.bank]) && RowOk(log, r.bank, d.banks[r.bank])
    ensures Sound(p, log, EntryOf(p, d, r, cur))
  {
    var bank := d.banks[r.bank];
    if Hit(bank, r) {
      var j: nat :| OpenedBy(log, r.bank, bank.openRow, j) && bank.lastActCycle == log[j].act;
      AccessRegs(p, d, r, cur, false);
    }
  }

  lemma ActsSnoc(p: Params, log: seq<Entry>, f: Entry, k: nat)
    ensures Acts(p, log + [f], k) == Acts(p, log, k) +
            (if f.Access? && f.activated && f.bank < |p.rankOf| && p.rankOf[f.bank] == k then [f.act] else [])
  {
    assert (log + [f])[..|log|] == log;
  }

  lemma WindowSnoc(acts: seq<nat>, c: nat, tFAW: nat)
    requires Spaced(WINDOW, acts, tFAW) && c >= WindowAfter(WINDOW, acts)[0] + tFAW
    ensures WindowAfter(WINDOW, acts + [c]) == Record(WindowAfter(WINDOW, acts), c)
    ensures Spaced(WINDOW, acts + [c], tFAW)
  {
    var more := acts + [c];
    assert more[..|acts|] == acts;
    forall i | 0 <= i < |more|
      ensures more[i] >= WindowAfter(WINDOW, more[..i])[0] + tFAW
    {
      assert i < |acts| ==> more[..i] == acts[..i];
    }
  }

  ghost predicate WindowOk(p: Params, log: seq<Entry>, k: nat, w: seq<nat>) {
    w == WindowAfter(WINDOW, Acts(p, log, k)) && Spaced(WINDOW, Acts(p, log, k), p.tFAW)
  }

  lemma AccessWindow(p: Params, log: seq<Entry>, f: Entry, k: nat, w: seq<nat>)
    requires WindowOk(p, log, k, w) && f.Access? && f.bank < |p.rankOf| && f.act >= w[0] + p.tFAW
    ensures WindowOk(p, log + [f], k, if f.activated && p.rankOf[f.bank] == k then Record(w, f.act) else w)
  {
    ActsSnoc(p, log, f, k);
    if f.activated && p.rankOf[f.bank] == k {
      WindowSnoc(Acts(p, log, k), f.act, p.tFAW);
    } else {
      assert Acts(p, log + [f], k) == Acts(p, log, k);
    }
  }

  lemma OtherWindow(p: Params, log: seq<Entry>, f: Entry, k: nat, w: seq<nat>)
    requires WindowOk(p, log, k, w)
    requires f.Access? ==> f.bank < |p.rankOf| && (p.rankOf[f.bank] != k || !f.activated)
    ensures WindowOk(p, log + [f], k, w)
  {
    ActsSnoc(p, log, f, k);
    assert Acts(p, log + [f], k) == Acts(p, log, k);
  }

  lemma AccessWindows(p: Params, d: Dram, log: seq<Entry>, r: Request, cur: nat, nextHit: bool)
    requires Shape(p, d) && r.bank < |d.banks| && Windows(p, log, d.windows)
    ensures Windows(p, log + [EntryOf(p, d, r, cur)], Issue(p, d, r, cur, nextHit).windows)
  {
    var f, d' := EntryOf(p, d, r, cur), Issue(p, d, r, cur, nextHit);
    forall k | 0 <= k < |d'.windows|
      ensures WindowOk(p, log + [f], k, d'.windows[k])
    {
      if p.rankOf[r.bank] == k {
        AccessWindow(p, log, f, k, d.windows[k]);
      } else {
        OtherWindow(p, log, f, k, d.windows[k]);
      }
    }
  }

  lemma LogSnoc(p: Params, log: seq<Entry>, f: Entry)
    requires LogOk(p, log) && Sound(p, log, f) && (f.Access? ==> f.bank < |p.rankOf|)
    requires forall i :: 0 <= i < |log| ==> Compatible(p, log[i], f)
    ensures LogOk(p, log + [f])
  {
    var more := log + [f];
    forall j | 0 <= j < |more|
      ensures Sound(p, more[..j], more[j])
    {
      assert more[..j] == if j < |log| then log[..j] else log;
    }
  }

  /** An access keeps every constraint. */
  lemma AccessKeeps(p: Params, d: Dram, log: seq<Entry>, r: Request, cur: nat, nextHit: bool, d': Dram)
    requires Inv(p, d, log) && Ready(p, d, r, cur) && d' == Issue(p, d, r, cur, nextHit)
    ensures Inv(p, d', log + [EntryOf(p, d, r, cur)])
  {
    var f := EntryOf(p, d, r, cur);
    var more := log + [f];
    AccessSound(p, d, log, r, cur);
    forall i | 0 <= i < |log|
      ensures Compatible(p, log[i], f)
    {
      AccessCompatible(p, d, log[i], r, cur);
    }
    LogSnoc(p, log, f);
    AccessWindows(p, d, log, r, cur, nextHit);
    AccessNotes(p, d, log, r, cur, nextHit);
  }

  /** What the registers of one bank are known to satisfy. */
  lemma Known(p: Params, d: Dram, log: seq<Entry>, b: nat)
    requires Inv(p, d, log) && b < |d.banks|
    ensures RegsOk(p, d.banks[b])
  {
  }

  lemma AccessNotes(p: Params, d: Dram, log: seq<Entry>, r: Request, cur: nat, nextHit: bool)
    requires Inv(p, d, log) && Ready(p, d, r, cur)
    ensures var f, d' := EntryOf(p, d, r, cur), Issue(p, d, r, cur, nextHit);
            var more := log + [f];
            && AllNoted(p, d'.banks, more) && AllPassed(p, d'.minRespCycle, d'.lastCmdWasWrite, more)
            && AllRegs(p, d'.banks, more)
  {
    var f, d' := EntryOf(p, d, r, cur), Issue(p, d, r, cur, nextHit);
    var more := log + [f];
    forall i, b | 0 <= i < |more| && 0 <= b < |d'.banks|
      ensures Noted(p, more[i], b, d'.banks[b])
    {
      AccessNoted(p, d, more[i], r, cur, nextHit, b);
    }
    forall i | 0 <= i < |more|
      ensures Passed(p, more[i], d'.minRespCycle, d'.lastCmdWasWrite)
    {
      AccessPassed(p, d, more[i], r, cur, nextHit);
    }
    forall b | 0 <= b < |d'.banks|
      ensures RegsOk(p, d'.banks[b]) && RowOk(more, b, d'.banks[b])
    {
      AccessRowOk(p, d, log, r, cur, nextHit, b);
      AccessRegs(p, d, r, cur, nextHit);
    }
  }

  // ----- one more refresh -----

  lemma RefreshCompatible(p: Params, d: Dram, e: Entry, cycle: nat)
    requires Shape(p, d) && (e.Access? ==> e.bank < |d.banks| && Noted(p, e, e.bank, d.banks[e.bank]))
    ensures Compatible(p, e, RefreshEntry(p, d, cycle))
  {
  }

  lemma RefreshNotes(p: Params, d: Dram, e: Entry, cycle: nat, b: nat)
    requires Shape(p, d) && b < |d.banks| && RegsOk(p, d.banks[b])
    requires e == RefreshEntry(p, d, cycle) || Noted(p, e, b, d.banks[b])
    ensures Noted(p, e, b, Refresh(p, d, cycle).banks[b]) && RegsOk(p, Refresh(p, d, cycle).banks[b])
  {
  }

  lemma RefreshWindows(p: Params, log: seq<Entry>, f: Entry, windows: seq<seq<nat>>)
    requires Windows(p, log, windows) && f.Refreshed?
    ensures Windows(p, log + [f], windows)
  {
    forall k | 0 <= k < |windows|
      ensures WindowOk(p, log + [f], k, windows[k])
    {
      OtherWindow(p, log, f, k, windows[k]);
    }
  }

  lemma RefreshSums(p: Params, d: Dram, log: seq<Entry>, cycle: nat)
    requires Shape(p, d) && AllNoted(p, d.banks, log) && AllRegs(p, d.banks, log)
    ensures var more := log + [RefreshEntry(p, d, cycle)];
            AllNoted(p, Refresh(p, d, cycle).banks, more) && AllRegs(p, Refresh(p, d, cycle).banks, more)
  {
    var f, d' := RefreshEntry(p, d, cycle), Refresh(p, d, cycle);
    var more := log + [f];
    forall i, b | 0 <= i < |more| && 0 <= b < |d'.banks|
      ensures Noted(p, more[i], b, d'.banks[b])
    {
      RefreshNotes(p, d, more[i], cycle, b);
    }
    forall b | 0 <= b < |d'.banks|
      ensures RegsOk(p, d'.banks[b]) && RowOk(more, b, d'.banks[b])
    {
      RefreshNotes(p, d, f, cycle, b);
    }
  }

  function RefreshEntry(p: Params, d: Dram, cycle: nat): (f: Entry)
    ensures f.Refreshed?
  {
    Refreshed(RefreshStart(d, cycle), RefreshStart(d, cycle) + p.tRFC)
  }

  lemma RefreshLog(p: Params, d: Dram, log: seq<Entry>, cycle: nat)
    requires Shape(p, d) && AllNoted(p, d.banks, log) && LogOk(p, log)
    ensures LogOk(p, log + [RefreshEntry(p, d, cycle)])
  {
    var f := RefreshEntry(p, d, cycle);
    forall i | 0 <= i < |log|
      ensures Compatible(p, log[i], f)
    {
      RefreshCompatible(p, d, log[i], cycle);
    }
    LogSnoc(p, log, f);
  }

  /** A refresh keeps every constraint. */
  lemma RefreshKeeps(p: Params, d: Dram, log: seq<Entry>, cycle: nat, d': Dram)
    requires Inv(p, d, log) && d' == Refresh(p, d, cycle)
    ensures Inv(p, d', log + [RefreshEntry(p, d, cycle)])
  {
    RefreshLog(p, d, log, cycle);
    RefreshWindows(p, log, RefreshEntry(p, d, cycle), d.windows);
    RefreshSums(p, d, log, cycle);
  }

  // ----- every run -----

  /** A ready request is issued, or a refresh comes. */
  datatype Op = Serve(r: Request, cur: nat, nextHit: bool) | Refreshing(cycle: nat)

  function StepDram(p: Params, d: Dram, op: Op): (d': Dram)
    requires Shape(p, d)
    ensures Shape(p, d')
  {
    match op
    case Serve(r, cur, nextHit) => if Ready(p, d, r, cur) then Issue(p, d, r, cur, nextHit) else d
    case Refreshing(cycle) => Refresh(p, d, cycle)
  }

  function StepLog(p: Params, d: Dram, log: seq<Entry>, op: Op): seq<Entry>
    requires Shape(p, d)
  {
    match op
    case Serve(r, cur, _) => if Ready(p, d, r, cur) then log + [EntryOf(p, d, r, cur)] else log
    case Refreshing(cycle) => log + [RefreshEntry(p, d, cycle)]
  }

  function DramAfter(p: Params, ops: seq<Op>): (d: Dram)
    requires ParamsOk(p)
    ensures Shape(p, d)
  {
    if ops == [] then Fresh(p) else StepDram(p, DramAfter(p, ops[..|ops| - 1]), ops[|ops| - 1])
  }

  function LogOf(p: Params, ops: seq<Op>): seq<Entry>
    requires ParamsOk(p)
  {
    if ops == [] then []
    else StepLog(p, DramAfter(p, ops[..|ops| - 1]), LogOf(p, ops[..|ops| - 1]), ops[|ops| - 1])
  }

  lemma FreshInv(p: Params)
    requires ParamsOk(p)
    ensures Inv(p, Fresh(p), [])
  {
  }

  lemma ServeKeeps(p: Params, d: Dram, log: seq<Entry>, op: Op)
    requires Inv(p, d, log) && op.Serve? && Ready(p, d, op.r, op.cur)
    ensures Inv(p, StepDram(p, d, op), StepLog(p, d, log, op))
  {
    AccessKeeps(p, d, log, op.r, op.cur, op.nextHit, StepDram(p, d, op));
    assert StepDram(p, d, op) == Issue(p, d, op.r, op.cur, op.nextHit);
    assert StepLog(p, d, log, op) == log + [EntryOf(p, d, op.r, op.cur)];
  }

  lemma RefreshingKeeps(p: Params, d: Dram, log: seq<Entry>, op: Op)
    requires Inv(p, d, log) && op.Refreshing?
    ensures Inv(p, StepDram(p, d, op), StepLog(p, d, log, op))
  {
    RefreshKeeps(p, d, log, op.cycle, StepDram(p, d, op));
    assert StepDram(p, d, op) == Refresh(p, d, op.cycle);
    assert StepLog(p, d, log, op) == log + [RefreshEntry(p, d, op.cycle)];
  }

  lemma StepKeeps(p: Params, d: Dram, log: seq<Entry>, op: Op)
    requires Inv(p, d, log)
    ensures Inv(p, StepDram(p, d, op), StepLog(p, d, log, op))
  {
    if op.Refreshing? {
      RefreshingKeeps(p, d, log, op);
    } else if Ready(p, d, op.r, op.cur) {
      ServeKeeps(p, d, log, op);
    } else {
      assert StepDram(p, d, op) == d && StepLog(p, d, log, op) == log;
    }
  }

  lemma {:induction false} RunInv(p: Params, ops: seq<Op>)
    requires ParamsOk(p)
    ensures Inv(p, DramAfter(p, ops), LogOf(p, ops))
  {
    if ops == [] {
      FreshInv(p);
    } else {
      RunInv(p, ops[..|ops| - 1]);
      StepKeeps(p, DramAfter(p, ops[..|ops| - 1]), LogOf(p, ops[..|ops| - 1]), ops[|ops| - 1]);
    }
  }

  /** Whatever requests and refreshes come, all commands keep the timing constraints, and no rank sees more than four
      activations in tFAW cycles. */
  lemma TimingHolds(p: Params, ops: seq<Op>)
    requires ParamsOk(p)
    ensures LogOk(p, LogOf(p, ops))
    ensures forall k: nat, x: nat :: k < p.ranks ==> |During(Acts(p, LogOf(p, ops), k), x, p.tFAW)| <= WINDOW
  {
    RunInv(p, ops);
    var log := LogOf(p, ops);
    forall k: nat, x: nat | k < p.ranks
      ensures |During(Acts(p, log, k), x, p.tFAW)| <= WINDOW
    {
      assert WindowOk(p, log, k, DramAfter(p, ops).windows[k]);
      FawHolds(WINDOW, Acts(p, log, k), p.tFAW, x);
    }
  }
}
