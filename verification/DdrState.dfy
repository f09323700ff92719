/** What the memory controller keeps between its operations: the request queues and the bank lists hold the same
    requests, every request is answered once, and one scheduling event is pending just when requests are queued. */
module DdrState {
  import Arith
  import opened DdrQueue
  import opened DdrCycles
  import opened Wrappers

  // ----- queues and bank lists -----

  /** The requests of a queue in the order of arrival, and of every bank in the order of service. */
  ghost predicate Distinct(q: seq<Request>) {
    forall i, j :: 0 <= i < j < |q| ==> q[i].id != q[j].id
  }

  ghost predicate Listed(queue: seq<Request>, lists: seq<seq<Request>>) {
    forall i :: 0 <= i < |queue| ==> queue[i].bank < |lists| && queue[i] in lists[queue[i].bank]
  }

  ghost predicate Queued(queue: seq<Request>, list: seq<Request>, b: nat) {
    Distinct(list) && forall k :: 0 <= k < |list| ==> list[k] in queue && list[k].bank == b
  }

  ghost predicate QInv(queue: seq<Request>, lists: seq<seq<Request>>, limit: nat) {
    && Distinct(queue) && Listed(queue, lists)
    && (forall b :: 0 <= b < |lists| ==> Queued(queue, lists[b], b) && ListOk(lists[b], limit))
  }

  /** The request is the first of its bank's list. */
  predicate IsHead(lists: seq<seq<Request>>, r: Request) {
    r.bank < |lists| && |lists[r.bank]| > 0 && lists[r.bank][0] == r
  }

  /** If any request is queued, some request is the first of its bank. */
  lemma HeadExists(queue: seq<Request>, lists: seq<seq<Request>>, limit: nat) returns (i: nat)
    requires QInv(queue, lists, limit) && queue != []
    ensures i < |queue| && IsHead(lists, queue[i])
  {
    var b := queue[0].bank;
    assert lists[b][0] in queue;
    i :| 0 <= i < |queue| && queue[i] == lists[b][0];
  }

  /** What Insert puts into the list. */
  lemma InsertMembers(q: seq<Request>, r: Request, limit: nat, openRow: bool, hits: nat) returns (s: Request)
    requires Distinct(q) && forall i :: 0 <= i < |q| ==> q[i].id != r.id
    ensures s == r.(rowHitSeq := s.rowHitSeq)
    ensures var q' := Insert(q, r, limit, openRow, hits);
            Distinct(q') && (forall x :: x in q' <==> x in q || x == s)
  {
    var m := LastSame(q, r.row);
    var k := if m >= 0 && q[m].rowHitSeq < limit then m + 1 else |q|;
    var q' := Insert(q, r, limit, openRow, hits);
    s := q'[k];
    assert q' == q[..k] + [s] + q[k..];
    InsertedMembers(q, s, k);
  }

  lemma InsertedMembers(q: seq<Request>, s: Request, k: nat)
    requires k <= |q| && Distinct(q) && forall i :: 0 <= i < |q| ==> q[i].id != s.id
    ensures var q' := q[..k] + [s] + q[k..]; Distinct(q') && forall x :: x in q' <==> x in q || x == s
  {
    var q' := q[..k] + [s] + q[k..];
    forall x | x in q
      ensures x in q'
    {
      var i :| 0 <= i < |q| && q[i] == x;
      assert q'[if i < k then i else i + 1] == x;
    }
    assert q'[k] == s;
  }

  lemma AddKeeps(queue: seq<Request>, lists: seq<seq<Request>>, s: Request, list: seq<Request>, limit: nat)
    requires QInv(queue, lists, limit) && s.bank < |lists|
    requires forall i :: 0 <= i < |queue| ==> queue[i].id != s.id
    requires Distinct(list) && ListOk(list, limit) && forall x :: x in list <==> x in lists[s.bank] || x == s
    ensures QInv(queue + [s], lists[s.bank := list], limit)
  {
    var q', l' := queue + [s], lists[s.bank := list];
    assert q'[|queue|] == s;
    forall b | 0 <= b < |l'|
      ensures Queued(q', l'[b], b) && ListOk(l'[b], limit)
    {
      forall k | 0 <= k < |l'[b]|
        ensures l'[b][k] in q' && l'[b][k].bank == b
      {
        if b == s.bank && list[k] != s {
          assert list[k] in lists[b];
        }
      }
    }
  }

  /** Removing the first request of a bank's list. */
  lemma RemoveKeeps(queue: seq<Request>, lists: seq<seq<Request>>, i: nat, limit: nat)
    requires QInv(queue, lists, limit) && i < |queue| && IsHead(lists, queue[i])
    ensures var b := queue[i].bank; QInv(queue[..i] + queue[i + 1..], lists[b := lists[b][1..]], limit)
  {
    var r := queue[i];
    var q', l' := queue[..i] + queue[i + 1..], lists[r.bank := lists[r.bank][1..]];
    forall k | 0 <= k < |q'|
      ensures q'[k].bank < |l'| && q'[k] in l'[q'[k].bank]
    {
      StaysListed(queue, lists, i, if k < i then k else k + 1, limit);
    }
    forall b | 0 <= b < |l'|
      ensures Queued(q', l'[b], b) && ListOk(l'[b], limit)
    {
      StaysQueued(queue, lists, i, b, limit);
    }
  }

  lemma StaysListed(queue: seq<Request>, lists: seq<seq<Request>>, i: nat, k: nat, limit: nat)
    requires QInv(queue, lists, limit) && i < |queue| && IsHead(lists, queue[i]) && k < |queue| && k != i
    ensures queue[k].bank < |lists|
    ensures var b := queue[i].bank; queue[k] in lists[b := lists[b][1..]][queue[k].bank]
  {
    var b, x := queue[i].bank, queue[k];
    if x.bank == b {
      var n :| 0 <= n < |lists[b]| && lists[b][n] == x;
      assert n != 0;
      assert lists[b][1..][n - 1] == x;
    }
  }

  lemma StaysQueued(queue: seq<Request>, lists: seq<seq<Request>>, i: nat, b: nat, limit: nat)
    requires QInv(queue, lists, limit) && i < |queue| && IsHead(lists, queue[i]) && b < |lists|
    ensures var l' := lists[queue[i].bank := lists[queue[i].bank][1..]];
            Queued(queue[..i] + queue[i + 1..], l'[b], b) && ListOk(l'[b], limit)
  {
    var r := queue[i];
    var q', list := queue[..i] + queue[i + 1..], lists[r.bank := lists[r.bank][1..]][b];
    RestOk(lists[r.bank], limit);
    forall k | 0 <= k < |list|
      ensures list[k] in q' && list[k].bank == b
    {
      var x := list[k];
      assert x == lists[b][if b == r.bank then k + 1 else k];
      assert x in queue && x.id != r.id by {
        if b == r.bank {
          assert lists[b][0] == r && lists[b][k + 1] == x;
        } else {
          assert x.bank != r.bank;
        }
      }
      var n :| 0 <= n < |queue| && queue[n] == x;
      assert q'[if n < i then n else n - 1] == x;
    }
  }

  // ----- every request is answered once -----

  ghost function Ids(q: seq<Request>): set<nat> {
    set i | 0 <= i < |q| :: q[i].id
  }

  /** The requests that still have to be answered. */
  ghost function Owed(q: seq<Request>): set<nat> {
    set i | 0 <= i < |q| && q[i].ev :: q[i].id
  }

  lemma AppendIds(q: seq<Request>, s: Request)
    ensures Ids(q + [s]) == Ids(q) + {s.id}
    ensures Owed(q + [s]) == if s.ev then Owed(q) + {s.id} else Owed(q)
  {
    var q' := q + [s];
    assert q'[|q|] == s;
    assert forall i :: 0 <= i < |q| ==> q'[i] == q[i];
  }

  lemma RemoveIds(q: seq<Request>, k: nat)
    requires Distinct(q) && k < |q|
    ensures var q' := q[..k] + q[k + 1..];
            Distinct(q') && Ids(q') == Ids(q) - {q[k].id} && Owed(q') == Owed(q) - {q[k].id}
  {
    var q' := q[..k] + q[k + 1..];
    forall i | 0 <= i < |q| && i != k
      ensures q[i].id in Ids(q') && (q[i].ev ==> q[i].id in Owed(q'))
    {
      assert q'[if i < k then i else i - 1] == q[i];
    }
    forall i | 0 <= i < |q'|
      ensures q'[i].id in Ids(q) - {q[k].id} && (q'[i].ev ==> q'[i].id in Owed(q) - {q[k].id})
    {
      assert q'[i] == q[if i < k then i else i + 1];
    }
  }

  /** The requests numbered so far are those answered and those owed an answer, and nothing is counted twice. */
  ghost predicate Booked(issued: nat, answered: set<nat>, rd: seq<Request>, wr: seq<Request>, ovf: seq<Request>) {
    && Distinct(rd) && Distinct(wr) && Distinct(ovf)
    && Ids(rd) !! Ids(wr) && Ids(rd) !! Ids(ovf) && Ids(wr) !! Ids(ovf)
    && (forall id :: id in Ids(rd) || id in Ids(wr) || id in Ids(ovf) ==> id < issued)
    && answered !! Owed(rd) && answered !! Owed(wr) && answered !! Owed(ovf)
    && (forall id: nat :: id in answered || id in Owed(rd) || id in Owed(wr) || id in Owed(ovf) <==> id < issued)
  }

  predicate RdKind(r: Request, deferred: bool) {
    r.ev == !r.write && (deferred ==> !r.write)
  }

  predicate WrKind(r: Request, deferred: bool) {
    r.write && !r.ev && deferred
  }

  /** Queued writes have been answered, queued reads have not; nothing in the overflow queue has. */
  ghost predicate Kinds(rd: seq<Request>, wr: seq<Request>, ovf: seq<Request>, deferred: bool) {
    && (forall i :: 0 <= i < |rd| ==> RdKind(rd[i], deferred))
    && (forall i :: 0 <= i < |wr| ==> WrKind(wr[i], deferred))
    && (forall i :: 0 <= i < |ovf| ==> ovf[i].ev)
  }

  lemma NewId(q: seq<Request>, r: Request)
    requires Distinct(q) && r.id !in Ids(q)
    ensures Distinct(q + [r]) && forall i :: 0 <= i < |q| ==> q[i].id != r.id
  {
    forall i | 0 <= i < |q|
      ensures q[i].id != r.id
    {
      assert q[i].id in Ids(q);
    }
  }

  lemma OwedKnown(q: seq<Request>)
    ensures Owed(q) <= Ids(q)
  {
  }

  /** A new request waits in the overflow queue. */
  lemma BookOverflow(issued: nat, answered: set<nat>, rd: seq<Request>, wr: seq<Request>, ovf: seq<Request>, r: Request)
    requires Booked(issued, answered, rd, wr, ovf) && r.id == issued && r.ev
    ensures Booked(issued + 1, answered, rd, wr, ovf + [r])
  {
    AppendIds(ovf, r);
    NewId(ovf, r);
    OwedKnown(rd);
    OwedKnown(wr);
  }

  /** A request that is in no queue goes into the read queue; the rest is as before or one request longer. */
  lemma BookRead(issued: nat, answered: set<nat>, rd: seq<Request>, wr: seq<Request>, ovf: seq<Request>, s: Request)
    requires Booked(issued, answered, rd, wr, ovf) && s.id == issued
    ensures Booked(issued + 1, if s.ev then answered else answered + {s.id}, rd + [s], wr, ovf)
  {
    AppendIds(rd, s);
    NewId(rd, s);
    OwedKnown(wr);
    OwedKnown(ovf);
  }

  lemma BookWrite(issued: nat, answered: set<nat>, rd: seq<Request>, wr: seq<Request>, ovf: seq<Request>, s: Request)
    requires Booked(issued, answered, rd, wr, ovf) && s.id == issued
    ensures Booked(issued + 1, if s.ev then answered else answered + {s.id}, rd, wr + [s], ovf)
  {
    AppendIds(wr, s);
    NewId(wr, s);
    OwedKnown(rd);
    OwedKnown(ovf);
  }

  /** The first request of the overflow queue moves on. */
  lemma BookMoveRead(issued: nat, answered: set<nat>, rd: seq<Request>, wr: seq<Request>, ovf: seq<Request>, s: Request)
    requires Booked(issued, answered, rd, wr, ovf) && ovf != [] && s.id == ovf[0].id && ovf[0].ev
    ensures Booked(issued, if s.ev then answered else answered + {s.id}, rd + [s], wr, ovf[1..])
  {
    FirstMoves(ovf);
    AppendIds(rd, s);
    NewId(rd, s);
    OwedKnown(wr);
    OwedKnown(ovf);
  }

  lemma BookMoveWrite(issued: nat, answered: set<nat>, rd: seq<Request>, wr: seq<Request>, ovf: seq<Request>,
                      s: Request)
    requires Booked(issued, answered, rd, wr, ovf) && ovf != [] && s.id == ovf[0].id && ovf[0].ev
    ensures Booked(issued, if s.ev then answered else answered + {s.id}, rd, wr + [s], ovf[1..])
  {
    FirstMoves(ovf);
    AppendIds(wr, s);
    NewId(wr, s);
    OwedKnown(rd);
    OwedKnown(ovf);
  }

  lemma FirstMoves(ovf: seq<Request>)
    requires Distinct(ovf) && ovf != []
    ensures Distinct(ovf[1..]) && Ids(ovf[1..]) == Ids(ovf) - {ovf[0].id} && Owed(ovf[1..]) == Owed(ovf) - {ovf[0].id}
    ensures ovf[0].id in Ids(ovf) && (ovf[0].ev ==> ovf[0].id in Owed(ovf))
  {
    RemoveIds(ovf, 0);
    assert ovf[..0] + ovf[1..] == ovf[1..];
  }

  /** A served request leaves its queue, answered. */
  lemma BookServeRead(issued: nat, answered: set<nat>, rd: seq<Request>, wr: seq<Request>, ovf: seq<Request>, k: nat)
    requires Booked(issued, answered, rd, wr, ovf) && k < |rd|
    ensures rd[k].ev ==> rd[k].id !in answered
    ensures Booked(issued, if rd[k].ev then answered + {rd[k].id} else answered, rd[..k] + rd[k + 1..], wr, ovf)
  {
    RemoveIds(rd, k);
    assert rd[k].id in Ids(rd) && (rd[k].ev ==> rd[k].id in Owed(rd));
    OwedKnown(wr);
    OwedKnown(ovf);
    NotOwed(rd, k);
  }

  lemma BookServeWrite(issued: nat, answered: set<nat>, rd: seq<Request>, wr: seq<Request>, ovf: seq<Request>, k: nat)
    requires Booked(issued, answered, rd, wr, ovf) && k < |wr|
    ensures wr[k].ev ==> wr[k].id !in answered
    ensures Booked(issued, if wr[k].ev then answered + {wr[k].id} else answered, rd, wr[..k] + wr[k + 1..], ovf)
  {
    RemoveIds(wr, k);
    assert wr[k].id in Ids(wr) && (wr[k].ev ==> wr[k].id in Owed(wr));
    OwedKnown(rd);
    OwedKnown(ovf);
    NotOwed(wr, k);
  }

  lemma NotOwed(q: seq<Request>, k: nat)
    requires Distinct(q) && k < |q|
    ensures !q[k].ev ==> q[k].id !in Owed(q)
  {
  }

  // ----- all requests together -----

  datatype Setup = Setup(banks: nat, depth: nat, limit: nat, deferred: bool)

  /** The queues in order of arrival, the lists of every bank, how many requests have come and which were answered. */
  datatype Pending = Pending(rd: seq<Request>, wr: seq<Request>, ovf: seq<Request>, rdLists: seq<seq<Request>>,
                             wrLists: seq<seq<Request>>, issued: nat, answered: set<nat>)

  ghost predicate PendingOk(x: Pending, st: Setup) {
    && |x.rdLists| == |x.wrLists| == st.banks
    && QInv(x.rd, x.rdLists, st.limit) && QInv(x.wr, x.wrLists, st.limit)
    && |x.rd| <= st.depth && |x.wr| <= st.depth
    && Booked(x.issued, x.answered, x.rd, x.wr, x.ovf)
    && Kinds(x.rd, x.wr, x.ovf, st.deferred)
    && (forall i :: 0 <= i < |x.ovf| ==> x.ovf[i].bank < st.banks)
  }

  function QueueOf(x: Pending, isWrite: bool): seq<Request> {
    if isWrite then x.wr else x.rd
  }

  function ListsOf(x: Pending, isWrite: bool): seq<seq<Request>> {
    if isWrite then x.wrLists else x.rdLists
  }

  ghost predicate Heads(x: Pending, isWrite: bool, i: nat) {
    i < |QueueOf(x, isWrite)| && IsHead(ListsOf(x, isWrite), QueueOf(x, isWrite)[i])
  }

  /** A request leaves its queue and its list. */
  ghost function Dequeued(x: Pending, isWrite: bool, i: nat): Pending
    requires Heads(x, isWrite, i)
  {
    if isWrite then
      x.(wr := x.wr[..i] + x.wr[i + 1..], wrLists := x.wrLists[x.wr[i].bank := x.wrLists[x.wr[i].bank][1..]])
    else
      x.(rd := x.rd[..i] + x.rd[i + 1..], rdLists := x.rdLists[x.rd[i].bank := x.rdLists[x.rd[i].bank][1..]])
  }

  /** And it is answered if it has not been before. */
  ghost function ServeFrom(x: Pending, isWrite: bool, i: nat): Pending
    requires Heads(x, isWrite, i)
  {
    var r := QueueOf(x, isWrite)[i];
    Dequeued(x, isWrite, i).(answered := if r.ev then x.answered + {r.id} else x.answered)
  }

  /** Answering and leaving the queue do not depend on each other. */
  lemma ServeSplits(x: Pending, isWrite: bool, i: nat, answered: set<nat>)
    requires Heads(x, isWrite, i)
    ensures var y := x.(answered := answered);
            Heads(y, isWrite, i) && Dequeued(y, isWrite, i) == Dequeued(x, isWrite, i).(answered := answered)
  {
  }

  lemma KindsWithout(rd: seq<Request>, wr: seq<Request>, ovf: seq<Request>, deferred: bool, isWrite: bool, i: nat)
    requires Kinds(rd, wr, ovf, deferred) && i < if isWrite then |wr| else |rd|
    ensures if isWrite then Kinds(rd, wr[..i] + wr[i + 1..], ovf, deferred)
            else Kinds(rd[..i] + rd[i + 1..], wr, ovf, deferred)
  {
    var q := if isWrite then wr else rd;
    var q' := q[..i] + q[i + 1..];
    forall k | 0 <= k < |q'|
      ensures if isWrite then WrKind(q'[k], deferred) else RdKind(q'[k], deferred)
    {
      assert q'[k] == q[if k < i then k else k + 1];
    }
  }

  lemma ServeOk(x: Pending, st: Setup, isWrite: bool, i: nat)
    requires PendingOk(x, st) && Heads(x, isWrite, i)
    ensures PendingOk(ServeFrom(x, isWrite, i), st)
    ensures var r := QueueOf(x, isWrite)[i]; r.ev ==> !r.write && r.id !in x.answered
  {
    if isWrite {
      KindsWithout(x.rd, x.wr, x.ovf, st.deferred, isWrite, i);
      RemoveKeeps(x.wr, x.wrLists, i, st.limit);
      BookServeWrite(x.issued, x.answered, x.rd, x.wr, x.ovf, i);
    } else {
      KindsWithout(x.rd, x.wr, x.ovf, st.deferred, isWrite, i);
      RemoveKeeps(x.rd, x.rdLists, i, st.limit);
      BookServeRead(x.issued, x.answered, x.rd, x.wr, x.ovf, i);
    }
  }

  /** A request enters a queue and its bank's list, which becomes `list`. */
  ghost function Entered(x: Pending, st: Setup, s: Request, list: seq<Request>): Pending
    requires s.bank < |x.rdLists| && s.bank < |x.wrLists|
  {
    if st.deferred && s.write then x.(wr := x.wr + [s], wrLists := x.wrLists[s.bank := list])
    else x.(rd := x.rd + [s], rdLists := x.rdLists[s.bank := list])
  }

  /** And is answered at once if it is a write. */
  ghost function Enlist(x: Pending, st: Setup, s: Request, list: seq<Request>): Pending
    requires s.bank < |x.rdLists| && s.bank < |x.wrLists|
  {
    Entered(x, st, s, list).(answered := if s.write then x.answered + {s.id} else x.answered)
  }

  /** The list of the bank that a request goes to. */
  function ListFor(x: Pending, st: Setup, r: Request): seq<Request>
    requires r.bank < |x.rdLists| && r.bank < |x.wrLists|
  {
    if st.deferred && r.write then x.wrLists[r.bank] else x.rdLists[r.bank]
  }

  ghost predicate Entering(x: Pending, st: Setup, r: Request, s: Request, list: seq<Request>, hit: bool, hits: nat) {
    && r.bank < st.banks && s.bank < |x.rdLists| && s.bank < |x.wrLists| && r.bank == s.bank
    && r.ev == !r.write && s in list && s == r.(rowHitSeq := s.rowHitSeq)
    && |x.rd| < st.depth && |x.wr| < st.depth
    && list == Insert(ListFor(x, st, r), r, st.limit, hit, hits)
  }

  /** The queues and lists agree after a request has entered. */
  lemma EnlistLists(x: Pending, st: Setup, r: Request, s: Request, list: seq<Request>, hit: bool, hits: nat)
    requires PendingOk(x, st) && Entering(x, st, r, s, list, hit, hits)
    requires r.id !in Ids(x.rd) && r.id !in Ids(x.wr)
    ensures var y := Enlist(x, st, s, list); QInv(y.rd, y.rdLists, st.limit) && QInv(y.wr, y.wrLists, st.limit)
  {
    var write := st.deferred && r.write;
    var queue, lists := if write then x.wr else x.rd, if write then x.wrLists else x.rdLists;
    NewId(queue, r);
    FreshInList(queue, lists, r, st.limit);
    var s' := InsertMembers(lists[r.bank], r, st.limit, hit, hits);
    InsertOk(lists[r.bank], r, st.limit, hit, hits);
    AddKeeps(queue, lists, s, list, st.limit);
  }

  lemma FreshInList(queue: seq<Request>, lists: seq<seq<Request>>, r: Request, limit: nat)
    requires QInv(queue, lists, limit) && r.bank < |lists|
    requires forall i :: 0 <= i < |queue| ==> queue[i].id != r.id
    ensures forall k :: 0 <= k < |lists[r.bank]| ==> lists[r.bank][k].id != r.id
  {
  }

  lemma NumberUnused(x: Pending, st: Setup)
    requires PendingOk(x, st)
    ensures x.issued !in Ids(x.rd) && x.issued !in Ids(x.wr) && x.issued !in Ids(x.ovf) && x.issued !in x.answered
  {
    assert Booked(x.issued, x.answered, x.rd, x.wr, x.ovf);
  }

  lemma OutsideUnanswered(x: Pending, st: Setup)
    requires PendingOk(x, st) && x.ovf != []
    ensures x.ovf[0].id !in x.answered && x.ovf[0].bank < st.banks
  {
    FirstMoves(x.ovf);
  }

  lemma EnlistKinds(x: Pending, st: Setup, r: Request, s: Request, list: seq<Request>, hit: bool, hits: nat)
    requires PendingOk(x, st) && Entering(x, st, r, s, list, hit, hits)
    ensures var y := Enlist(x, st, s, list);
            && Kinds(y.rd, y.wr, y.ovf, st.deferred) && |y.rd| <= st.depth && |y.wr| <= st.depth
            && |y.rdLists| == |y.wrLists| == st.banks
  {
  }

  lemma EnlistBooked(x: Pending, st: Setup, s: Request, list: seq<Request>)
    requires PendingOk(x, st) && s.id == x.issued && s.ev == !s.write && s.bank < st.banks
    ensures var y := Enlist(x, st, s, list); Booked(x.issued + 1, y.answered, y.rd, y.wr, y.ovf)
  {
    if st.deferred && s.write {
      BookWrite(x.issued, x.answered, x.rd, x.wr, x.ovf, s);
    } else {
      BookRead(x.issued, x.answered, x.rd, x.wr, x.ovf, s);
    }
  }

  lemma EnlistMoves(x: Pending, st: Setup, s: Request, list: seq<Request>)
    requires PendingOk(x, st) && s.ev == !s.write && s.bank < st.banks && x.ovf != [] && s.id == x.ovf[0].id
    ensures var y := Enlist(x, st, s, list); Booked(x.issued, y.answered, y.rd, y.wr, x.ovf[1..])
    ensures s.id !in x.answered && s.id !in Ids(x.rd) && s.id !in Ids(x.wr)
  {
    FirstMoves(x.ovf);
    if st.deferred && s.write {
      BookMoveWrite(x.issued, x.answered, x.rd, x.wr, x.ovf, s);
    } else {
      BookMoveRead(x.issued, x.answered, x.rd, x.wr, x.ovf, s);
    }
  }

  /** A new request. */
  lemma EnlistNew(x: Pending, st: Setup, r: Request, s: Request, list: seq<Request>, hit: bool, hits: nat)
    requires PendingOk(x, st) && Entering(x, st, r, s, list, hit, hits) && r.id == x.issued
    ensures r.id !in x.answered
    ensures PendingOk(Enlist(x, st, s, list).(issued := x.issued + 1), st)
  {
    NumberUnused(x, st);
    EnlistLists(x, st, r, s, list, hit, hits);
    EnlistKinds(x, st, r, s, list, hit, hits);
    EnlistBooked(x, st, s, list);
  }

  /** The first request of the overflow queue. */
  lemma EnlistMoved(x: Pending, st: Setup, r: Request, s: Request, list: seq<Request>, hit: bool, hits: nat)
    requires PendingOk(x, st) && Entering(x, st, r, s, list, hit, hits) && x.ovf != [] && r.id == x.ovf[0].id
    ensures r.id !in x.answered
    ensures PendingOk(Enlist(x, st, s, list).(ovf := x.ovf[1..]), st)
  {
    EnlistMoves(x, st, s, list);
    EnlistLists(x, st, r, s, list, hit, hits);
    EnlistKinds(x, st, r, s, list, hit, hits);
  }

  /** A new request, when a queue is full. */
  lemma OverflowNew(x: Pending, st: Setup, r: Request)
    requires PendingOk(x, st) && r.id == x.issued && r.ev && r.bank < st.banks
    ensures PendingOk(x.(ovf := x.ovf + [r], issued := x.issued + 1), st)
  {
    BookOverflow(x.issued, x.answered, x.rd, x.wr, x.ovf, r);
    OverflowBanks(x.ovf, r, st);
    var y := x.(ovf := x.ovf + [r], issued := x.issued + 1);
    assert Kinds(y.rd, y.wr, y.ovf, st.deferred) && Booked(y.issued, y.answered, y.rd, y.wr, y.ovf);
  }

  lemma OverflowBanks(ovf: seq<Request>, r: Request, st: Setup)
    requires (forall i :: 0 <= i < |ovf| ==> ovf[i].bank < st.banks && ovf[i].ev) && r.bank < st.banks && r.ev
    ensures forall i :: 0 <= i < |ovf + [r]| ==> (ovf + [r])[i].bank < st.banks && (ovf + [r])[i].ev
  {
  }

  /** When nothing is queued, no list has a request. */
  lemma EmptyLists(x: Pending, st: Setup, b: nat)
    requires PendingOk(x, st) && x.rd == [] && x.wr == [] && b < st.banks
    ensures x.rdLists[b] == [] && x.wrLists[b] == []
  {
    NoneListed(x.rd, x.rdLists[b], b);
    NoneListed(x.wr, x.wrLists[b], b);
  }

  lemma NoneListed(queue: seq<Request>, list: seq<Request>, b: nat)
    requires Queued(queue, list, b)
    ensures |list| > 0 ==> |queue| > 0
  {
    if |list| > 0 {
      assert list[0] in queue;
    }
  }

  // ----- scheduling events -----

  /** A scheduling event; `at` is the system cycle at which it fires. */
  datatype EventState = IDLE | QUEUED(at: nat) | RUNNING | ANNULLED(at: nat)

  /** The free list holds exactly the idle events. */
  ghost predicate Free(events: seq<EventState>, free: seq<nat>) {
    && (forall i, j :: 0 <= i < j < |free| ==> free[i] != free[j])
    && (forall i :: 0 <= i < |free| ==> free[i] < |events| && events[free[i]].IDLE?)
    && (forall e :: 0 <= e < |events| && events[e].IDLE? ==> e in free)
  }

  /** Apart from event `next`, events are idle or have been annulled. */
  ghost predicate OthersRest(events: seq<EventState>, next: Option<nat>) {
    forall e: nat :: e < |events| && next != Some(e) ==> events[e].IDLE? || events[e].ANNULLED?
  }

  /** Event `was` has been annulled at its cycle, and another one, idle or new, is queued instead; no other has
      changed. */
  ghost predicate Replanned(before: seq<EventState>, was: Option<nat>, after: seq<EventState>, next: nat) {
    && |before| <= |after| && next < |after| && after[next].QUEUED? && was != Some(next)
    && (next < |before| ==> before[next].IDLE?)
    && (forall e: nat :: e < |before| && was == Some(e) && before[e].QUEUED? ==> after[e] == ANNULLED(before[e].at))
    && (forall e: nat :: e < |after| && was != Some(e) && e != next ==> e < |before| && after[e] == before[e])
  }

  /** At most one event is live, and it fires in the memory cycle that is on record. */
  ghost predicate EventsOk(c: Clocks, events: seq<EventState>, next: Option<nat>, cycle: Option<nat>, free: seq<nat>)
    requires c.sysFreq > 0
  {
    && Free(events, free) && OthersRest(events, next) && (next.Some? <==> cycle.Some?)
    && (next.Some? ==> next.value < |events| && events[next.value].QUEUED?
                       && SysToMemCycle(c, events[next.value].at) == cycle.value)
  }

  /** A cycle chosen for an event is never 0, which would mean that no event is wanted. */
  lemma NeverZero(c: Clocks, m: nat)
    requires Ok(c) && m >= 1
    ensures MatchingMemToSysCycle(c, m) >= 1
  {
    var n, f := (2 * m - 1) * c.sysFreq, c.memFreq;
    Arith.MulMono(1, 2 * m - 1, c.sysFreq);
    Arith.DivBound(2, n, f);
  }

  lemma TakeFree(events: seq<EventState>, free: seq<nat>, s: EventState)
    requires Free(events, free) && free != [] && !s.IDLE?
    ensures free[0] < |events| && events[free[0]].IDLE? && Free(events[free[0] := s], free[1..])
  {
    var events', free' := events[free[0] := s], free[1..];
    forall e | 0 <= e < |events'| && events'[e].IDLE?
      ensures e in free'
    {
      var i :| 0 <= i < |free| && free[i] == e;
      assert free'[i - 1] == e;
    }
  }

  lemma GiveBack(events: seq<EventState>, free: seq<nat>, e: nat)
    requires Free(events, free) && e < |events| && !events[e].IDLE?
    ensures e !in free && Free(events[e := IDLE], [e] + free)
  {
    var events', free' := events[e := IDLE], [e] + free;
    forall x | 0 <= x < |events'| && events'[x].IDLE?
      ensures x in free'
    {
      assert x != e ==> x in free;
      assert free'[0] == e;
    }
  }

  lemma NewEvent(events: seq<EventState>, free: seq<nat>, s: EventState)
    requires Free(events, free) && !s.IDLE?
    ensures Free(events + [s], free)
  {
  }

  /** The live event changes from one state to another, neither of them idle. */
  lemma Changes(events: seq<EventState>, free: seq<nat>, e: nat, s: EventState)
    requires Free(events, free) && e < |events| && !events[e].IDLE? && !s.IDLE?
    ensures Free(events[e := s], free)
  {
    forall x | 0 <= x < |events| && events[e := s][x].IDLE?
      ensures x in free
    {
      assert x != e && events[x].IDLE?;
    }
  }

  /** A list that a request has entered begins with that request, or there were others before. */
  lemma FirstOrNot(x: Pending, st: Setup, r: Request, hit: bool, hits: nat)
    requires PendingOk(x, st) && r.bank < st.banks && x.rd == [] && x.wr == []
    ensures |Insert(ListFor(x, st, r), r, st.limit, hit, hits)| == 1
  {
    EmptyLists(x, st, r.bank);
  }
}
