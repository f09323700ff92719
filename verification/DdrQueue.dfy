/** The list of requests that wait for one DRAM bank. A new request joins the last one for the same row, so that the
    row need not be opened twice, but only `limit` times in a row; all others queue at the back. */
module DdrQueue {
  import Arith

  /** `ev` says that the request still has to be answered. */
  datatype Request = Request(id: nat, bank: nat, row: nat, write: bool, rowHitSeq: nat, arrivalCycle: nat,
                             startSysCycle: nat, ev: bool)

  /** The place of the last request for `row`, or -1. */
  function LastSame(q: seq<Request>, row: nat): (m: int)
    ensures -1 <= m < |q|
    ensures m >= 0 ==> q[m].row == row
    ensures forall i :: m < i < |q| ==> q[i].row != row
  {
    if q == [] then -1
    else if q[|q| - 1].row == row then |q| - 1
    else LastSame(q[..|q| - 1], row)
  }

  lemma LastSameIs(q: seq<Request>, row: nat, m: int)
    requires -1 <= m < |q| && (m >= 0 ==> q[m].row == row) && forall i :: m < i < |q| ==> q[i].row != row
    ensures LastSame(q, row) == m
  {
  }

  /** Where a new request goes. `hits` is how often the open row has been hit, if the request is for that row. */
  function Insert(q: seq<Request>, r: Request, limit: nat, openRow: bool, hits: nat): (q': seq<Request>)
    ensures |q'| == |q| + 1
  {
    var m := LastSame(q, r.row);
    if m >= 0 then
      if q[m].rowHitSeq < limit then q[..m + 1] + [r.(rowHitSeq := q[m].rowHitSeq + 1)] + q[m + 1..]
      else q + [r.(rowHitSeq := 0)]
    else if openRow && hits < limit && q == [] then [r.(rowHitSeq := hits + 1)] + q
    else q + [r.(rowHitSeq := 0)]
  }

  ghost predicate Limited(q: seq<Request>, limit: nat) {
    forall i :: 0 <= i < |q| ==> q[i].rowHitSeq <= limit
  }

  lemma InsertLimited(q: seq<Request>, r: Request, limit: nat, openRow: bool, hits: nat)
    requires Limited(q, limit)
    ensures Limited(Insert(q, r, limit, openRow, hits), limit)
  {
  }

  // ----- where a new request stands -----

  ghost predicate IsLast(q: seq<Request>, row: nat, m: int) {
    0 <= m < |q| && q[m].row == row && forall i :: m < i < |q| ==> q[i].row != row
  }

  /** A new request `r` stands at place `k` of the list as `s`: directly behind the last one for its row, with the next
      number, as long as that one carries less than the limit; otherwise at the end with 0. If none waits for its row it
      is the last too, and continues the open row only when nothing at all waits. */
  ghost predicate Joins(q: seq<Request>, r: Request, s: Request, k: nat, limit: nat, openRow: bool, hits: nat) {
    && k <= |q| && s == r.(rowHitSeq := s.rowHitSeq)
    && (forall m: nat :: IsLast(q, r.row, m) && q[m].rowHitSeq < limit ==>
          k == m + 1 && s.rowHitSeq == q[m].rowHitSeq + 1)
    && (forall m: nat :: IsLast(q, r.row, m) && q[m].rowHitSeq >= limit ==> k == |q| && s.rowHitSeq == 0)
    && ((forall i :: 0 <= i < |q| ==> q[i].row != r.row) ==>
          k == |q| && s.rowHitSeq == if q == [] && openRow && hits < limit then hits + 1 else 0)
  }

  /** The list that `r` has joined as `s`. */
  ghost predicate Joined(q: seq<Request>, r: Request, s: Request, list: seq<Request>, limit: nat, openRow: bool,
                         hits: nat)
  {
    exists k: nat :: Joins(q, r, s, k, limit, openRow, hits) && list == q[..k] + [s] + q[k..]
  }

  lemma JoinedAt(q: seq<Request>, r: Request, s: Request, list: seq<Request>, limit: nat, openRow: bool, hits: nat)
    returns (k: nat)
    requires Joined(q, r, s, list, limit, openRow, hits)
    ensures Joins(q, r, s, k, limit, openRow, hits)
    ensures |list| == |q| + 1 && list[k] == s && list[..k] == q[..k]
  {
    k :| Joins(q, r, s, k, limit, openRow, hits) && list == q[..k] + [s] + q[k..];
  }

  lemma InsertJoins(q: seq<Request>, r: Request, limit: nat, openRow: bool, hits: nat) returns (s: Request, k: nat)
    ensures Joins(q, r, s, k, limit, openRow, hits)
    ensures Insert(q, r, limit, openRow, hits) == q[..k] + [s] + q[k..]
  {
    var m := LastSame(q, r.row);
    k := if m >= 0 && q[m].rowHitSeq < limit then m + 1 else |q|;
    s := Insert(q, r, limit, openRow, hits)[k];
  }

  lemma OnePlace(q: seq<Request>, r: Request, s: Request, k: nat, s': Request, k': nat, limit: nat, openRow: bool,
                 hits: nat)
    requires Joins(q, r, s, k, limit, openRow, hits) && Joins(q, r, s', k', limit, openRow, hits)
    ensures s == s' && k == k'
  {
    var m := LastSame(q, r.row);
    assert m >= 0 ==> IsLast(q, r.row, m);
  }

  lemma JoinedIsInsert(q: seq<Request>, r: Request, s: Request, list: seq<Request>, limit: nat, openRow: bool,
                       hits: nat)
    requires Joined(q, r, s, list, limit, openRow, hits)
    ensures list == Insert(q, r, limit, openRow, hits) && s in list && s == r.(rowHitSeq := s.rowHitSeq)
  {
    var k: nat :| Joins(q, r, s, k, limit, openRow, hits) && list == q[..k] + [s] + q[k..];
    assert list[k] == s;
    var s', k' := InsertJoins(q, r, limit, openRow, hits);
    OnePlace(q, r, s, k, s', k', limit, openRow, hits);
  }

  /** The next request for the row of request `i` is number `j`. */
  ghost predicate NextOfRow(q: seq<Request>, i: int, j: int) {
    0 <= i < j < |q| && q[j].row == q[i].row && forall k :: i < k < j ==> q[k].row != q[i].row
  }

  /** A request that does not carry 0 follows one for the same row, and carries the next number. */
  ghost predicate Streaks(q: seq<Request>) {
    forall i, j :: 0 <= i && j == i + 1 && j < |q| && q[j].rowHitSeq != 0 ==>
      q[j].row == q[i].row && q[j].rowHitSeq == q[i].rowHitSeq + 1
  }

  /** Request `j` follows request `i` of its row as it should. */
  ghost predicate Follows(q: seq<Request>, i: int, j: int, limit: nat)
    requires 0 <= i < j < |q|
  {
    (j == i + 1 && q[j].rowHitSeq == q[i].rowHitSeq + 1) || (q[i].rowHitSeq == limit && q[j].rowHitSeq == 0)
  }

  /** Requests for the same row stand one behind the other, numbered upward; only after the limit another row may come
      between them, and they start again from 0. */
  ghost predicate Grouped(q: seq<Request>, limit: nat) {
    forall i, j :: NextOfRow(q, i, j) ==> Follows(q, i, j, limit)
  }

  ghost predicate ListOk(q: seq<Request>, limit: nat) {
    Limited(q, limit) && Streaks(q) && Grouped(q, limit)
  }

  ghost function With(q: seq<Request>, s: Request, k: nat): (q': seq<Request>)
    requires k <= |q|
    ensures |q'| == |q| + 1
    ensures forall i :: 0 <= i < |q'| ==> q'[i] == if i < k then q[i] else if i == k then s else q[i - 1]
  {
    q[..k] + [s] + q[k..]
  }

  /** None for the row of the new request stands behind it, and only one of its row stands before it unless it is the
      last. */
  lemma JoinsFacts(q: seq<Request>, r: Request, s: Request, k: nat, limit: nat, openRow: bool, hits: nat)
    requires Joins(q, r, s, k, limit, openRow, hits)
    ensures forall n :: k <= n < |q| ==> q[n].row != r.row
    ensures k < |q| ==> k > 0 && q[k - 1].row == r.row
    ensures k > 0 && s.rowHitSeq != 0 ==> q[k - 1].row == r.row && s.rowHitSeq == q[k - 1].rowHitSeq + 1
    ensures forall m: nat :: IsLast(q, r.row, m) ==>
              if q[m].rowHitSeq < limit then k == m + 1 && s.rowHitSeq == q[m].rowHitSeq + 1 else s.rowHitSeq == 0
  {
    var m := LastSame(q, r.row);
    assert m >= 0 ==> IsLast(q, r.row, m);
  }

  lemma JoinsBehind(q: seq<Request>, r: Request, s: Request, k: nat, limit: nat, openRow: bool, hits: nat, i: nat)
    requires Limited(q, limit) && Joins(q, r, s, k, limit, openRow, hits) && NextOfRow(With(q, s, k), i, k)
    ensures Follows(With(q, s, k), i, k, limit)
  {
    JoinsFacts(q, r, s, k, limit, openRow, hits);
    forall n | i < n < |q|
      ensures q[n].row != r.row
    {
      assert n < k ==> q[n] == With(q, s, k)[n];
    }
    assert IsLast(q, r.row, i);
  }

  /** A new request separates no two requests that belong together. */
  lemma KeepsApart(q: seq<Request>, s: Request, k: nat, limit: nat, i: nat, j: nat)
    requires Grouped(q, limit) && k <= |q| && (k < |q| ==> k > 0 && q[k - 1].row == s.row)
    requires NextOfRow(With(q, s, k), i, j) && i != k && j != k
    ensures Follows(With(q, s, k), i, j, limit)
  {
    var q' := With(q, s, k);
    var i', j' := if i < k then i else i - 1, if j < k then j else j - 1;
    forall n | i' < n < j'
      ensures q[n].row != q[i'].row
    {
      assert q[n] == q'[if n < k then n else n + 1];
    }
    assert NextOfRow(q, i', j');
    assert Follows(q, i', j', limit);
  }

  /** An arrival keeps the order of a list. */
  lemma InsertOk(q: seq<Request>, r: Request, limit: nat, openRow: bool, hits: nat)
    requires ListOk(q, limit)
    ensures ListOk(Insert(q, r, limit, openRow, hits), limit)
  {
    var s, k := InsertJoins(q, r, limit, openRow, hits);
    InsertLimited(q, r, limit, openRow, hits);
    JoinsGrouped(q, r, s, k, limit, openRow, hits);
    JoinsStreaks(q, r, s, k, limit, openRow, hits);
  }

  lemma JoinsGrouped(q: seq<Request>, r: Request, s: Request, k: nat, limit: nat, openRow: bool, hits: nat)
    requires Limited(q, limit) && Grouped(q, limit) && Joins(q, r, s, k, limit, openRow, hits)
    ensures Grouped(With(q, s, k), limit)
  {
    forall i, j | NextOfRow(With(q, s, k), i, j)
      ensures Follows(With(q, s, k), i, j, limit)
    {
      JoinsFacts(q, r, s, k, limit, openRow, hits);
      if j == k {
        JoinsBehind(q, r, s, k, limit, openRow, hits, i);
      } else {
        KeepsApart(q, s, k, limit, i, j);
      }
    }
  }

  lemma JoinsStreaks(q: seq<Request>, r: Request, s: Request, k: nat, limit: nat, openRow: bool, hits: nat)
    requires Streaks(q) && Joins(q, r, s, k, limit, openRow, hits)
    ensures Streaks(With(q, s, k))
  {
    JoinsFacts(q, r, s, k, limit, openRow, hits);
    assert k < |q| ==> q[k].row != q[k - 1].row;
    JoinStreaks(q, s, k);
  }

  /** A service too. */
  lemma RestOk(q: seq<Request>, limit: nat)
    requires ListOk(q, limit) && q != []
    ensures ListOk(q[1..], limit)
  {
    forall i, j | NextOfRow(q[1..], i, j)
      ensures Follows(q[1..], i, j, limit)
    {
      assert forall k :: i < k < j ==> q[1..][k] == q[k + 1];
      assert NextOfRow(q, i + 1, j + 1);
    }
  }

  /** A request that joins the list joins a streak at its end, or starts one. */
  lemma JoinStreaks(a: seq<Request>, r: Request, k: nat)
    requires Streaks(a) && k <= |a|
    requires r.rowHitSeq != 0 && k > 0 ==> r.row == a[k - 1].row && r.rowHitSeq == a[k - 1].rowHitSeq + 1
    requires k < |a| ==> a[k].rowHitSeq == 0
    ensures Streaks(a[..k] + [r] + a[k..])
  {
  }

  // ----- bounded bypass -----

  ghost predicate HasRow(q: seq<Request>, row: nat) {
    exists i :: 0 <= i < |q| && q[i].row == row
  }

  /** How many more requests may slip in among `ahead`: for every row, what is left of the limit after its last
      request. */
  ghost function Credit(ahead: seq<Request>, limit: nat): nat
    requires Limited(ahead, limit)
  {
    if ahead == [] then 0
    else Credit(ahead[1..], limit) + (if HasRow(ahead[1..], ahead[0].row) then 0 else limit - ahead[0].rowHitSeq)
  }

  /** How many services the request behind `ahead` may have to wait for. */
  ghost function Wait(ahead: seq<Request>, limit: nat): nat
    requires Limited(ahead, limit)
  {
    |ahead| + Credit(ahead, limit)
  }

  lemma {:induction false} CreditBound(ahead: seq<Request>, limit: nat)
    requires Limited(ahead, limit)
    ensures Credit(ahead, limit) <= |ahead| * limit
  {
    if ahead != [] {
      CreditBound(ahead[1..], limit);
      Arith.MulStep(|ahead| - 1, limit);
    }
  }

  /** A request that slips in behind the last one of its row uses up one of that row's credit. */
  lemma {:induction false} SlipIn(a: seq<Request>, r: Request, m: nat, limit: nat)
    requires Limited(a, limit) && m < |a| && r.row == a[m].row && a[m].rowHitSeq < limit
    requires r.rowHitSeq == a[m].rowHitSeq + 1
    requires forall i :: m < i < |a| ==> a[i].row != r.row
    ensures Limited(a[..m + 1] + [r] + a[m + 1..], limit)
    ensures Credit(a[..m + 1] + [r] + a[m + 1..], limit) == Credit(a, limit) - 1
  {
    var b := a[..m + 1] + [r] + a[m + 1..];
    assert b[0] == a[0];
    if m == 0 {
      assert b[1..] == [r] + a[1..];
      assert b[1..][1..] == a[1..];
      assert b[1..][0].row == a[0].row;
    } else {
      var t := a[1..];
      assert b[1..] == t[..m] + [r] + t[m..];
      assert t[m - 1] == a[m];
      SlipIn(t, r, m - 1, limit);
      SameRows(t, r, m - 1, a[0].row);
    }
  }

  lemma SameRows(t: seq<Request>, r: Request, k: nat, row: nat)
    requires k < |t| && t[k].row == r.row
    ensures HasRow(t[..k + 1] + [r] + t[k + 1..], row) <==> HasRow(t, row)
  {
    var b := t[..k + 1] + [r] + t[k + 1..];
    if HasRow(t, row) {
      var i :| 0 <= i < |t| && t[i].row == row;
      assert b[if i <= k then i else i + 1] == t[i];
    }
    if HasRow(b, row) {
      var i :| 0 <= i < |b| && b[i].row == row;
      assert t[if i <= k then i else if i == k + 1 then k else i - 1].row == row;
    }
  }

  lemma SlipPrefix(q: seq<Request>, s: Request, m: nat, p: nat)
    requires m < p < |q|
    ensures (q[..m + 1] + [s] + q[m + 1..])[..p + 1] == q[..p][..m + 1] + [s] + q[..p][m + 1..]
  {
  }

  /** An arrival does not make any request wait longer, and does not come between two requests for the same row. */
  lemma ArrivalKeepsWait(q: seq<Request>, p: nat, r: Request, limit: nat, openRow: bool, hits: nat) returns (p': nat)
    requires Limited(q, limit) && p < |q|
    ensures var q' := Insert(q, r, limit, openRow, hits);
            && p' < |q'| && q'[p'] == q[p] && Limited(q', limit)
            && Wait(q'[..p'], limit) == Wait(q[..p], limit)
            && (p + 1 < |q| && q[p + 1].row == q[p].row ==> p' + 1 < |q'| && q'[p' + 1] == q[p + 1])
  {
    InsertLimited(q, r, limit, openRow, hits);
    var m := LastSame(q, r.row);
    if m >= 0 && q[m].rowHitSeq < limit {
      p' := SlipKeepsWait(q, p, r.(rowHitSeq := q[m].rowHitSeq + 1), m, limit);
    } else {
      p' := p;
      var q' := Insert(q, r, limit, openRow, hits);
      assert q'[..|q|] == q;
      assert q'[..p'] == q'[..|q|][..p'];
    }
  }

  lemma SlipKeepsWait(q: seq<Request>, p: nat, s: Request, m: nat, limit: nat) returns (p': nat)
    requires Limited(q, limit) && p < |q| && m < |q| && s.row == q[m].row && s.rowHitSeq == q[m].rowHitSeq + 1 <= limit
    requires forall i :: m < i < |q| ==> q[i].row != s.row
    ensures var q' := q[..m + 1] + [s] + q[m + 1..];
            && p' < |q'| && q'[p'] == q[p] && Limited(q'[..p'], limit)
            && Wait(q'[..p'], limit) == Wait(q[..p], limit)
            && (p + 1 < |q| && q[p + 1].row == q[p].row ==> p' + 1 < |q'| && q'[p' + 1] == q[p + 1])
  {
    var q' := q[..m + 1] + [s] + q[m + 1..];
    if m < p {
      p' := p + 1;
      SlipIn(q[..p], s, m, limit);
      SlipPrefix(q, s, m, p);
    } else {
      p' := p;
      assert q'[..p'] == q[..p];
    }
  }

  /** A service brings every request but the one served strictly closer. */
  lemma ServiceCutsWait(q: seq<Request>, p: nat, limit: nat)
    requires Limited(q, limit) && 0 < p < |q|
    ensures Limited(q[1..], limit) && q[1..][p - 1] == q[p]
    ensures Wait(q[1..][..p - 1], limit) < Wait(q[..p], limit)
  {
    assert q[1..][..p - 1] == q[..p][1..];
  }

  /** Requests arrive, in any state of the bank, or the first request is served. */
  datatype Event = Arrive(r: Request, openRow: bool, hits: nat) | Serve

  function After(q: seq<Request>, e: Event, limit: nat): seq<Request> {
    match e
    case Arrive(r, openRow, hits) => Insert(q, r, limit, openRow, hits)
    case Serve => if q == [] then q else q[1..]
  }

  /** The requests served during a run. */
  function Served(q: seq<Request>, events: seq<Event>, limit: nat): seq<Request>
    decreases |events|
  {
    if events == [] then []
    else (if events[0].Serve? && q != [] then [q[0]] else []) + Served(After(q, events[0], limit), events[1..], limit)
  }

  function Services(events: seq<Event>): nat {
    if events == [] then 0 else (if events[0].Serve? then 1 else 0) + Services(events[1..])
  }

  /** Whatever arrives, a waiting request is served once there have been more services than its wait, a number fixed
      beforehand by the requests ahead of it. */
  lemma {:induction false} BoundedBypass(q: seq<Request>, p: nat, events: seq<Event>, limit: nat)
    requires Limited(q, limit) && p < |q|
    requires Services(events) > Wait(q[..p], limit)
    ensures q[p] in Served(q, events, limit)
    decreases |events|
  {
    match events[0] {
      case Arrive(r, openRow, hits) => {
        var p' := ArrivalKeepsWait(q, p, r, limit, openRow, hits);
        BoundedBypass(Insert(q, r, limit, openRow, hits), p', events[1..], limit);
      }
      case Serve => {
        if p > 0 {
          ServiceCutsWait(q, p, limit);
          BoundedBypass(q[1..], p - 1, events[1..], limit);
        }
      }
    }
  }

  /** A request that arrives when `n` requests wait is served within n + n * limit + 1 services. */
  lemma ServedWithin(q: seq<Request>, r: Request, openRow: bool, hits: nat, events: seq<Event>, limit: nat)
    requires Limited(q, limit)
    requires Services(events) > |q| + |q| * limit
    ensures exists n :: r.(rowHitSeq := n) in Served(Insert(q, r, limit, openRow, hits), events, limit)
  {
    var q' := Insert(q, r, limit, openRow, hits);
    InsertLimited(q, r, limit, openRow, hits);
    var p := PlaceOf(q, r, limit, openRow, hits);
    CreditBound(q[..p], limit);
    Arith.MulMono(p, |q|, limit);
    BoundedBypass(q', p, events, limit);
  }

  lemma PlaceOf(q: seq<Request>, r: Request, limit: nat, openRow: bool, hits: nat) returns (p: nat)
    requires Limited(q, limit)
    ensures var q' := Insert(q, r, limit, openRow, hits);
            p <= |q| && q'[p] == r.(rowHitSeq := q'[p].rowHitSeq) && q'[..p] == q[..p]
  {
    var m := LastSame(q, r.row);
    p := if m >= 0 && q[m].rowHitSeq < limit then m + 1 else |q|;
  }

  /** The list after a run. */
  function Left(q: seq<Request>, events: seq<Event>, limit: nat): seq<Request>
    decreases |events|
  {
    if events == [] then q else Left(After(q, events[0], limit), events[1..], limit)
  }

  function Arrivals(events: seq<Event>): seq<Request> {
    if events == [] then []
    else (if events[0].Arrive? then [events[0].r.(rowHitSeq := 0)] else []) + Arrivals(events[1..])
  }

  /** With a limit of 0 requests are served in the order of their arrival. */
  lemma {:induction false} FirstComeFirstServed(q: seq<Request>, events: seq<Event>)
    requires Limited(q, 0)
    ensures Served(q, events, 0) + Left(q, events, 0) == q + Arrivals(events)
    decreases |events|
  {
    if events != [] {
      PlainArrival(q, events[0]);
      var q' := After(q, events[0], 0);
      FirstComeFirstServed(q', events[1..]);
      var first := if events[0].Serve? && q != [] then [q[0]] else [];
      var came := if events[0].Arrive? then [events[0].r.(rowHitSeq := 0)] else [];
      PlainStep(first, q', q, came, Served(q', events[1..], 0), Left(q', events[1..], 0), Arrivals(events[1..]));
    }
  }

  lemma PlainArrival(q: seq<Request>, e: Event)
    requires Limited(q, 0)
    ensures Limited(After(q, e, 0), 0)
    ensures (if e.Serve? && q != [] then [q[0]] else []) + After(q, e, 0) ==
            q + (if e.Arrive? then [e.r.(rowHitSeq := 0)] else [])
  {
    if e.Arrive? {
      InsertLimited(q, e.r, 0, e.openRow, e.hits);
    }
  }

  lemma PlainStep(first: seq<Request>, q': seq<Request>, q: seq<Request>, came: seq<Request>,
                  served: seq<Request>, left: seq<Request>, arrivals: seq<Request>)
    requires first + q' == q + came && served + left == q' + arrivals
    ensures (first + served) + left == q + (came + arrivals)
  {
    assert (first + served) + left == first + (q' + arrivals) == (first + q') + arrivals;
  }

  // ----- the streaks of a bank -----

  /** One bank with one list: the requests served so far, those that wait, and the open row. */
  datatype Bank = Bank(served: seq<Request>, waiting: seq<Request>, open: bool, openRow: nat, hits: nat)

  /** A request arrives; the first is served, and its row may be closed after it; or a refresh closes the row. */
  datatype BankEvent = Arrival(r: Request) | Service(close: bool) | Closed

  function BankAfter(b: Bank, e: BankEvent, limit: nat): Bank {
    match e
    case Arrival(r) => b.(waiting := Insert(b.waiting, r, limit, b.open && b.openRow == r.row, b.hits))
    case Service(close) =>
      if b.waiting == [] then b
      else Bank(b.served + [b.waiting[0]], b.waiting[1..], !close, b.waiting[0].row, b.waiting[0].rowHitSeq)
    case Closed => b.(open := false)
  }

  /** All requests of the bank, in the order of service. */
  function Log(b: Bank): seq<Request> {
    b.served + b.waiting
  }

  /** The open row is that of the last request served. */
  ghost predicate RowOk(b: Bank) {
    b.open ==>
      |b.served| > 0 && b.served[|b.served| - 1].row == b.openRow && b.served[|b.served| - 1].rowHitSeq == b.hits
  }

  ghost predicate BankOk(b: Bank, limit: nat) {
    Streaks(Log(b)) && Limited(Log(b), limit) && RowOk(b)
  }

  lemma JoinLimited(a: seq<Request>, r: Request, k: nat, limit: nat)
    requires Limited(a, limit) && r.rowHitSeq <= limit && k <= |a|
    ensures Limited(a[..k] + [r] + a[k..], limit)
  {
  }

  lemma CutAt(served: seq<Request>, waiting: seq<Request>, s: Request, k: nat)
    requires k <= |waiting|
    ensures var all, n := served + waiting, |served| + k;
            served + (waiting[..k] + [s] + waiting[k..]) == all[..n] + [s] + all[n..]
  {
  }

  lemma ArrivalOk(b: Bank, r: Request, limit: nat)
    requires BankOk(b, limit)
    ensures BankOk(BankAfter(b, Arrival(r), limit), limit)
  {
    var n, s := LogAfter(b, r, limit);
    JoinStreaks(Log(b), s, n);
    JoinLimited(Log(b), s, n, limit);
  }

  /** An arrival adds one request to the log, which starts or continues a streak, and cuts none in two. */
  lemma LogAfter(b: Bank, r: Request, limit: nat) returns (n: nat, s: Request)
    requires BankOk(b, limit)
    ensures n <= |Log(b)| && Log(BankAfter(b, Arrival(r), limit)) == Log(b)[..n] + [s] + Log(b)[n..]
    ensures s.rowHitSeq <= limit && (n < |Log(b)| ==> Log(b)[n].rowHitSeq == 0)
    ensures s.rowHitSeq != 0 ==> n > 0 && s.row == Log(b)[n - 1].row && s.rowHitSeq == Log(b)[n - 1].rowHitSeq + 1
  {
    var k;
    k, s := Newcomer(b, r, limit);
    CutAt(b.served, b.waiting, s, k);
    n := |b.served| + k;
  }

  lemma Newcomer(b: Bank, r: Request, limit: nat) returns (k: nat, s: Request)
    requires BankOk(b, limit)
    ensures k <= |b.waiting| && s.rowHitSeq <= limit
    ensures BankAfter(b, Arrival(r), limit).waiting == b.waiting[..k] + [s] + b.waiting[k..]
    ensures var n := |b.served| + k;
            && (n < |Log(b)| ==> Log(b)[n].rowHitSeq == 0)
            && (s.rowHitSeq != 0 ==> n > 0 && s.row == Log(b)[n - 1].row && s.rowHitSeq == Log(b)[n - 1].rowHitSeq + 1)
  {
    var q := b.waiting;
    var m := LastSame(q, r.row);
    if m >= 0 && q[m].rowHitSeq < limit {
      k, s := m + 1, r.(rowHitSeq := q[m].rowHitSeq + 1);
      assert Log(b)[|b.served| + m] == q[m];
      NextStreak(b.served, q, m);
    } else {
      k, s := |q|, BankAfter(b, Arrival(r), limit).waiting[|q|];
    }
  }

  lemma NextStreak(served: seq<Request>, q: seq<Request>, m: nat)
    requires Streaks(served + q) && m < |q| && forall i :: m < i < |q| ==> q[i].row != q[m].row
    ensures m + 1 < |q| ==> q[m + 1].rowHitSeq == 0
  {
    var all, n := served + q, |served| + m;
    if m + 1 < |q| {
      assert all[n] == q[m] && all[n + 1] == q[m + 1];
    }
  }

  /** The bank after a run from the beginning. */
  function BankRun(events: seq<BankEvent>, limit: nat): Bank {
    if events == [] then Bank([], [], false, 0, 0)
    else BankAfter(BankRun(events[..|events| - 1], limit), events[|events| - 1], limit)
  }

  lemma {:induction false} BankRunOk(events: seq<BankEvent>, limit: nat)
    ensures BankOk(BankRun(events, limit), limit)
  {
    if events != [] {
      BankRunOk(events[..|events| - 1], limit);
      BankStepOk(BankRun(events[..|events| - 1], limit), events[|events| - 1], limit);
    }
  }

  lemma BankStepOk(b: Bank, e: BankEvent, limit: nat)
    requires BankOk(b, limit)
    ensures BankOk(BankAfter(b, e, limit), limit)
  {
    match e {
      case Arrival(r) => { ArrivalOk(b, r, limit); }
      case Service(close) => {
        if b.waiting != [] {
          assert Log(BankAfter(b, e, limit)) == Log(b);
        }
      }
      case Closed => {}
    }
  }

  /** In every run of a bank with one list, of any limit + 1 requests served one after the other at least one had not
      joined a streak. */
  lemma OneListStreaks(events: seq<BankEvent>, limit: nat, i: nat)
    requires i + limit < |BankRun(events, limit).served|
    ensures exists k :: i <= k <= i + limit && BankRun(events, limit).served[k].rowHitSeq == 0
  {
    var b := BankRun(events, limit);
    BankRunOk(events, limit);
    if forall k :: i <= k <= i + limit ==> b.served[k].rowHitSeq != 0 {
      Climb(b, limit, i, limit);
    }
  }

  lemma {:induction false} Climb(b: Bank, limit: nat, i: nat, n: nat)
    requires BankOk(b, limit) && i + n < |b.served|
    requires forall k :: i <= k <= i + n ==> b.served[k].rowHitSeq != 0
    ensures n < b.served[i + n].rowHitSeq <= limit
  {
    assert Log(b)[i + n] == b.served[i + n];
    if n > 0 {
      Climb(b, limit, i, n - 1);
      assert Log(b)[i + n - 1] == b.served[i + n - 1];
    }
  }

  // ----- a bank with deferred writes -----

  /** One bank with its two lists, which share the count of hits. */
  datatype Lists = Lists(served: seq<Request>, rd: seq<Request>, wr: seq<Request>, open: bool, openRow: nat, hits: nat)

  datatype ListsEvent = Comes(r: Request) | Goes(write: bool, close: bool) | RowClosed

  function ListsAfter(b: Lists, e: ListsEvent, limit: nat, deferredWrites: bool): Lists {
    match e
    case Comes(r) =>
      if deferredWrites && r.write then b.(wr := Insert(b.wr, r, limit, b.open && b.openRow == r.row, b.hits))
      else b.(rd := Insert(b.rd, r, limit, b.open && b.openRow == r.row, b.hits))
    case Goes(write, close) =>
      if write && b.wr != [] then
        Lists(b.served + [b.wr[0]], b.rd, b.wr[1..], !close, b.wr[0].row, b.wr[0].rowHitSeq)
      else if !write && b.rd != [] then
        Lists(b.served + [b.rd[0]], b.rd[1..], b.wr, !close, b.rd[0].row, b.rd[0].rowHitSeq)
      else b
    case RowClosed => b.(open := false)
  }

  function ListsRun(events: seq<ListsEvent>, limit: nat, deferredWrites: bool): Lists {
    if events == [] then Lists([], [], [], false, 0, 0)
    else
      ListsAfter(ListsRun(events[..|events| - 1], limit, deferredWrites), events[|events| - 1], limit, deferredWrites)
  }

  /** Without deferred writes the write list stays empty, and the bank is one with one list. */
  lemma {:induction false} OneListRun(events: seq<ListsEvent>, limit: nat) returns (one: seq<BankEvent>)
    ensures var b := ListsRun(events, limit, false);
            b.wr == [] && BankRun(one, limit) == Bank(b.served, b.rd, b.open, b.openRow, b.hits)
  {
    if events == [] {
      one := [];
    } else {
      var before := OneListRun(events[..|events| - 1], limit);
      one := before;
      match events[|events| - 1] {
        case Comes(r) => { one := before + [Arrival(r)]; }
        case Goes(write, close) => {
          if !write {
            one := before + [Service(close)];
          }
        }
        case RowClosed => { one := before + [Closed]; }
      }
      assert |one| > |before| ==> one[..|one| - 1] == before;
    }
  }

  /** With a limit of 0 nothing joins a streak. */
  lemma {:induction false} NoStreaks(events: seq<ListsEvent>, deferredWrites: bool)
    ensures var b := ListsRun(events, 0, deferredWrites); Limited(b.served, 0) && Limited(b.rd, 0) && Limited(b.wr, 0)
  {
    if events != [] {
      NoStreaks(events[..|events| - 1], deferredWrites);
      var b := ListsRun(events[..|events| - 1], 0, deferredWrites);
      match events[|events| - 1] {
        case Comes(r) => {
          InsertLimited(b.rd, r, 0, b.open && b.openRow == r.row, b.hits);
          InsertLimited(b.wr, r, 0, b.open && b.openRow == r.row, b.hits);
        }
        case _ => {}
      }
    }
  }

  /** In every run, of any limit + 1 requests served one after the other at least one has not joined a streak. */
  ghost predicate StreaksKept(limit: nat, deferredWrites: bool) {
    forall events: seq<ListsEvent>, i: nat :: i + limit < |ListsRun(events, limit, deferredWrites).served| ==>
      HasStart(ListsRun(events, limit, deferredWrites).served, i, limit)
  }

  ghost predicate HasStart(served: seq<Request>, i: nat, limit: nat)
    requires i + limit < |served|
  {
    exists k :: i <= k <= i + limit && served[k].rowHitSeq == 0
  }

  /** The limit on streaks holds in every run if and only if writes are not deferred, or nothing may join a streak. */
  lemma StreakLimit(limit: nat, deferredWrites: bool)
    ensures StreaksKept(limit, deferredWrites) <==> !deferredWrites || limit == 0
  {
    if !deferredWrites || limit == 0 {
      forall events: seq<ListsEvent>, i: nat | i + limit < |ListsRun(events, limit, deferredWrites).served|
        ensures HasStart(ListsRun(events, limit, deferredWrites).served, i, limit)
      {
        if limit == 0 {
          NoStreaks(events, deferredWrites);
          assert ListsRun(events, limit, deferredWrites).served[i].rowHitSeq == 0;
        } else {
          var one := OneListRun(events, limit);
          OneListStreaks(one, limit, i);
        }
      }
    } else {
      var events := TwoStreaks(limit);
      assert !HasStart(ListsRun(events, limit, true).served, 1, limit);
    }
  }

  /** A request for row 0, number `k` of a streak. */
  function Hit(write: bool, k: nat): Request {
    Request(0, 0, 0, write, k, 0, 0, true)
  }

  /** Reads number `first` to `last` of a streak. */
  function Streak(first: nat, last: nat): (q: seq<Request>)
    requires first <= last + 1
    ensures |q| == last + 1 - first && forall i :: 0 <= i < |q| ==> q[i] == Hit(false, first + i)
    decreases last + 1 - first
  {
    if first == last + 1 then [] else [Hit(false, first)] + Streak(first + 1, last)
  }

  lemma Then(events: seq<ListsEvent>, e: ListsEvent, limit: nat, b: Lists, b': Lists) returns (more: seq<ListsEvent>)
    requires ListsRun(events, limit, true) == b && ListsAfter(b, e, limit, true) == b'
    ensures ListsRun(more, limit, true) == b'
  {
    more := events + [e];
    assert more[..|events|] == events;
  }

  /** After one read has been served, `n` more come in, as a streak. */
  lemma {:induction false} ReadsCome(limit: nat, n: nat) returns (events: seq<ListsEvent>)
    requires n <= limit
    ensures ListsRun(events, limit, true) == Lists([Hit(false, 0)], Streak(1, n), [], true, 0, 0)
  {
    if n == 0 {
      events := Then([], Comes(Hit(false, 0)), limit, Lists([], [], [], false, 0, 0),
                     Lists([], [Hit(false, 0)], [], false, 0, 0));
      events := Then(events, Goes(false, false), limit, Lists([], [Hit(false, 0)], [], false, 0, 0),
                     Lists([Hit(false, 0)], [], [], true, 0, 0));
    } else {
      var q := Streak(1, n - 1);
      events := ReadsCome(limit, n - 1);
      LastSameIs(q, 0, n - 2);
      assert Insert(q, Hit(false, 0), limit, true, 0) == Streak(1, n);
      events := Then(events, Comes(Hit(false, 0)), limit, Lists([Hit(false, 0)], q, [], true, 0, 0),
                     Lists([Hit(false, 0)], Streak(1, n), [], true, 0, 0));
    }
  }

  /** One write comes in too and is served; then `n` of the reads are. */
  lemma {:induction false} ReadsGo(limit: nat, n: nat) returns (events: seq<ListsEvent>)
    requires n <= limit && limit > 0
    ensures ListsRun(events, limit, true) ==
            Lists([Hit(false, 0), Hit(true, 1)] + Streak(1, n), Streak(n + 1, limit), [], true, 0,
                  if n == 0 then 1 else n)
  {
    if n == 0 {
      events := ReadsCome(limit, limit);
      events := Then(events, Comes(Hit(true, 0)), limit, Lists([Hit(false, 0)], Streak(1, limit), [], true, 0, 0),
                     Lists([Hit(false, 0)], Streak(1, limit), [Hit(true, 1)], true, 0, 0));
      events := Then(events, Goes(true, false), limit,
                     Lists([Hit(false, 0)], Streak(1, limit), [Hit(true, 1)], true, 0, 0),
                     Lists([Hit(false, 0), Hit(true, 1)], Streak(1, limit), [], true, 0, 1));
      assert [Hit(false, 0), Hit(true, 1)] + Streak(1, 0) == [Hit(false, 0), Hit(true, 1)];
    } else {
      var start, m := [Hit(false, 0), Hit(true, 1)], n - 1;
      events := ReadsGo(limit, m);
      assert Streak(n, limit)[1..] == Streak(n + 1, limit);
      assert (start + Streak(1, m)) + [Hit(false, n)] == start + Streak(1, n);
      events := Then(events, Goes(false, false), limit,
                     Lists(start + Streak(1, m), Streak(n, limit), [], true, 0, if m == 0 then 1 else m),
                     Lists(start + Streak(1, n), Streak(n + 1, limit), [], true, 0, n));
    }
  }

  /** With deferred writes a streak of reads can follow a streak of writes without a start of its own. */
  lemma TwoStreaks(limit: nat) returns (events: seq<ListsEvent>)
    requires limit > 0
    ensures var served := ListsRun(events, limit, true).served;
            |served| == limit + 2 && forall k :: 1 <= k < limit + 2 ==> served[k].rowHitSeq != 0
  {
    events := ReadsGo(limit, limit);
  }
}
