/** The fully associative array with LRU replacement: a hash map finds a line in one step, a list keeps the lines in
    the order of their last use. Address 0 marks an empty line. */
module IdealLru {
  import opened InList
  import opened Sequences
  import opened Wrappers

  // ----- recency -----

  /** Takes `x` out, if it is there, and puts it in front. */
  function ToFront(s: seq<nat>, x: nat): seq<nat> {
    var k := Index(s, x);
    [x] + s[..k] + (if k < |s| then s[k + 1..] else [])
  }

  /** Behind the front, everything up to the old place of `x` has moved on by one. */
  lemma ToFrontAt(s: seq<nat>, x: nat, i: nat)
    requires 0 < i < |ToFront(s, x)|
    ensures var j := if i <= Index(s, x) then i - 1 else i;
            j < |s| && j != Index(s, x) && ToFront(s, x)[i] == s[j]
  {
  }

  /** All addresses used in a trace, the most recent first. */
  function Recency(trace: seq<nat>): seq<nat> {
    if trace == [] then [] else ToFront(Recency(trace[..|trace| - 1]), trace[|trace| - 1])
  }

  /** The first `n` of them; 0 where there are fewer. */
  function Pad(r: seq<nat>, n: nat): (p: seq<nat>)
    ensures |p| == n && forall i :: 0 <= i < n ==> p[i] == if i < |r| then r[i] else 0
  {
    seq(n, i requires 0 <= i => if i < |r| then r[i] else 0)
  }

  ghost predicate Distinct(s: seq<nat>) {
    forall i, j :: 0 <= i < j < |s| ==> s[i] != s[j]
  }

  lemma ToFrontMembers(s: seq<nat>, x: nat)
    ensures forall y :: y in ToFront(s, x) <==> y in s || y == x
    ensures Distinct(s) ==> Distinct(ToFront(s, x))
    ensures Distinct(s) && x in s ==> |ToFront(s, x)| == |s|
  {
    var k, t := Index(s, x), ToFront(s, x);
    forall y | y in s
      ensures y in t
    {
      var i :| 0 <= i < |s| && s[i] == y;
      assert t[if i < k then i + 1 else if i == k then 0 else i] == y;
    }
    assert t[0] == x;
  }

  /** The last use of an address, counted from 1; 0 if it is never used. */
  function LastUse(trace: seq<nat>, a: nat): (n: nat)
    ensures n <= |trace| && (n > 0 <==> a in trace)
  {
    if trace == [] then 0
    else if trace[|trace| - 1] == a then |trace|
    else LastUse(trace[..|trace| - 1], a)
  }

  ghost predicate ByLastUse(trace: seq<nat>, r: seq<nat>) {
    forall i, j :: 0 <= i < j < |r| ==> LastUse(trace, r[i]) > LastUse(trace, r[j])
  }

  /** Recency lists exactly the addresses used, once each, in the order of their last use. */
  ghost predicate RecencyOk(trace: seq<nat>) {
    && Distinct(Recency(trace))
    && (forall a :: a in Recency(trace) <==> a in trace)
    && ByLastUse(trace, Recency(trace))
  }

  lemma {:induction false} RecencyIs(trace: seq<nat>)
    ensures RecencyOk(trace)
  {
    if trace == [] {
      RecencyEmpty();
    } else {
      RecencyIs(trace[..|trace| - 1]);
      RecencySnoc(trace[..|trace| - 1], trace[|trace| - 1], trace);
    }
  }

  lemma RecencyDistinct(trace: seq<nat>)
    ensures Distinct(Recency(trace))
  {
    RecencyIs(trace);
  }

  lemma RecencyEmpty()
    ensures RecencyOk([])
  {
  }

  lemma RecencySnoc(before: seq<nat>, a: nat, trace: seq<nat>)
    requires RecencyOk(before) && trace == before + [a]
    ensures RecencyOk(trace)
  {
    assert trace[..|before|] == before;
    ToFrontMembers(Recency(before), a);
    RecencyOrder(before, a);
  }

  lemma LastUseSnoc(before: seq<nat>, a: nat, x: nat)
    ensures LastUse(before + [a], x) == if x == a then |before| + 1 else LastUse(before, x)
  {
    assert (before + [a])[..|before|] == before;
  }

  lemma RecencyOrder(before: seq<nat>, a: nat)
    requires Distinct(Recency(before)) && ByLastUse(before, Recency(before))
    ensures ByLastUse(before + [a], ToFront(Recency(before), a))
  {
    var was, r := Recency(before), ToFront(Recency(before), a);
    forall i, j | 0 <= i < j < |r|
      ensures LastUse(before + [a], r[i]) > LastUse(before + [a], r[j])
    {
      ToFrontAt(was, a, j);
      NotAgain(was, a, j);
      LastUseSnoc(before, a, r[j]);
      LastUseSnoc(before, a, r[i]);
      if i > 0 {
        ToFrontAt(was, a, i);
        NotAgain(was, a, i);
      }
    }
  }

  lemma NotAgain(s: seq<nat>, x: nat, i: nat)
    requires Distinct(s) && 0 < i < |ToFront(s, x)|
    ensures ToFront(s, x)[i] != x
  {
    ToFrontAt(s, x, i);
  }

  /** A larger array holds all that a smaller one holds, in the same order, on the same trace. */
  lemma Inclusion(trace: seq<nat>, n: nat, m: nat)
    requires n <= m
    ensures Pad(Recency(trace), n) == Pad(Recency(trace), m)[..n]
    ensures forall a :: a in Pad(Recency(trace), n) ==> a in Pad(Recency(trace), m)
  {
  }

  /** A hit among the first `n` moves to the front. */
  lemma PadHit(r: seq<nat>, n: nat, a: nat, k: nat)
    requires a != 0 && k < n && Pad(r, n)[k] == a && Distinct(r)
    ensures var p := Pad(r, n); Pad(ToFront(r, a), n) == [a] + p[..k] + p[k + 1..]
  {
    assert r[k] == a;
    IndexIs(r, a, k);
  }

  lemma InPad(r: seq<nat>, n: nat, k: nat)
    requires k < n && k < |r|
    ensures r[k] in Pad(r, n)
  {
    assert Pad(r, n)[k] == r[k];
  }

  /** A miss pushes out the last of the first `n`. */
  lemma PadMiss(r: seq<nat>, n: nat, a: nat)
    requires n > 0 && a != 0 && a !in Pad(r, n)
    ensures Pad(ToFront(r, a), n) == [a] + Pad(r, n)[..n - 1]
  {
    var k := Index(r, a);
    if k < |r| && k < n {
      InPad(r, n, k);
    }
  }

  // ----- the array -----

  ghost predicate InRange(list: seq<nat>, n: nat) {
    forall i :: 0 <= i < |list| ==> list[i] < n
  }

  /** The addresses of the lines, in the order of a list of line ids. */
  function Addresses(addrs: seq<nat>, list: seq<nat>): (s: seq<nat>)
    requires InRange(list, |addrs|)
    ensures |s| == |list| && forall i :: 0 <= i < |list| ==> s[i] == addrs[list[i]]
  {
    seq(|list|, i requires 0 <= i < |list| && InRange(list, |addrs|) => addrs[list[i]])
  }

  /** The list holds every line once. */
  ghost predicate AllLines(list: seq<nat>, n: nat) {
    && |list| == n && Distinct(list)
    && InRange(list, n)
    && (forall id: nat :: id < n ==> id in list)
  }

  /** The map finds exactly the addresses held. */
  ghost predicate Mapped(addrs: seq<nat>, lineMap: map<nat, nat>) {
    && (forall a :: a in lineMap ==> a != 0 && lineMap[a] < |addrs| && addrs[lineMap[a]] == a)
    && (forall id :: 0 <= id < |addrs| && addrs[id] != 0 ==> addrs[id] in lineMap && lineMap[addrs[id]] == id)
  }

  lemma MoveLine(list: seq<nat>, id: nat, n: nat)
    requires AllLines(list, n) && id < n
    ensures AllLines(ToFront(list, id), n)
  {
    ToFrontMembers(list, id);
    var t := ToFront(list, id);
    forall i | 0 <= i < n
      ensures t[i] < n
    {
      assert t[i] in list;
    }
  }

  lemma IndexOf(list: seq<nat>, id: nat, n: nat)
    requires AllLines(list, n) && id < n
    ensures Index(list, id) < n && list[Index(list, id)] == id
  {
    assert id in list;
  }

  /** What moving a line to the front, perhaps with a new address, does to the order of addresses. */
  lemma MoveAddress(addrs: seq<nat>, list: seq<nat>, id: nat, a: nat)
    requires AllLines(list, |addrs|) && AllLines(ToFront(list, id), |addrs|) && id < |addrs|
    ensures var k, s := Index(list, id), Addresses(addrs, list);
            && k < |list| && s[k] == addrs[id]
            && Addresses(addrs[id := a], ToFront(list, id)) == [a] + s[..k] + s[k + 1..]
  {
    IndexOf(list, id, |addrs|);
    MovedAddresses(addrs, list, ToFront(list, id), id, a, Index(list, id));
  }

  lemma MovedAddresses(addrs: seq<nat>, list: seq<nat>, moved: seq<nat>, id: nat, a: nat, k: nat)
    requires InRange(list, |addrs|) && InRange(moved, |addrs|) && id < |addrs|
    requires Distinct(list) && k < |list| && list[k] == id && moved == [id] + list[..k] + list[k + 1..]
    ensures var s := Addresses(addrs, list); Addresses(addrs[id := a], moved) == [a] + s[..k] + s[k + 1..]
  {
    var s := Addresses(addrs, list);
    var l, r := Addresses(addrs[id := a], moved), [a] + s[..k] + s[k + 1..];
    forall i | 0 <= i < |l|
      ensures l[i] == r[i]
    {
      if i > 0 {
        var j := if i <= k then i - 1 else i;
        assert moved[i] == list[j] != list[k] && r[i] == s[j];
      }
    }
  }

  /** The map finds exactly the addresses of the stack. */
  lemma HeldIs(held: seq<nat>, order: seq<nat>, lineMap: map<nat, nat>, a: nat)
    requires AllLines(order, |held|) && Mapped(held, lineMap) && a != 0
    ensures a in lineMap <==> a in Addresses(held, order)
  {
    var stack := Addresses(held, order);
    if a in lineMap {
      var id := lineMap[a];
      assert id in order;
      var k :| 0 <= k < |order| && order[k] == id;
      assert stack[k] == a;
    }
    if a in stack {
      var i :| 0 <= i < |stack| && stack[i] == a;
      assert held[order[i]] == a;
    }
  }

  /** To move a line to the front is to move its address to the front of the stack. */
  lemma TouchedStack(held: seq<nat>, order: seq<nat>, lineMap: map<nat, nat>, id: nat)
    requires AllLines(order, |held|) && Mapped(held, lineMap) && id < |held| && held[id] != 0
    ensures AllLines(ToFront(order, id), |held|)
    ensures Addresses(held, ToFront(order, id)) == ToFront(Addresses(held, order), held[id])
  {
    MoveLine(order, id, |held|);
    MoveAddress(held, order, id, held[id]);
    assert held[id := held[id]] == held;
    var stack, k := Addresses(held, order), Index(order, id);
    forall i | 0 <= i < k
      ensures stack[i] != held[id]
    {
      assert order[i] != id;
    }
    IndexIs(stack, held[id], k);
  }

  lemma MappedAnew(held: seq<nat>, lineMap: map<nat, nat>, id: nat, a: nat)
    requires Mapped(held, lineMap) && id < |held| && a != 0 && (a in lineMap ==> lineMap[a] == id)
    ensures a !in lineMap - {held[id]} && Mapped(held[id := a], (lineMap - {held[id]})[a := id])
  {
  }

  /** Element `k` has moved to the front. */
  function Rotated<T>(s: seq<T>, k: nat): (t: seq<T>)
    requires k < |s|
    ensures |t| == |s|
  {
    [s[k]] + s[..k] + s[k + 1..]
  }

  /** An access to an address that is held moves it to the front. */
  lemma AccessHits(trace: seq<nat>, n: nat, a: nat)
    requires a != 0
    ensures var s := Pad(Recency(trace), n); a in s ==> Pad(Recency(trace + [a]), n) == ToFront(s, a)
  {
    var s := Pad(Recency(trace), n);
    RecencyDistinct(trace);
    assert (trace + [a])[..|trace|] == trace;
    if a in s {
      PadHit(Recency(trace), n, a, Index(s, a));
    }
  }

  lemma CountdownLists(order: seq<nat>)
    requires forall k :: 0 <= k < |order| ==> order[k] == |order| - 1 - k
    ensures AllLines(order, |order|)
  {
    forall id: nat | id < |order|
      ensures id in order
    {
      assert order[|order| - 1 - id] == id;
    }
  }

  lemma RotatedLine(order: seq<nat>, id: nat, n: nat) returns (k: nat)
    requires AllLines(order, n) && id < n
    ensures k < |order| && order[k] == id && Rotated(order, k) == ToFront(order, id) && AllLines(ToFront(order, id), n)
  {
    k := Index(order, id);
    IndexOf(order, id, n);
    MoveLine(order, id, n);
  }

  /** The numbers of the lines that the nodes carry. */
  function IdsOf(nodes: seq<Node<nat>>): (ids: seq<nat>)
    ensures |ids| == |nodes| && forall i :: 0 <= i < |nodes| ==> ids[i] == nodes[i].data
  {
    seq(|nodes|, i requires 0 <= i < |nodes| => nodes[i].data)
  }

  /** The nodes are those of the lines whose numbers they carry. */
  ghost predicate Match(nodes: seq<Node<nat>>, entries: seq<Node<nat>>) {
    forall k :: 0 <= k < |nodes| ==> nodes[k].data < |entries| && entries[nodes[k].data] == nodes[k]
  }

  lemma RotatedMatch(nodes: seq<Node<nat>>, entries: seq<Node<nat>>, k: nat)
    requires Match(nodes, entries) && k < |nodes|
    ensures Match(Rotated(nodes, k), entries) && IdsOf(Rotated(nodes, k)) == Rotated(IdsOf(nodes), k)
  {
    forall i | 0 <= i < |nodes|
      ensures Rotated(nodes, k)[i] == nodes[if i == 0 then k else if i <= k then i - 1 else i]
    {
    }
    assert IdsOf(Rotated(nodes, k)) == Rotated(IdsOf(nodes), k);
  }

  class IdealLRUArray {
    const entries: array<Node<nat>>   // the list element of every line, which carries the line's number
    const lines: array<nat>           // the address of every line
    const lruList: List<nat>          // the most recently used line first
    var lineMap: map<nat, nat>        // address to line id

    /** The elements of the list are those of the lines. */
    ghost predicate Shape()
      reads entries, lines, lruList, lruList.nodes
    {
      && entries.Length == lines.Length > 0 && lruList.Valid() && Match(lruList.nodes, entries[..])
      && forall id :: 0 <= id < entries.Length ==> entries[id].data == id
    }

    ghost predicate Valid()
      reads this, entries, lines, lruList, lruList.nodes
    {
      Shape() && AllLines(Order(), lines.Length) && Mapped(lines[..], lineMap)
    }

    /** The numbers of the lines, the most recently used one first. */
    ghost function Order(): seq<nat>
      reads lruList
    {
      IdsOf(lruList.nodes)
    }

    /** The addresses of the lines, the most recently used first; 0 for empty lines. */
    ghost function Stack(): seq<nat>
      requires InRange(Order(), lines.Length)
      reads lines, lruList
    {
      Addresses(lines[..], Order())
    }

    constructor (numLines: nat)
      requires numLines > 0
      ensures Valid() && fresh(lines) && fresh(entries) && fresh(entries[..]) && fresh(lruList)
      ensures lines.Length == numLines && Stack() == Pad(Recency([]), numLines)
    {
      lines := new nat[numLines](i => 0);
      var list := new List<nat>();
      var all := NewEntries(numLines, list);
      entries, lruList, lineMap := all, list, map[];
      new;
      CountdownLists(Order());
    }

    /** The first `n` lines are on the list, the last one first. */
    static ghost predicate Begun(list: List<nat>, all: seq<Node<nat>>, n: nat)
      reads list, list.nodes
    {
      && list.Valid() && |list.nodes| == n <= |all|
      && (forall j :: 0 <= j < n ==> all[j].data == j)
      && (forall k :: 0 <= k < n ==> list.nodes[k] == all[n - 1 - k])
    }

    /** Pushes all lines to the front of the list, one after the other. */
    static method NewEntries(numLines: nat, list: List<nat>) returns (all: array<Node<nat>>)
      requires numLines > 0 && list.Valid() && list.nodes == []
      modifies list
      ensures fresh(all) && all.Length == numLines && fresh(all[..]) && Begun(list, all[..], numLines)
    {
      var unused := new Node<nat>(0);
      all := new Node<nat>[numLines](i => unused);
      var i := 0;
      while i < numLines
        invariant i <= numLines && Begun(list, all[..], i) && fresh(list.nodes) && fresh(all[..])
      {
        NewEntry(list, all, i);
        i := i + 1;
      }
    }

    static method NewEntry(list: List<nat>, all: array<Node<nat>>, i: nat)
      requires i < all.Length && Begun(list, all[..], i)
      modifies list, list.nodes, all
      ensures Begun(list, all[..], i + 1) && fresh(all[i])
      ensures list.nodes == [all[i]] + old(list.nodes) && all[..] == old(all[..])[i := all[i]]
    {
      ghost var was, before := list.nodes, all[..];
      var e := new Node<nat>(i);
      list.PushFront(e);
      all[i] := e;
      NextBegun(was, list.nodes, before, all[..], i);
    }

    lemma ListedAreEntries()
      requires Shape()
      ensures forall e :: e in lruList.nodes ==> e in entries[..]
    {
      forall k | 0 <= k < |lruList.nodes|
        ensures lruList.nodes[k] in entries[..]
      {
        assert entries[..][lruList.nodes[k].data] == lruList.nodes[k];
      }
    }

    /** Takes element `k` out of the list and puts it in front. */
    method Relink(e: Node<nat>, ghost k: nat)
      requires Shape() && k < |lruList.nodes| && lruList.nodes[k] == e
      modifies lruList, entries[..]
      ensures Shape() && Order() == Rotated(old(Order()), k)
    {
      ListedAreEntries();
      ghost var nodes := lruList.nodes;
      RotatedMatch(nodes, entries[..], k);
      lruList.Remove(e, k);
      lruList.PushFront(e);
      assert lruList.nodes == Rotated(nodes, k);
    }

    /** Takes a line out of the list and puts it in front. */
    method MoveToFront(id: nat)
      requires Valid() && id < lines.Length
      modifies lruList, entries[..]
      ensures Valid() && Order() == ToFront(old(Order()), id)
    {
      ghost var k := RotatedLine(Order(), id, lines.Length);
      FoundAt(id, k);
      Relink(entries[id], k);
    }

    lemma FoundAt(id: nat, k: nat)
      requires Shape() && k < |lruList.nodes| && Order()[k] == id < entries.Length
      ensures lruList.nodes[k] == entries[id]
    {
      assert entries[..][lruList.nodes[k].data] == lruList.nodes[k];
    }

    /** Finds a line, and makes it the most recently used one if asked to. */
    method Lookup(lineAddr: nat, updateReplacement: bool) returns (lineId: Option<nat>)
      requires Valid() && lineAddr != 0
      modifies lruList, entries[..]
      ensures Valid() && (lineId.Some? <==> lineAddr in old(Stack()))
      ensures lineId.Some? ==> lineId.value < lines.Length && lines[lineId.value] == lineAddr
      ensures if lineId.Some? && updateReplacement then Stack() == ToFront(old(Stack()), lineAddr)
              else Stack() == old(Stack())
    {
      lineId := Find(lineAddr);
      if lineId.Some? && updateReplacement {
        TouchedStack(lines[..], Order(), lineMap, lineId.value);
        MoveToFront(lineId.value);
      }
    }

    method Find(lineAddr: nat) returns (lineId: Option<nat>)
      requires Valid() && lineAddr != 0
      ensures lineId.Some? <==> lineAddr in Stack()
      ensures lineId.Some? ==> lineId.value < lines.Length && lines[lineId.value] == lineAddr
    {
      HeldIs(lines[..], Order(), lineMap, lineAddr);
      lineId := if lineAddr in lineMap then Some(lineMap[lineAddr]) else None;
    }

    /** The victim is the least recently used line. */
    method Preinsert() returns (lineId: nat, wbLineAddr: nat)
      requires Valid()
      ensures lineId < lines.Length && lineId == Order()[lines.Length - 1]
      ensures wbLineAddr == lines[lineId] == Stack()[lines.Length - 1]
    {
      assert lruList.tail == lruList.nodes[lines.Length - 1];
      lineId := lruList.tail.data;
      wbLineAddr := lines[lineId];
    }

    /** Gives a line a new address, and makes it the most recently used one. */
    method Postinsert(lineAddr: nat, lineId: nat)
      requires Valid() && lineAddr != 0 && lineId < lines.Length
      requires lineAddr in lineMap ==> lineMap[lineAddr] == lineId
      modifies this, lines, lruList, entries[..]
      ensures Valid() && lines[..] == old(lines[..])[lineId := lineAddr]
      ensures var k, s := Index(old(Order()), lineId), old(Stack());
              k < |s| && Stack() == [lineAddr] + s[..k] + s[k + 1..]
    {
      MoveLine(Order(), lineId, lines.Length);
      MoveAddress(lines[..], Order(), lineId, lineAddr);
      Renew(lineAddr, lineId);
    }

    method Renew(lineAddr: nat, lineId: nat)
      requires Valid() && lineAddr != 0 && lineId < lines.Length
      requires lineAddr in lineMap ==> lineMap[lineAddr] == lineId
      modifies this, lines, lruList, entries[..]
      ensures Valid() && lines[..] == old(lines[..])[lineId := lineAddr] && Order() == ToFront(old(Order()), lineId)
    {
      GiveAddress(lineAddr, lineId);
      MoveToFront(lineId);
    }

    method GiveAddress(lineAddr: nat, lineId: nat)
      requires Valid() && lineAddr != 0 && lineId < lines.Length
      requires lineAddr in lineMap ==> lineMap[lineAddr] == lineId
      modifies `lineMap, lines
      ensures Valid() && lines[..] == old(lines[..])[lineId := lineAddr]
    {
      MappedAnew(lines[..], lineMap, lineId, lineAddr);
      lineMap := lineMap - {lines[lineId]};
      assert lineAddr !in lineMap;
      lines[lineId] := lineAddr;
      lineMap := lineMap[lineAddr := lineId];
    }

    /** One access of the cache: a line that is not found takes the place of the victim. After it the array holds the
        most recently used addresses, as many as there are lines. */
    method Access(lineAddr: nat, ghost trace: seq<nat>) returns (hit: bool)
      requires Valid() && lineAddr != 0 && Stack() == Pad(Recency(trace), lines.Length)
      modifies this, lines, lruList, entries[..]
      ensures Valid() && Stack() == Pad(Recency(trace + [lineAddr]), lines.Length)
      ensures hit <==> lineAddr in Pad(Recency(trace), lines.Length)
    {
      AccessHits(trace, lines.Length, lineAddr);
      var lineId := Lookup(lineAddr, true);
      hit := lineId.Some?;
      if !hit {
        Insert(lineAddr, trace);
      }
    }

    method Insert(lineAddr: nat, ghost trace: seq<nat>)
      requires Valid() && lineAddr != 0 && Stack() == Pad(Recency(trace), lines.Length) && lineAddr !in Stack()
      modifies this, lines, lruList, entries[..]
      ensures Valid() && Stack() == Pad(Recency(trace + [lineAddr]), lines.Length)
    {
      RecencyDistinct(trace);
      assert (trace + [lineAddr])[..|trace|] == trace;
      var victim, wbLineAddr := Preinsert();
      PadMiss(Recency(trace), lines.Length, lineAddr);
      HeldIs(lines[..], Order(), lineMap, lineAddr);
      LastIndex(Order());
      Postinsert(lineAddr, victim);
    }
  }

  /** One more line is on the list. */
  lemma NextBegun(was: seq<Node<nat>>, nodes: seq<Node<nat>>, before: seq<Node<nat>>, all: seq<Node<nat>>, n: nat)
    requires |was| == n < |all| == |before| && nodes == [all[n]] + was && all == before[n := all[n]]
    requires all[n].data == n
    requires forall j :: 0 <= j < n ==> before[j].data == j
    requires forall k :: 0 <= k < n ==> was[k] == before[n - 1 - k]
    ensures forall j :: 0 <= j < n + 1 ==> all[j].data == j
    ensures forall k :: 0 <= k < n + 1 ==> nodes[k] == all[n - k]
  {
    forall k | 0 <= k < n + 1
      ensures nodes[k] == all[n - k]
    {
      assert k > 0 ==> nodes[k] == was[k - 1];
    }
  }

  lemma LastIndex(list: seq<nat>)
    requires Distinct(list) && list != []
    ensures Index(list, list[|list| - 1]) == |list| - 1
  {
    IndexIs(list, list[|list| - 1], |list| - 1);
  }
}
