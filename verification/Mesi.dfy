/** The MESI controllers of one cache, for one line: what the bottom controller does with the line's own
    state, and what the top controller does with the line's directory entry. Every assertion of the
    simulator is a step that can give Panic. */
module Mesi {

  datatype State = I | S | E | M
  datatype AccessType = GETS | GETX | PUTS | PUTX
  datatype InvType = INV | INVX

  /** The result of code that contains assertions. */
  datatype Outcome<+T> = Panic | Ok(value: T)
  {
    predicate IsFailure() { Panic? }
    function PropagateFailure<U>(): Outcome<U>
      requires Panic?
    { Panic }
    function Extract(): T
      requires Ok?
    { value }
  }

  function Assert(b: bool): Outcome<()> {
    if b then Ok(()) else Panic
  }

  /** E or M: the cache may write the line without asking. */
  predicate Exclusive(s: State) {
    s == E || s == M
  }

  /** The permission order: a child may never hold more than its parent. */
  predicate Covers(parent: State, child: State) {
    && (child != I ==> parent != I)
    && (Exclusive(child) ==> Exclusive(parent))
  }

  predicate IsPut(k: AccessType) {
    k == PUTS || k == PUTX
  }

  // ----- the race check -----

  /** Repairs a request whose line was invalidated or downgraded while it was under way: the request to
      go on with, and whether to skip it. */
  function CheckForMESIRace(kind: AccessType, state: State, initial: State): Outcome<(AccessType, bool)> {
    if state == initial then Ok((kind, false))
    else
      match kind
      case PUTS =>
        if state == I then Ok((kind, true))
        else var _ :- Assert(state == S); Ok((PUTS, false))
      case PUTX =>
        if state == I then Ok((kind, true))
        else var _ :- Assert(state == S); Ok((PUTS, false))
      case GETX =>
        var _ :- Assert(initial == S && state == I); Ok((kind, false))
      case GETS => Panic
  }

  // ----- the bottom controller -----

  /** A GET that the cache cannot satisfy from its own state. */
  predicate NeedsParent(kind: AccessType, state: State) {
    (kind == GETS && state == I) || (kind == GETX && (state == I || state == S))
  }

  /** The cache's own part of an access that needs no parent. */
  function BottomAccess(kind: AccessType, state: State): Outcome<State> {
    match kind
    case PUTS => var _ :- Assert(state != I); Ok(state)
    case PUTX => var _ :- Assert(Exclusive(state)); Ok(M)
    case GETS => var _ :- Assert(state != I); Ok(state)
    case GETX => var _ :- Assert(Exclusive(state)); Ok(M)
  }

  /** The state in which a GET may leave the requester. */
  predicate GoodFinalState(kind: AccessType, state: State) {
    match kind
    case GETS => state == S || state == E
    case GETX => state == M
    case _ => state == I
  }

  /** The new state, and whether the cache held dirty data. */
  function BottomInval(kind: InvType, state: State): Outcome<(State, bool)> {
    match kind
    case INVX => var _ :- Assert(Exclusive(state)); Ok((S, state == M))
    case INV => var _ :- Assert(state != I); Ok((I, state == M))
  }

  /** Dirty data that came from below makes the cache's own copy dirty. */
  function TakeWriteback(state: State, lowerLevelWriteback: bool): Outcome<State> {
    if lowerLevelWriteback then
      var _ :- Assert(Exclusive(state));
      Ok(M)
    else Ok(state)
  }

  function PutKind(state: State): AccessType {
    if state == M then PUTX else PUTS
  }

  // ----- the top controller -----

  /** A directory entry. */
  datatype Entry = Entry(numSharers: nat, sharers: set<nat>, exclusive: bool)
  {
    predicate IsEmpty() { numSharers == 0 }
    predicate IsExclusive() { numSharers == 1 && exclusive }
  }

  const EMPTY_ENTRY := Entry(0, {}, false)

  /** The children to which an invalidation or downgrade goes. */
  function Targets(e: Entry, kind: InvType): set<nat> {
    if (kind == INVX && !e.IsExclusive()) || e.IsEmpty() then {} else e.sharers
  }

  /** One child has answered. */
  function AfterReply(e: Entry, kind: InvType, child: nat): Entry {
    if kind == INV then e.(sharers := e.sharers - {child}) else e
  }

  /** All children have answered. */
  function AfterSends(e: Entry, kind: InvType, sent: nat): Outcome<Entry> {
    var _ :- Assert(sent == e.numSharers);
    if kind == INV then Ok(e.(numSharers := 0))
    else
      var _ :- Assert(e.exclusive && e.numSharers == 1);
      Ok(e.(exclusive := false))
  }

  /** A PUT takes the child out of the directory. */
  function TopPut(e: Entry, kind: AccessType, child: nat): Outcome<Entry> {
    var _ :- Assert(kind == PUTX ==> e.IsExclusive());
    var _ :- Assert(child in e.sharers && e.numSharers > 0);
    Ok(e.(sharers := e.sharers - {child}, numSharers := e.numSharers - 1))
  }

  /** The part of a GET before other copies are recalled. */
  function BeforeSends(e: Entry, kind: AccessType, child: nat, haveExclusive: bool): Outcome<Entry> {
    if kind == GETX then
      var _ :- Assert(haveExclusive);
      if child in e.sharers then
        var _ :- Assert(!e.IsExclusive() && e.numSharers > 0);
        Ok(e.(sharers := e.sharers - {child}, numSharers := e.numSharers - 1))
      else Ok(e)
    else Ok(e)
  }

  /** A GETS to an uncached line takes it in E. */
  predicate GivesE(e: Entry, kind: AccessType, haveExclusive: bool, noExcl: bool) {
    kind == GETS && e.IsEmpty() && haveExclusive && !noExcl
  }

  function SendKind(kind: AccessType): InvType {
    if kind == GETX then INV else INVX
  }

  /** The part of a GET after other copies were recalled: the new entry and the child's new state. */
  function Grant(e: Entry, kind: AccessType, child: nat, haveExclusive: bool, noExcl: bool): Outcome<(Entry, State)> {
    if GivesE(e, kind, haveExclusive, noExcl) then
      Ok((Entry(1, e.sharers + {child}, true), E))
    else if kind == GETX then
      var _ :- Assert(e.numSharers == 0);
      Ok((Entry(1, e.sharers + {child}, true), M))
    else
      var _ :- Assert(child !in e.sharers && !e.IsExclusive());
      Ok((Entry(e.numSharers + 1, e.sharers + {child}, false), S))
  }

  // ----- all sends together -----

  /** The entry after all children that must be told have answered. */
  function AllSent(e: Entry, kind: InvType): Entry {
    if Targets(e, kind) == {} then e
    else if kind == INV then Entry(0, {}, e.exclusive)
    else e.(exclusive := false)
  }

  ghost function Replies(e: Entry, kind: InvType, order: seq<nat>): Entry {
    if order == [] then e else AfterReply(Replies(e, kind, order[..|order| - 1]), kind, order[|order| - 1])
  }

  lemma {:induction false} RepliesClear(e: Entry, kind: InvType, order: seq<nat>)
    ensures Replies(e, kind, order) ==
            e.(sharers := if kind == INV then e.sharers - set i: nat | i < |order| :: order[i] else e.sharers)
  {
    if order != [] {
      var prefix := order[..|order| - 1];
      RepliesClear(e, kind, prefix);
      var last := order[|order| - 1];
      assert (set i: nat | i < |order| :: order[i]) == (set i: nat | i < |prefix| :: prefix[i]) + {last} by {
        forall i: nat | i < |order|
          ensures order[i] in (set j: nat | j < |prefix| :: prefix[j]) + {last}
        {
          assert i < |prefix| ==> prefix[i] == order[i];
        }
        forall i: nat | i < |prefix|
          ensures prefix[i] in (set j: nat | j < |order| :: order[j])
        {
          assert order[i] == prefix[i];
        }
      }
    }
  }

  /** The children may answer in any order: the assertions hold, and the entry is the same. */
  lemma AnyOrder(e: Entry, kind: InvType, order: seq<nat>)
    requires e.numSharers == |e.sharers| && Targets(e, kind) != {}
    requires |order| == |e.sharers| && (set i: nat | i < |order| :: order[i]) == e.sharers
    ensures AfterSends(Replies(e, kind, order), kind, |order|) == Ok(AllSent(e, kind))
  {
    RepliesClear(e, kind, order);
    assert e.sharers - (set i: nat | i < |order| :: order[i]) == {};
  }

  /** A child's access as the top controller handles it: the new entry and the child's new state. */
  function TopAccess(e: Entry, kind: AccessType, child: nat, haveExclusive: bool, noExcl: bool)
    : Outcome<(Entry, State)>
  {
    if IsPut(kind) then
      var e' :- TopPut(e, kind, child);
      Ok((e', I))
    else if GivesE(e, kind, haveExclusive, noExcl) then Grant(e, kind, child, haveExclusive, noExcl)
    else
      var e' :- BeforeSends(e, kind, child, haveExclusive);
      Grant(AllSent(e', SendKind(kind)), kind, child, haveExclusive, noExcl)
  }

  /** The children that an access recalls. */
  function Recalled(e: Entry, kind: AccessType, child: nat, haveExclusive: bool, noExcl: bool): set<nat> {
    if IsPut(kind) || GivesE(e, kind, haveExclusive, noExcl) then {}
    else
      match BeforeSends(e, kind, child, haveExclusive)
      case Ok(e') => Targets(e', SendKind(kind))
      case Panic => {}
  }

  /** A load gives E if no child has the line and the cache may write it, unless that is not wanted; otherwise it gives
      S, and recalls the line from a child that may write it. */
  lemma LoadGives(e: Entry, child: nat, haveExclusive: bool, noExcl: bool)
    requires TopAccess(e, GETS, child, haveExclusive, noExcl).Ok? && e.numSharers == |e.sharers|
    ensures var (e', s) := TopAccess(e, GETS, child, haveExclusive, noExcl).value;
            && s == (if e.sharers == {} && haveExclusive && !noExcl then E else S)
            && e'.sharers == e.sharers + {child} && e'.numSharers == |e'.sharers| && (e'.exclusive <==> s == E)
    ensures Recalled(e, GETS, child, haveExclusive, noExcl) ==
            if |e.sharers| == 1 && e.exclusive then e.sharers else {}
  {
    if e.IsEmpty() {
      assert e.sharers == {} && {} + {child} == {child};
    }
    if !GivesE(e, GETS, haveExclusive, noExcl) {
      assert child !in AllSent(e, INVX).sharers && AllSent(e, INVX).sharers == e.sharers;
    }
  }

  /** A store gives M, recalls the line from all other children, and leaves it with none of them. */
  lemma StoreGives(e: Entry, child: nat, haveExclusive: bool, noExcl: bool)
    requires TopAccess(e, GETX, child, haveExclusive, noExcl).Ok? && e.numSharers == |e.sharers|
    ensures var (e', s) := TopAccess(e, GETX, child, haveExclusive, noExcl).value;
            s == M && e' == Entry(1, {child}, true)
    ensures Recalled(e, GETX, child, haveExclusive, noExcl) == e.sharers - {child}
  {
    var e' := BeforeSends(e, GETX, child, haveExclusive).value;
    assert e'.sharers == e.sharers - {child};
    if child in e.sharers {
      assert |e.sharers - {child}| == |e.sharers| - 1;
    }
    assert e'.numSharers == |e'.sharers|;
    assert AllSent(e', INV).sharers == {} && {} + {child} == {child};
  }

  /** A PUT leaves the line with all children but that one. */
  lemma PutGives(e: Entry, kind: AccessType, child: nat, haveExclusive: bool, noExcl: bool)
    requires TopAccess(e, kind, child, haveExclusive, noExcl).Ok? && e.numSharers == |e.sharers| && IsPut(kind)
    ensures var (e', s) := TopAccess(e, kind, child, haveExclusive, noExcl).value;
            && s == I && child in e.sharers && e' == Entry(|e.sharers| - 1, e.sharers - {child}, e.exclusive)
            && (kind == PUTX ==> e.sharers == {child} && e.exclusive)
    ensures Recalled(e, kind, child, haveExclusive, noExcl) == {}
  {
    assert |e.sharers - {child}| == |e.sharers| - 1;
    if |e.sharers| == 1 {
      assert e.sharers - {child} == {};
      assert e.sharers == {child};
    }
  }

  /** A GET that recalls copies is its three parts one after the other, whatever the order of the answers. */
  lemma TopAccessInParts(e: Entry, kind: AccessType, child: nat, haveExclusive: bool, noExcl: bool, order: seq<nat>)
    requires !IsPut(kind) && !GivesE(e, kind, haveExclusive, noExcl) && BeforeSends(e, kind, child, haveExclusive).Ok?
    requires var e', sk := BeforeSends(e, kind, child, haveExclusive).value, SendKind(kind);
             && e'.numSharers == |e'.sharers| && Targets(e', sk) != {}
             && |order| == |e'.sharers| && (set i: nat | i < |order| :: order[i]) == Targets(e', sk)
    ensures var e', sk := BeforeSends(e, kind, child, haveExclusive).value, SendKind(kind);
            var e'' := AfterSends(Replies(e', sk, order), sk, |order|);
            && Recalled(e, kind, child, haveExclusive, noExcl) == Targets(e', sk)
            && e''.Ok?
            && TopAccess(e, kind, child, haveExclusive, noExcl) == Grant(e''.value, kind, child, haveExclusive, noExcl)
  {
    AnyOrder(BeforeSends(e, kind, child, haveExclusive).value, SendKind(kind), order);
  }
}
