/** What the caches are left with: the states in which loads, stores and evictions end, and that a cache holds dirty
    data only for a value that memory lacks. */
module MesiOutcomes {
  import opened Wrappers
  import opened Mesi
  import opened MesiTree
  import opened MesiSafety
  import opened MesiTheorems
  import opened MesiSpans
  import opened MesiProgress

  // ----- how requests end -----

  /** The states in which a request may leave the cache that has made it. */
  ghost predicate EndsIn(kind: AccessType, n: Node) {
    match kind
    case GETS => n.state == S || n.state == E
    case GETX => n.state == M
    case _ => n.state == I && n.job.Idle?
  }

  lemma AcceptedPut(p: Node, c: Node, ci: nat)
    requires c.up.Some? && ReqOk(c.up.value, c.state) && AcceptRequest(p, c, ci).Ok?
    ensures var d := AcceptRequest(p, c, ci).value.1; d.up.None? ==> EndsIn(c.up.value.kind, d)
    ensures IsPut(c.up.value.kind) ==> AcceptRequest(p, c, ci).value.1.up.None?
  {
  }

  lemma RepliedTo(p: Node, c: Node, ci: nat, kind: AccessType, noExcl: bool)
    requires c.up.Some? && c.up.value.kind == kind && !IsPut(kind) && Reply(p, c, ci, kind, noExcl).Ok?
    ensures var d := Reply(p, c, ci, kind, noExcl).value.1; d.up.None? && EndsIn(kind, d)
  {
  }

  lemma ReplyEnds(t: Topology, s: System, i: nat, r: Node, x: nat)
    requires Inv(t, s) && i < |s.nodes| && s.nodes[i].job.Serving? && r.job == s.nodes[i].job && r.up == s.nodes[i].up
    requires DoReply(t, s, i, r).Ok? && x < |s.nodes| && s.nodes[x].up.Some?
    ensures |DoReply(t, s, i, r).value.nodes| == |s.nodes|
    ensures var m := DoReply(t, s, i, r).value.nodes[x]; m.up.None? ==> EndsIn(s.nodes[x].up.value.kind, m)
  {
    ServingEdge(t, s, i);
    RepliedTo(r, s.nodes[r.job.child], r.job.child, r.job.kind, r.job.noExcl);
  }

  // ----- the caches that a step changes -----

  ghost predicate Involves(t: Topology, s: System, a: Action, x: nat)
    requires |s.nodes| == |t.parent| && Enabled(t, s, a)
  {
    if a.MemServe? then x == 0
    else
      || x == a.n
      || ((a.Accept? || a.InvDone?) && x == t.parent[a.n])
      || ((a.Serve? || a.Finish?) && x == s.nodes[a.n].job.child)
  }

  lemma ServeUntouched(t: Topology, s: System, i: nat, x: nat)
    requires |s.nodes| == |t.parent| && Enabled(t, s, Serve(i)) && Step(t, s, Serve(i)).Ok? && x < |s.nodes|
    requires !Involves(t, s, Serve(i), x)
    ensures Step(t, s, Serve(i)).value.nodes[x] == s.nodes[x]
  {
    var n := s.nodes[i];
    RecallKeepsJob(n, n.job.child, n.job.kind, n.job.noExcl);
    var r := Recall(n, n.job.child, n.job.kind, n.job.noExcl).value;
    if r.snd.None? {
      ReplyElsewhere(t, s, i, r, x);
    }
  }

  lemma Untouched(t: Topology, s: System, a: Action, x: nat)
    requires |s.nodes| == |t.parent| && Enabled(t, s, a) && Step(t, s, a).Ok? && x < |s.nodes| && !Involves(t, s, a, x)
    ensures Step(t, s, a).value.nodes[x] == s.nodes[x]
  {
    match a
    case Serve(i) => ServeUntouched(t, s, i, x);
    case Finish(i) => ReplyElsewhere(t, s, i, s.nodes[i], x);
    case _ =>
  }

  /** A parent that serves a request, whether it recalls the line first or replies at once. */
  lemma ServeEnds(t: Topology, s: System, i: nat, x: nat)
    requires Inv(t, s) && Enabled(t, s, Serve(i)) && Step(t, s, Serve(i)).Ok?
    requires x < |s.nodes| && s.nodes[x].up.Some?
    ensures var m := Step(t, s, Serve(i)).value.nodes[x]; m.up.None? ==> EndsIn(s.nodes[x].up.value.kind, m)
  {
    var n := s.nodes[i];
    ServingEdge(t, s, i);
    RecallKeepsJob(n, n.job.child, n.job.kind, n.job.noExcl);
    var r := Recall(n, n.job.child, n.job.kind, n.job.noExcl).value;
    if r.snd.None? {
      ReplyEnds(t, s, i, r, x);
    }
  }

  lemma AcceptEnds(t: Topology, s: System, i: nat, x: nat)
    requires Inv(t, s) && Enabled(t, s, Accept(i)) && Step(t, s, Accept(i)).Ok?
    requires x < |s.nodes| && s.nodes[x].up.Some?
    ensures var m := Step(t, s, Accept(i)).value.nodes[x]; m.up.None? ==> EndsIn(s.nodes[x].up.value.kind, m)
  {
    assert NodeOk(t, i, s.nodes[i]) && NodeOk(t, t.parent[i], s.nodes[t.parent[i]]);
    AcceptedPut(s.nodes[t.parent[i]], s.nodes[i], i);
    if x != i && x != t.parent[i] {
      Untouched(t, s, Accept(i), x);
    }
  }

  /** The steps that take no request: only memory ends one here. */
  lemma OtherEnds(t: Topology, s: System, a: Action, x: nat)
    requires Inv(t, s) && Enabled(t, s, a) && Step(t, s, a).Ok? && x < |s.nodes| && s.nodes[x].up.Some?
    requires !a.Accept? && !a.Serve? && !a.Finish? && Involves(t, s, a, x)
    ensures var m := Step(t, s, a).value.nodes[x]; m.up.None? ==> a.MemServe? && EndsIn(s.nodes[x].up.value.kind, m)
  {
    assert NodeOk(t, x, s.nodes[x]);
  }

  /** When a request is done, a load has left S or E, a store M, and an eviction I. */
  lemma RequestEnds(t: Topology, s: System, a: Action, x: nat)
    requires Safe(t, s) && Enabled(t, s, a) && x < |s.nodes| && s.nodes[x].up.Some?
    ensures Step(t, s, a).Ok? && x < |Step(t, s, a).value.nodes|
    ensures var m := Step(t, s, a).value.nodes[x]; m.up.None? ==> EndsIn(s.nodes[x].up.value.kind, m)
  {
    StepSafe(t, s, a);
    if !Involves(t, s, a, x) {
      Untouched(t, s, a, x);
    } else {
      match a
      case Accept(i) => AcceptEnds(t, s, i, x);
      case Serve(i) => ServeEnds(t, s, i, x);
      case Finish(i) => ReplyEnds(t, s, i, s.nodes[i], x);
      case _ => OtherEnds(t, s, a, x);
    }
  }

  /** A job ends only when its own request or reply does. */
  lemma EvictingStays(t: Topology, s: System, a: Action, x: nat)
    requires Inv(t, s) && Enabled(t, s, a) && Step(t, s, a).Ok? && x < |s.nodes| && s.nodes[x].job.Evicting?
    requires Involves(t, s, a, x) && a != Accept(x) && a != EvictUp(x) && !a.MemServe?
    ensures Step(t, s, a).value.nodes[x].job.Evicting?
  {
    assert NodeOk(t, x, s.nodes[x]);
    if a.Serve? || a.Finish? {
      ServingEdge(t, s, a.n);
    }
  }

  lemma PutAccepted(t: Topology, s: System, x: nat)
    requires Inv(t, s) && Enabled(t, s, Accept(x)) && Step(t, s, Accept(x)).Ok? && s.nodes[x].job.Evicting?
    ensures var m := Step(t, s, Accept(x)).value.nodes[x]; m.state == I && m.job.Idle?
  {
    assert NodeOk(t, x, s.nodes[x]);
    AcceptedPut(s.nodes[t.parent[x]], s.nodes[x], x);
  }

  /** An eviction ends with an invalid line, whether or not the parent had to be told. */
  lemma EvictionEnds(t: Topology, s: System, a: Action, x: nat)
    requires Safe(t, s) && Enabled(t, s, a) && x < |s.nodes| && s.nodes[x].job.Evicting?
    ensures Step(t, s, a).Ok? && x < |Step(t, s, a).value.nodes|
    ensures var m := Step(t, s, a).value.nodes[x]; !m.job.Evicting? ==> m.state == I && m.job.Idle?
  {
    StepSafe(t, s, a);
    assert NodeOk(t, x, s.nodes[x]);
    if !Involves(t, s, a, x) {
      Untouched(t, s, a, x);
    } else if a == Accept(x) {
      PutAccepted(t, s, x);
    } else if a != EvictUp(x) && !a.MemServe? {
      EvictingStays(t, s, a, x);
    }
  }

  // ----- the state that a load gets -----

  /** No child of `i` has a copy. */
  ghost predicate NoneBelow(t: Topology, s: System, i: nat)
    requires |s.nodes| == |t.parent|
  {
    forall c: nat :: c < |s.nodes| && t.IsChild(c, i) ==> s.nodes[c].state == I
  }

  /** The state that cache `i` owes to a load of one of its children. */
  ghost function Owed(t: Topology, s: System, i: nat): State
    requires |s.nodes| == |t.parent| && i < |s.nodes| && s.nodes[i].job.Serving?
  {
    if NoneBelow(t, s, i) && (s.nodes[i].state == E || s.nodes[i].state == M) && !s.nodes[i].job.noExcl then E else S
  }

  lemma OwedIs(t: Topology, s: System, i: nat)
    requires Inv(t, s) && Enabled(t, s, Serve(i)) && s.nodes[i].job.kind == GETS
    requires BottomAccess(GETS, s.nodes[i].state).Ok? && Served(s.nodes[i]).Ok?
    ensures Served(s.nodes[i]).value.1 == Owed(t, s, i)
  {
    var n := s.nodes[i];
    assert NodeOk(t, i, n);
    DirectoryExact(t, s, i);
    LoadGives(n.entry, n.job.child, Exclusive(OwnState(n)), n.job.noExcl);
    if n.entry.sharers == {} {
      assert NoneBelow(t, s, i);
    } else {
      var c :| c in n.entry.sharers;
      assert c in Holders(t, s, i);
    }
  }

  /** A load that a cache serves at once leaves the child in E exactly if the cache is in E or M, no child of it has a
      copy, and E is wanted; otherwise in S. */
  lemma LoadAtOnce(t: Topology, s: System, i: nat, r: Node)
    requires Safe(t, s) && Enabled(t, s, Serve(i)) && s.nodes[i].job.kind == GETS
    requires var n := s.nodes[i]; Recall(n, n.job.child, n.job.kind, n.job.noExcl) == Ok(r) && r.snd.None?
    ensures Step(t, s, Serve(i)).Ok?
    ensures var s' := Step(t, s, Serve(i)).value;
            && s.nodes[i].job.child < |s'.nodes| && s'.nodes[s.nodes[i].job.child].state == Owed(t, s, i)
            && s'.nodes[s.nodes[i].job.child].up.None?
  {
    ServedAtOnce(t, s, i, r);
    OwedIs(t, s, i);
    ServingEdge(t, s, i);
    RepliedTo(r, s.nodes[s.nodes[i].job.child], s.nodes[i].job.child, GETS, s.nodes[i].job.noExcl);
  }

  /** The same for a load that has to recall the line first, whatever steps come between; it ends in S. */
  lemma LoadAfterRecall(t: Topology, s: System, i: nat, r: Node, acts: seq<Action>)
    requires Safe(t, s) && Enabled(t, s, Serve(i)) && s.nodes[i].job.kind == GETS && NoneEnds(acts, i)
    requires var n := s.nodes[i]; Recall(n, n.job.child, n.job.kind, n.job.noExcl) == Ok(r) && r.snd.Some?
    ensures RunFrom(t, Update(s, i, r), acts).Ok?
    ensures var s2 := RunFrom(t, Update(s, i, r), acts).value;
            Enabled(t, s2, Finish(i)) ==>
              && Step(t, s2, Finish(i)).Ok?
              && var s3 := Step(t, s2, Finish(i)).value;
                 s.nodes[i].job.child < |s3.nodes| && s3.nodes[s.nodes[i].job.child].state == Owed(t, s, i) == S
  {
    ServedByRecall(t, s, i, r, acts);
    var s2 := RunFrom(t, Update(s, i, r), acts).value;
    if Enabled(t, s2, Finish(i)) {
      OwedIs(t, s, i);
      assert Recalled(s.nodes[i].entry, GETS, s.nodes[i].job.child, Exclusive(OwnState(s.nodes[i])),
                      s.nodes[i].job.noExcl) != {};
      DirectoryExact(t, s, i);
    }
  }

  /** A core in E or M writes without asking. */
  lemma StoreIsSilent(t: Topology, s: System, n: nat)
    requires Safe(t, s) && Enabled(t, s, Store(n)) && (s.nodes[n].state == E || s.nodes[n].state == M)
    ensures Step(t, s, Store(n)) == Ok(Update(s, n, s.nodes[n].(state := M)).(stale := true))
  {
  }

  // ----- the first load -----

  /** The state that the first load of a line ends in. */
  function First(noExcl: bool): State {
    if noExcl then S else E
  }

  /** Cache `x` while core `n` loads a line that no cache has: only the caches from memory down to the core take part,
      all of them for this load. */
  ghost predicate FetchNode(t: Topology, s: System, n: nat, noExcl: bool, x: nat)
    requires t.Ok() && n < |t.parent| && x < |s.nodes|
  {
    var m := s.nodes[x];
    && m.inv.None? && m.snd.None? && (m.state == I || m.state == First(noExcl)) && !m.job.Evicting?
    && (m.up.Some? ==> m.up.value == Req(GETS, I, noExcl) && m.state == I)
    && (m.job.Serving? ==> m.job.kind == GETS && m.job.noExcl == noExcl)
    && (!Above(t, x, n) ==> Quiet(m) && m.state == I)
  }

  ghost predicate Fetching(t: Topology, s: System, n: nat, noExcl: bool)
    requires t.Ok() && n < |t.parent|
  {
    && |s.nodes| == |t.parent|
    && (forall x: nat :: x < |s.nodes| ==> FetchNode(t, s, n, noExcl, x))
    && (s.nodes[n].up.Some? || s.nodes[n].state == First(noExcl))
  }

  /** There is one way down. */
  lemma {:induction false} OneWayDown(t: Topology, i: nat, c: nat, d: nat, n: nat)
    requires t.Ok() && n < |t.parent| && t.IsChild(c, i) && t.IsChild(d, i) && Above(t, c, n) && Above(t, d, n)
    ensures c == d
  {
    if c == n {
      NotAboveParent(t, d, t.parent[n]);
    } else if d == n {
      NotAboveParent(t, c, t.parent[n]);
    } else {
      OneWayDown(t, i, c, d, t.parent[n]);
    }
  }

  lemma {:induction false} NotAboveParent(t: Topology, c: nat, i: nat)
    requires t.Ok() && i < |t.parent|
    ensures Above(t, c, i) ==> c <= i
  {
    if c != i && i > 0 {
      NotAboveParent(t, c, t.parent[i]);
    }
  }

  lemma FetchServed(t: Topology, s: System, n: nat, noExcl: bool, i: nat)
    requires Safe(t, s) && n < |t.parent| && Fetching(t, s, n, noExcl) && Enabled(t, s, Serve(i))
    ensures Step(t, s, Serve(i)).Ok? && Fetching(t, Step(t, s, Serve(i)).value, n, noExcl)
  {
    var m := s.nodes[i];
    var ci := m.job.child;
    StepSafe(t, s, Serve(i));
    ServingEdge(t, s, i);
    assert FetchNode(t, s, n, noExcl, i) && FetchNode(t, s, n, noExcl, ci);
    forall c: nat | c < |s.nodes| && t.IsChild(c, i)
      ensures s.nodes[c].state == I
    {
      assert FetchNode(t, s, n, noExcl, c);
      if Above(t, c, n) {
        OneWayDown(t, i, c, ci, n);
      }
    }
    DirectoryExact(t, s, i);
    assert Holders(t, s, i) == {};
    NothingToRecall(t, s, i);
    FetchReplied(t, s, n, noExcl, i);
  }

  lemma NothingToRecall(t: Topology, s: System, i: nat)
    requires Safe(t, s) && Enabled(t, s, Serve(i)) && s.nodes[i].job.kind == GETS && s.nodes[i].entry.sharers == {}
    ensures var n := s.nodes[i]; Recall(n, n.job.child, GETS, n.job.noExcl) == Ok(n)
  {
    var n := s.nodes[i];
    assert NodeOk(t, i, n);
    assert n.entry.numSharers == 0;
  }

  lemma FetchReplied(t: Topology, s: System, n: nat, noExcl: bool, i: nat)
    requires Safe(t, s) && n < |t.parent| && Fetching(t, s, n, noExcl) && Enabled(t, s, Serve(i)) && NoneBelow(t, s, i)
    requires var m := s.nodes[i]; m.job.kind == GETS && Recall(m, m.job.child, GETS, m.job.noExcl) == Ok(m)
    ensures Step(t, s, Serve(i)).Ok? && Fetching(t, Step(t, s, Serve(i)).value, n, noExcl)
  {
    var m := s.nodes[i];
    var ci := m.job.child;
    StepSafe(t, s, Serve(i));
    ServingEdge(t, s, i);
    assert FetchNode(t, s, n, noExcl, i) && FetchNode(t, s, n, noExcl, ci);
    LoadAtOnce(t, s, i, m);
    var s' := Step(t, s, Serve(i)).value;
    RepliedAtOnce(t, s, i, m);
    FetchPair(t, s, s', n, noExcl, i, ci);
  }

  /** A reply without a recall ends the job of the parent and the request of the child, and changes no other state. */
  lemma RepliedAtOnce(t: Topology, s: System, i: nat, p: Node)
    requires i < |s.nodes| && p.job.Serving? && p.job.child < |s.nodes| && p.job.child != i && p.snd.None?
    requires DoReply(t, s, i, p).Ok?
    ensures var s', ci := DoReply(t, s, i, p).value, p.job.child;
            && |s'.nodes| == |s.nodes| && s'.nodes[i] == p.(entry := s'.nodes[i].entry, job := Idle)
            && s'.nodes[ci] == s.nodes[ci].(state := s'.nodes[ci].state, up := None)
            && forall x: nat :: x < |s.nodes| && x != i && x != ci ==> s'.nodes[x] == s.nodes[x]
  {
  }

  lemma FetchPair(t: Topology, s: System, s': System, n: nat, noExcl: bool, i: nat, ci: nat)
    requires t.Ok() && n < |t.parent| && Fetching(t, s, n, noExcl) && i < |s.nodes| && ci < |s.nodes| && i != ci
    requires |s'.nodes| == |s.nodes| && s'.nodes[i] == s.nodes[i].(entry := s'.nodes[i].entry, job := Idle)
    requires s'.nodes[ci] == s.nodes[ci].(state := First(noExcl), up := None) && Above(t, ci, n)
    requires forall x: nat :: x < |s.nodes| && x != i && x != ci ==> s'.nodes[x] == s.nodes[x]
    ensures Fetching(t, s', n, noExcl)
  {
    forall x: nat | x < |s'.nodes|
      ensures FetchNode(t, s', n, noExcl, x)
    {
      assert FetchNode(t, s, n, noExcl, x);
    }
  }

  lemma FetchAccepted(t: Topology, s: System, n: nat, noExcl: bool, i: nat)
    requires Safe(t, s) && n < |t.parent| && Fetching(t, s, n, noExcl) && Enabled(t, s, Accept(i))
    ensures Step(t, s, Accept(i)).Ok? && Fetching(t, Step(t, s, Accept(i)).value, n, noExcl)
  {
    var p := t.parent[i];
    assert FetchNode(t, s, n, noExcl, i) && FetchNode(t, s, n, noExcl, p);
    assert Above(t, p, i);
    AboveTrans(t, p, i, n);
    var s' := Step(t, s, Accept(i)).value;
    assert s'.nodes == s.nodes[p := s.nodes[p].(job := Serving(i, GETS, noExcl))];
    forall x: nat | x < |s'.nodes|
      ensures FetchNode(t, s', n, noExcl, x)
    {
      assert FetchNode(t, s, n, noExcl, x);
    }
  }

  /** One cache changes. */
  lemma FetchOne(t: Topology, s: System, s': System, n: nat, noExcl: bool, i: nat)
    requires t.Ok() && n < |t.parent| && Fetching(t, s, n, noExcl) && i < |s.nodes| && |s'.nodes| == |s.nodes|
    requires forall x: nat :: x < |s.nodes| && x != i ==> s'.nodes[x] == s.nodes[x]
    requires FetchNode(t, s', n, noExcl, i) && (s'.nodes[i].up.Some? || s'.nodes[i].state == First(noExcl))
    ensures Fetching(t, s', n, noExcl)
  {
    forall x: nat | x < |s'.nodes|
      ensures FetchNode(t, s', n, noExcl, x)
    {
      assert FetchNode(t, s, n, noExcl, x);
    }
  }

  lemma FetchGoesOn(t: Topology, s: System, n: nat, noExcl: bool, a: Action)
    requires Safe(t, s) && n < |t.parent| && Fetching(t, s, n, noExcl) && Enabled(t, s, a) && Internal(a)
    ensures Step(t, s, a).Ok? && Fetching(t, Step(t, s, a).value, n, noExcl)
  {
    var i := if a.MemServe? then 0 else a.n;
    assert FetchNode(t, s, n, noExcl, i);
    if a.Serve? {
      FetchServed(t, s, n, noExcl, i);
    } else if a.Accept? {
      FetchAccepted(t, s, n, noExcl, i);
    } else if a.MemServe? || a.Forward? {
      FetchOne(t, s, Step(t, s, a).value, n, noExcl, i);
    } else {
      NoOtherStep(t, s, n, noExcl, a);
    }
  }

  /** Nothing is evicted or recalled. */
  lemma NoOtherStep(t: Topology, s: System, n: nat, noExcl: bool, a: Action)
    requires Safe(t, s) && n < |t.parent| && Fetching(t, s, n, noExcl) && Enabled(t, s, a) && Internal(a)
    ensures a.Serve? || a.Accept? || a.MemServe? || a.Forward?
  {
    assert !a.MemServe? ==> FetchNode(t, s, n, noExcl, a.n);
    assert !a.MemServe? && a.n > 0 ==> FetchNode(t, s, n, noExcl, t.parent[a.n]);
  }

  lemma {:induction false} FetchRuns(t: Topology, s: System, n: nat, noExcl: bool, acts: seq<Action>)
    requires Safe(t, s) && n < |t.parent| && Fetching(t, s, n, noExcl) && Taken(t, s, acts)
    ensures RunFrom(t, s, acts).Ok? && Safe(t, RunFrom(t, s, acts).value)
    ensures Fetching(t, RunFrom(t, s, acts).value, n, noExcl)
  {
    if acts != [] {
      var before, a := acts[..|acts| - 1], acts[|acts| - 1];
      FetchRuns(t, s, n, noExcl, before);
      StepSafe(t, RunFrom(t, s, before).value, a);
      FetchGoesOn(t, RunFrom(t, s, before).value, n, noExcl, a);
    }
  }

  /** In a tree in which no cache has the line, a load ends with the core in E, in whatever order it is served, unless E
      is not wanted; so the core can then write the line without asking. */
  lemma FirstLoad(t: Topology, s: System, n: nat, noExcl: bool, acts: seq<Action>)
    requires t.Ok() && Reachable(t, s) && AllQuiet(s) && forall x :: 0 <= x < |s.nodes| ==> s.nodes[x].state == I
    requires |s.nodes| == |t.parent| && Enabled(t, s, Load(n, noExcl)) && Step(t, s, Load(n, noExcl)).Ok?
    requires Taken(t, Step(t, s, Load(n, noExcl)).value, acts)
    ensures RunFrom(t, Step(t, s, Load(n, noExcl)).value, acts).Ok?
    ensures var s' := RunFrom(t, Step(t, s, Load(n, noExcl)).value, acts).value;
            AllQuiet(s') ==>
              && s'.nodes[n].state == (if noExcl then S else E)
              && (!noExcl ==> Enabled(t, s', Store(n))
                              && Step(t, s', Store(n)) == Ok(s'.(nodes := s'.nodes[n := s'.nodes[n].(state := M)],
                                                                 stale := true)))
  {
    var past :| Run(t, past) == Ok(s);
    RunSafe(t, past);
    StepSafe(t, s, Load(n, noExcl));
    var s1 := Step(t, s, Load(n, noExcl)).value;
    assert Fetching(t, s1, n, noExcl);
    FetchRuns(t, s1, n, noExcl, acts);
    var s' := RunFrom(t, s1, acts).value;
    if AllQuiet(s') && !noExcl {
      assert t.Terminal(n) && Quiet(s'.nodes[n]);
      StoreIsSilent(t, s', n);
    }
  }

  // ----- dirty data is a value that memory lacks -----

  /** The cache has been given the line in M for a store that has not reached its core yet. */
  predicate Storing(n: Node) {
    n.state == M && n.job.Serving? && n.job.kind == GETX && n.up.None? && n.inv.None?
  }

  ghost predicate SomeDirty(s: System) {
    exists x: nat :: x < |s.nodes| && s.nodes[x].Dirty()
  }

  /** If any cache has dirty data, memory lacks a value, or is about to because a store is under way. */
  ghost predicate Accounted(s: System) {
    SomeDirty(s) ==> s.stale || exists y: nat :: y < |s.nodes| && Storing(s.nodes[y])
  }

  lemma AccountedHere(s: System, y: nat)
    requires s.stale || (y < |s.nodes| && Storing(s.nodes[y]))
    ensures Accounted(s)
  {
  }

  /** What neither makes dirt nor ends a store leaves the account in order. */
  lemma AccountedStays(s: System, s': System)
    requires Accounted(s) && (SomeDirty(s') ==> SomeDirty(s)) && (s.stale ==> s'.stale) && |s'.nodes| == |s.nodes|
    requires forall y: nat :: y < |s.nodes| && Storing(s.nodes[y]) ==> Storing(s'.nodes[y])
    ensures Accounted(s')
  {
  }

  lemma ReplyAccounted(t: Topology, s: System, i: nat, r: Node)
    requires Inv(t, s) && Accounted(s) && i < |s.nodes| && s.nodes[i].job.Serving? && s.nodes[i].Running()
    requires r.job == s.nodes[i].job && r.up.None? && r.inv.None? && DoReply(t, s, i, r).Ok?
    requires r.job.kind == GETS ==> (r.Dirty() ==> s.nodes[i].Dirty())
    requires !Held(s.nodes[r.job.child])
    ensures |DoReply(t, s, i, r).value.nodes| == |s.nodes| && Accounted(DoReply(t, s, i, r).value)
  {
    ServingEdge(t, s, i);
    var s', ci := DoReply(t, s, i, r).value, r.job.child;
    RepliedTo(r, s.nodes[ci], ci, r.job.kind, r.job.noExcl);
    if r.job.kind == GETX {
      if !t.Terminal(ci) {
        AccountedHere(s', ci);
      }
    } else {
      forall y: nat | y < |s.nodes| && Storing(s.nodes[y])
        ensures Storing(s'.nodes[y])
      {
        assert y != i && y != ci;
      }
      if x: nat :| x < |s'.nodes| && s'.nodes[x].Dirty() {
        assert x == i || s'.nodes[x] == s.nodes[x] || x == ci;
      }
      AccountedStays(s, s');
    }
  }

  /** A step of the caches `i` and `j` that stores nothing: there is dirt in them only if there was. */
  lemma PairAccounted(s: System, s': System, i: nat, j: nat)
    requires Accounted(s) && i < |s.nodes| == |s'.nodes| && j < |s.nodes| && s'.stale == s.stale
    requires forall x: nat :: x < |s.nodes| && x != i && x != j ==> s'.nodes[x] == s.nodes[x]
    requires s'.nodes[i].Dirty() || s'.nodes[j].Dirty() ==> s.nodes[i].Dirty() || s.nodes[j].Dirty()
    requires Storing(s.nodes[i]) ==> Storing(s'.nodes[i])
    requires Storing(s.nodes[j]) ==> Storing(s'.nodes[j])
    ensures Accounted(s')
  {
    if x: nat :| x < |s'.nodes| && s'.nodes[x].Dirty() {
      assert x == i || x == j || s.nodes[x].Dirty();
    }
    AccountedStays(s, s');
  }

  lemma AcceptedDirt(p: Node, c: Node, ci: nat)
    requires c.up.Some? && ReqOk(c.up.value, c.state) && AcceptRequest(p, c, ci).Ok?
    ensures var (q, d) := AcceptRequest(p, c, ci).value; q.Dirty() || d.Dirty() ==> p.Dirty() || c.Dirty()
  {
  }

  /** The writeback flag of an answer goes up only for dirty data. */
  lemma AnsweredDirt(p: Node, c: Node, ci: nat)
    requires p.snd.Some? && c.inv.Some? && Answer(p, c, ci).Ok?
    ensures var (q, d) := Answer(p, c, ci).value;
            && (q.Dirty() || d.Dirty() ==> p.Dirty() || c.Dirty())
            && (q.snd.value.wb ==> p.snd.value.wb || c.Dirty()) && q.state == p.state && q.job == p.job && q.up == p.up
            && q.inv == p.inv
  {
  }

  lemma AcceptAccounted(t: Topology, s: System, i: nat)
    requires Inv(t, s) && Accounted(s) && Enabled(t, s, Accept(i)) && Step(t, s, Accept(i)).Ok?
    ensures Accounted(Step(t, s, Accept(i)).value)
  {
    var s', p := Step(t, s, Accept(i)).value, t.parent[i];
    assert NodeOk(t, i, s.nodes[i]);
    AcceptedDirt(s.nodes[p], s.nodes[i], i);
    PairAccounted(s, s', p, i);
  }

  lemma AnswerAccounted(t: Topology, s: System, i: nat)
    requires Inv(t, s) && Accounted(s) && Enabled(t, s, InvDone(i)) && Step(t, s, InvDone(i)).Ok?
    ensures Accounted(Step(t, s, InvDone(i)).value)
  {
    var s', p := Step(t, s, InvDone(i)).value, t.parent[i];
    AnsweredDirt(s.nodes[p], s.nodes[i], i);
    PairAccounted(s, s', p, i);
  }

  /** A step in which one cache asks, begins to wait, or ends an eviction's sends. */
  lemma OwnAccounted(t: Topology, s: System, a: Action)
    requires Inv(t, s) && Accounted(s) && Enabled(t, s, a) && Step(t, s, a).Ok?
    requires a.Load? || a.StartEvict? || a.EvictUp? || a.Forward? || a.InvStart?
    ensures Accounted(Step(t, s, a).value)
  {
    OwnKeeps(t, s, a);
    PairAccounted(s, Step(t, s, a).value, a.n, a.n);
  }

  lemma OwnKeeps(t: Topology, s: System, a: Action)
    requires Inv(t, s) && Enabled(t, s, a) && Step(t, s, a).Ok?
    requires a.Load? || a.StartEvict? || a.EvictUp? || a.Forward? || a.InvStart?
    ensures var s', i := Step(t, s, a).value, a.n;
            && i < |s.nodes| && s' == Update(s, i, s'.nodes[i])
            && (s'.nodes[i].Dirty() ==> s.nodes[i].Dirty()) && (Storing(s.nodes[i]) ==> Storing(s'.nodes[i]))
  {
    var s', i := Step(t, s, a).value, a.n;
    assert NodeOk(t, i, s.nodes[i]);
    assert s' == Update(s, i, s'.nodes[i]);
  }

  lemma ServeAccounted(t: Topology, s: System, i: nat)
    requires Inv(t, s) && Accounted(s) && Enabled(t, s, Serve(i)) && Step(t, s, Serve(i)).Ok?
    ensures Accounted(Step(t, s, Serve(i)).value)
  {
    var n := s.nodes[i];
    ServingEdge(t, s, i);
    var r := Recall(n, n.job.child, n.job.kind, n.job.noExcl).value;
    RecallIs(t, i, n, r);
    RecallKeepsUp(n, n.job.child, n.job.kind, n.job.noExcl);
    if r.snd.None? {
      assert !Held(s.nodes[n.job.child]);
      ReplyAccounted(t, s, i, r);
    } else if n.job.kind == GETX {
      AccountedHere(Update(s, i, r), i);
    } else {
      PairAccounted(s, Update(s, i, r), i, i);
    }
  }

  lemma RecallKeepsUp(n: Node, ci: nat, kind: AccessType, noExcl: bool)
    requires Recall(n, ci, kind, noExcl).Ok?
    ensures var r := Recall(n, ci, kind, noExcl).value; r.up == n.up && r.inv == n.inv
  {
  }

  lemma FinishAccounted(t: Topology, s: System, i: nat)
    requires Inv(t, s) && Accounted(s) && Enabled(t, s, Finish(i)) && Step(t, s, Finish(i)).Ok?
    ensures Accounted(Step(t, s, Finish(i)).value)
  {
    ServingEdge(t, s, i);
    assert !Held(s.nodes[s.nodes[i].job.child]);
    ReplyAccounted(t, s, i, s.nodes[i]);
  }

  /** Memory takes dirty data only when it is the last: then no cache has the line any more. */
  lemma MemoryAccounted(t: Topology, s: System)
    requires Safe(t, s) && Accounted(s) && Enabled(t, s, MemServe)
    ensures Step(t, s, MemServe).Ok? && Accounted(Step(t, s, MemServe).value)
  {
    StepSafe(t, s, MemServe);
    var s' := Step(t, s, MemServe).value;
    var kind := s.nodes[0].up.value.kind;
    assert NodeOk(t, 0, s.nodes[0]);
    assert !Held(s.nodes[0]);
    if kind == GETX && !t.Terminal(0) {
      AccountedHere(s', 0);
    } else if IsPut(kind) {
      if x: nat :| x < |s'.nodes| && s'.nodes[x].Dirty() {
        AllAboveRoot(t, x);
        PermissionsGrow(t, s', 0, x);
        assert false;
      }
    } else if kind == GETS {
      PairAccounted(s, s', 0, 0);
    }
  }

  lemma {:induction false} AllAboveRoot(t: Topology, x: nat)
    requires t.Ok() && x < |t.parent|
    ensures Above(t, 0, x)
  {
    if x > 0 {
      AllAboveRoot(t, t.parent[x]);
    }
  }

  lemma StepAccounted(t: Topology, s: System, a: Action)
    requires Safe(t, s) && Accounted(s) && Enabled(t, s, a)
    ensures Step(t, s, a).Ok? && Accounted(Step(t, s, a).value)
  {
    StepSafe(t, s, a);
    match a
    case MemServe => MemoryAccounted(t, s);
    case Store(i) => StoreAccounted(t, s, i);
    case Accept(i) => AcceptAccounted(t, s, i);
    case Serve(i) => ServeAccounted(t, s, i);
    case Finish(i) => FinishAccounted(t, s, i);
    case InvDone(i) => AnswerAccounted(t, s, i);
    case _ => OwnAccounted(t, s, a);
  }

  lemma StoreAccounted(t: Topology, s: System, i: nat)
    requires Inv(t, s) && Accounted(s) && Enabled(t, s, Store(i)) && Step(t, s, Store(i)).Ok?
    ensures Accounted(Step(t, s, Store(i)).value)
  {
    if NeedsParent(GETX, s.nodes[i].state) {
      PairAccounted(s, Step(t, s, Store(i)).value, i, i);
    }
  }

  lemma {:induction false} RunAccounted(t: Topology, acts: seq<Action>)
    requires t.Ok()
    ensures Run(t, acts).Ok? && Safe(t, Run(t, acts).value) && Accounted(Run(t, acts).value)
  {
    RunSafe(t, acts);
    if acts != [] {
      RunAccounted(t, acts[..|acts| - 1]);
      var s, a := Run(t, acts[..|acts| - 1]).value, acts[|acts| - 1];
      if Enabled(t, s, a) {
        StepAccounted(t, s, a);
      }
    }
  }

  /** In a quiet reachable state memory lacks a value if and only if some cache holds it in M. */
  lemma QuietDirtExact(t: Topology, s: System)
    requires t.Ok() && Reachable(t, s) && AllQuiet(s)
    ensures s.stale <==> exists x :: 0 <= x < |s.nodes| && s.nodes[x].state == M
  {
    var acts :| Run(t, acts) == Ok(s);
    RunAccounted(t, acts);
    if s.stale {
      QuietDirt(t, s);
    }
    if x :| 0 <= x < |s.nodes| && s.nodes[x].state == M {
      assert s.nodes[x].Dirty();
    }
  }
}
