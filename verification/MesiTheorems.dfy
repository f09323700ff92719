/** What the invariant of the coherence tree means: exact directories, one writer or many readers over the whole
    tree, dirty data that always has a carrier, and no deadlock. */
module MesiTheorems {
  import opened Wrappers
  import opened Mesi
  import opened MesiTree
  import opened MesiSafety

  /** `a` is `n` or one of the caches between `n` and memory. */
  ghost predicate Above(t: Topology, a: nat, n: nat)
    requires t.Ok() && n < |t.parent|
  {
    a == n || (n > 0 && Above(t, a, t.parent[n]))
  }

  /** The child of `a` on the way down to `n`. */
  ghost function Toward(t: Topology, a: nat, n: nat): (d: nat)
    requires t.Ok() && n < |t.parent| && a != n && Above(t, a, n)
    ensures t.IsChild(d, a) && d < |t.parent| && Above(t, d, n)
  {
    if t.parent[n] == a then n else Toward(t, a, t.parent[n])
  }

  lemma {:induction false} AboveTrans(t: Topology, a: nat, b: nat, n: nat)
    requires t.Ok() && n < |t.parent| && b < |t.parent| && Above(t, a, b) && Above(t, b, n)
    ensures Above(t, a, n)
  {
    if b != n {
      AboveTrans(t, a, b, t.parent[n]);
    }
  }

  /** Permissions only grow on the way to memory. */
  lemma {:induction false} PermissionsGrow(t: Topology, s: System, a: nat, n: nat)
    requires Inv(t, s) && n < |s.nodes| && a < |s.nodes| && Above(t, a, n)
    ensures Covers(s.nodes[a].state, s.nodes[n].state)
  {
    if a != n {
      assert EdgeOk(s.nodes[t.parent[n]], s.nodes[n], n);
      PermissionsGrow(t, s, a, t.parent[n]);
    }
  }

  /** A parent with a child in E or M has no other child with a copy. */
  lemma SiblingsInvalid(t: Topology, s: System, p: nat, c: nat, d: nat)
    requires Inv(t, s) && p < |s.nodes| && c < |s.nodes| && d < |s.nodes|
    requires t.IsChild(c, p) && t.IsChild(d, p) && c != d && Exclusive(s.nodes[c].state)
    ensures s.nodes[d].state == I
  {
    assert EdgeOk(s.nodes[p], s.nodes[c], c) && EdgeOk(s.nodes[p], s.nodes[d], d);
  }

  /** One writer or many readers: a cache in E or M excludes every copy outside its own line of descent. */
  lemma {:induction false} SingleWriter(t: Topology, s: System, x: nat, y: nat)
    requires Inv(t, s) && x < |s.nodes| && y < |s.nodes|
    requires Exclusive(s.nodes[x].state) && !Above(t, x, y) && !Above(t, y, x)
    ensures s.nodes[y].state == I
    decreases x + y
  {
    if x > y {
      var p := t.parent[x];
      assert EdgeOk(s.nodes[p], s.nodes[x], x);
      if Above(t, p, y) {
        var d := Toward(t, p, y);
        SiblingsInvalid(t, s, p, x, d);
        PermissionsGrow(t, s, d, y);
      } else {
        SingleWriter(t, s, p, y);
      }
    } else {
      var q := t.parent[y];
      assert EdgeOk(s.nodes[q], s.nodes[y], y);
      if Above(t, q, x) {
        var d := Toward(t, q, x);
        PermissionsGrow(t, s, d, x);
        SiblingsInvalid(t, s, q, d, y);
      } else {
        SingleWriter(t, s, x, q);
      }
    }
  }

  /** The children that hold the line. */
  ghost function Holders(t: Topology, s: System, p: nat): set<nat>
    requires |s.nodes| == |t.parent|
  {
    set c: nat | c < |s.nodes| && t.IsChild(c, p) && s.nodes[c].state != I
  }

  /** Whenever nothing is being recalled for it, a directory entry is exact. */
  lemma DirectoryExact(t: Topology, s: System, p: nat)
    requires Inv(t, s) && p < |s.nodes| && s.nodes[p].snd.None?
    ensures var e := s.nodes[p].entry;
            && e.sharers == Holders(t, s, p) && e.numSharers == |Holders(t, s, p)|
            && (e.IsExclusive() <==> exists c: nat :: c < |s.nodes| && t.IsChild(c, p) && Exclusive(s.nodes[c].state))
  {
    var e := s.nodes[p].entry;
    assert NodeOk(t, p, s.nodes[p]);
    forall c: nat | c < |s.nodes| && t.IsChild(c, p)
      ensures c in e.sharers <==> s.nodes[c].state != I
      ensures Exclusive(s.nodes[c].state) ==> e.IsExclusive()
    {
      assert EdgeOk(s.nodes[p], s.nodes[c], c);
    }
    assert e.sharers == Holders(t, s, p);
    if e.IsExclusive() {
      var c :| c in e.sharers;
      assert EdgeOk(s.nodes[p], s.nodes[c], c);
    }
  }

  /** A reachable state of the tree. */
  ghost predicate Reachable(t: Topology, s: System) {
    exists acts: seq<Action> :: Run(t, acts) == Ok(s)
  }

  /** In every reachable state a core that may write is the only core with a copy, and its data is reachable
      through the directories. */
  lemma CoherentRun(t: Topology, s: System, x: nat, y: nat)
    requires t.Ok() && Reachable(t, s)
    requires x < |s.nodes| && y < |s.nodes| && x != y && |s.nodes| == |t.parent| && t.Terminal(x) && t.Terminal(y)
    ensures Exclusive(s.nodes[x].state) ==> s.nodes[y].state == I
    ensures forall a: nat :: a < |s.nodes| && Above(t, a, x) ==> Covers(s.nodes[a].state, s.nodes[x].state)
  {
    var acts :| Run(t, acts) == Ok(s);
    RunSafe(t, acts);
    TerminalAboveNone(t, x, y);
    TerminalAboveNone(t, y, x);
    if Exclusive(s.nodes[x].state) {
      SingleWriter(t, s, x, y);
    }
    forall a: nat | a < |s.nodes| && Above(t, a, x)
      ensures Covers(s.nodes[a].state, s.nodes[x].state)
    {
      PermissionsGrow(t, s, a, x);
    }
  }

  lemma TerminalAboveNone(t: Topology, x: nat, y: nat)
    requires t.Ok() && x < |t.parent| && y < |t.parent| && x != y && t.Terminal(x)
    ensures !Above(t, x, y)
  {
    if Above(t, x, y) {
      var d := Toward(t, x, y);
    }
  }

  // ----- dirty data -----

  /** Some cache in the subtree of `d` has dirty data or carries it. */
  ghost predicate DirtyBelow(t: Topology, s: System, d: nat)
    requires t.Ok() && |s.nodes| == |t.parent|
  {
    exists x: nat :: x < |s.nodes| && Above(t, d, x) && s.nodes[x].Dirty()
  }

  /** The end of an eviction's sends takes over what the children sent. */
  lemma PutUpDirtStays(t: Topology, s: System, i: nat, x: nat)
    requires Safe(t, s) && Enabled(t, s, EvictUp(i)) && x < |s.nodes| && s.nodes[x].Dirty()
    requires Step(t, s, EvictUp(i)).Ok?
    ensures Step(t, s, EvictUp(i)).value.nodes[x].Dirty()
  {
    assert NodeOk(t, i, s.nodes[i]);
  }

  lemma MemoryDirtStays(t: Topology, s: System, x: nat)
    requires Safe(t, s) && Enabled(t, s, MemServe) && x < |s.nodes| && s.nodes[x].Dirty()
    requires s.nodes[0].up.value.kind != PUTX
    ensures Step(t, s, MemServe).Ok? && Step(t, s, MemServe).value.nodes[x].Dirty()
  {
    assert NodeOk(t, 0, s.nodes[0]);
  }

  /** In the steps that change one cache, a dirty cache stays dirty. */
  lemma DirtStays(t: Topology, s: System, a: Action, x: nat)
    requires Safe(t, s) && Enabled(t, s, a) && x < |s.nodes| && s.nodes[x].Dirty()
    requires !a.Accept? && !a.InvDone? && !a.Serve? && !a.Finish? && Step(t, s, a).Ok?
    requires a.MemServe? ==> s.nodes[0].up.value.kind != PUTX
    ensures Step(t, s, a).value.nodes[x].Dirty()
  {
    if a.EvictUp? {
      PutUpDirtStays(t, s, a.n, x);
    } else if a.MemServe? {
      MemoryDirtStays(t, s, x);
    } else {
      assert NodeOk(t, x, s.nodes[x]);
    }
  }

  lemma ReplyDirtStays(p: Node, c: Node, ci: nat, kind: AccessType, noExcl: bool)
    requires SendOk(p) && !IsPut(kind) && c.up.Some? && ReqOk(c.up.value, c.state) && c.up.value.kind == kind
    requires Reply(p, c, ci, kind, noExcl).Ok?
    ensures var (q, d) := Reply(p, c, ci, kind, noExcl).value;
            (p.Dirty() ==> q.Dirty()) && (c.Dirty() ==> d.Dirty())
  {
  }

  lemma FinishDirtStays(t: Topology, s: System, i: nat, x: nat)
    requires Safe(t, s) && Enabled(t, s, Finish(i)) && x < |s.nodes| && s.nodes[x].Dirty()
    requires Step(t, s, Finish(i)).Ok?
    ensures Step(t, s, Finish(i)).value.nodes[x].Dirty()
  {
    ServingEdge(t, s, i);
    var Serving(ci, kind, noExcl) := s.nodes[i].job;
    ReplyDirtStays(s.nodes[i], s.nodes[ci], ci, kind, noExcl);
  }

  lemma RecallDirtStays(n: Node, ci: nat, kind: AccessType, noExcl: bool)
    requires n.snd.None? && !IsPut(kind) && Recall(n, ci, kind, noExcl).Ok?
    ensures var r := Recall(n, ci, kind, noExcl).value;
            (n.Dirty() ==> r.Dirty()) && (r.snd.None? ==> SendOk(r))
  {
  }

  lemma ServeDirtStays(t: Topology, s: System, i: nat, x: nat)
    requires Inv(t, s) && Enabled(t, s, Serve(i)) && x < |s.nodes| && s.nodes[x].Dirty()
    requires Step(t, s, Serve(i)).Ok?
    ensures Step(t, s, Serve(i)).value.nodes[x].Dirty()
  {
    ServingEdge(t, s, i);
    var Serving(ci, kind, noExcl) := s.nodes[i].job;
    RecallDirtStays(s.nodes[i], ci, kind, noExcl);
    var r := Recall(s.nodes[i], ci, kind, noExcl).value;
    if r.snd.None? {
      ReplyDirtStays(r, s.nodes[ci], ci, kind, noExcl);
      PairDirtStays(t, s, i, r, ci, x);
    }
  }

  /** The reply changes the parent and the child that asked. */
  lemma PairDirtStays(t: Topology, s: System, i: nat, r: Node, ci: nat, x: nat)
    requires i < |s.nodes| && ci < |s.nodes| && x < |s.nodes| && s.nodes[x].Dirty()
    requires r.job.Serving? && r.job.child == ci
    requires DoReply(t, s, i, r).Ok? && Reply(r, s.nodes[ci], ci, r.job.kind, r.job.noExcl).Ok?
    requires s.nodes[i].Dirty() ==> r.Dirty()
    requires var (q, d) := Reply(r, s.nodes[ci], ci, r.job.kind, r.job.noExcl).value;
             (r.Dirty() ==> q.Dirty()) && (s.nodes[ci].Dirty() ==> d.Dirty())
    ensures DoReply(t, s, i, r).value.nodes[x].Dirty()
  {
  }

  lemma PutDirtMoves(p: Node, c: Node, ci: nat)
    requires c.up.Some? && ReqOk(c.up.value, c.state) && c.snd.None? && AcceptRequest(p, c, ci).Ok?
    ensures var (q, d) := AcceptRequest(p, c, ci).value;
            (p.Dirty() ==> q.Dirty()) && (c.Dirty() ==> d.Dirty() || q.Dirty())
  {
  }

  /** The answer to an invalidation carries the writeback flag if the child was dirty. */
  lemma AnswerState(p: Node, c: Node, ci: nat)
    requires p.snd.Some? && c.inv.Some? && Answer(p, c, ci).Ok?
    ensures var (q, d) := Answer(p, c, ci).value;
            && (p.Dirty() ==> q.Dirty()) && q.snd.Some? && (c.Dirty() ==> q.snd.value.wb)
            && d.state == if c.inv.value == INV then I else S
  {
  }

  lemma PairDirtMoves(t: Topology, s: System, a: Action, x: nat) returns (y: nat)
    requires Safe(t, s) && Enabled(t, s, a) && x < |s.nodes| && s.nodes[x].Dirty()
    requires (a.Accept? || a.InvDone?) && Step(t, s, a).Ok?
    ensures y < |s.nodes| && Step(t, s, a).value.nodes[y].Dirty()
    ensures y == x || (t.IsChild(x, y) && (a == Accept(x) || a == InvDone(x)))
  {
    var i, p := a.n, t.parent[a.n];
    assert NodeOk(t, i, s.nodes[i]);
    if a.Accept? {
      PutDirtMoves(s.nodes[p], s.nodes[i], i);
    } else {
      AnswerState(s.nodes[p], s.nodes[i], i);
    }
    y := if i == x && !Step(t, s, a).value.nodes[x].Dirty() then p else x;
  }

  /** Dirty data moves only from a child to its parent, and only by a PUTX or an answer to an invalidation. */
  lemma DirtMoves(t: Topology, s: System, a: Action, x: nat) returns (y: nat)
    requires Safe(t, s) && Enabled(t, s, a) && x < |s.nodes| && s.nodes[x].Dirty()
    requires Step(t, s, a).Ok? && (a.MemServe? ==> s.nodes[0].up.value.kind != PUTX)
    ensures y < |s.nodes| && Step(t, s, a).value.nodes[y].Dirty()
    ensures y == x || (t.IsChild(x, y) && (a == Accept(x) || a == InvDone(x)))
  {
    y := x;
    if a.Serve? {
      ServeDirtStays(t, s, a.n, x);
    } else if a.Finish? {
      FinishDirtStays(t, s, a.n, x);
    } else if a.Accept? || a.InvDone? {
      y := PairDirtMoves(t, s, a, x);
    } else {
      DirtStays(t, s, a, x);
    }
  }

  /** Dirty data below a cache stays below it until the cache hands it up: to its parent, by a PUTX or in
      answer to an invalidation, or from the last-level cache to memory. In particular a PUTX that an INVX has
      overtaken and turned into a PUTS loses nothing. */
  lemma DirtHandedUp(t: Topology, s: System, a: Action, d: nat)
    requires Safe(t, s) && Enabled(t, s, a) && d < |s.nodes| && DirtyBelow(t, s, d)
    ensures Step(t, s, a).Ok? && |Step(t, s, a).value.nodes| == |s.nodes|
    ensures var s' := Step(t, s, a).value;
            || DirtyBelow(t, s', d)
            || (d > 0 && (a == Accept(d) || a == InvDone(d)) && s'.nodes[t.parent[d]].Dirty())
            || (d == 0 && a.MemServe? && s.nodes[0].up.value.kind == PUTX)
  {
    StepSafe(t, s, a);
    var x: nat :| x < |s.nodes| && Above(t, d, x) && s.nodes[x].Dirty();
    if a.MemServe? && s.nodes[0].up.value.kind == PUTX {
      assert d > 0 ==> Step(t, s, a).value.nodes[x] == s.nodes[x];
    } else {
      var y := DirtMoves(t, s, a, x);
      if x != d && y != x {
        assert Above(t, d, y);
      }
    }
  }

  /** Once a cache is invalid, so is everything below it: an INV leaves no copy in its subtree, and a line that
      memory or a parent has taken back is gone from the subtree. */
  lemma InvalidBelow(t: Topology, s: System, d: nat, x: nat)
    requires Inv(t, s) && d < |s.nodes| && x < |s.nodes| && Above(t, d, x)
    ensures s.nodes[d].state == I ==> s.nodes[x].state == I
    ensures !Exclusive(s.nodes[d].state) ==> s.nodes[x].state != M
  {
    PermissionsGrow(t, s, d, x);
  }

  lemma AfterAnswer(t: Topology, s: System, d: nat) returns (s': System)
    requires Safe(t, s) && Enabled(t, s, InvDone(d))
    ensures Step(t, s, InvDone(d)) == Ok(s') && Inv(t, s')
    ensures s'.nodes[d].state == if s.nodes[d].inv == Some(INV) then I else S
    ensures var p := s'.nodes[t.parent[d]]; p.snd.Some? && (s.nodes[d].Dirty() ==> p.snd.value.wb)
  {
    StepSafe(t, s, InvDone(d));
    s' := Step(t, s, InvDone(d)).value;
    AnswerState(s.nodes[t.parent[d]], s.nodes[d], d);
  }

  /** An answered invalidation leaves no M below, and an answered INV no copy. */
  lemma InvalidationLeavesClean(t: Topology, s: System, d: nat, x: nat) returns (s': System)
    requires Safe(t, s) && Enabled(t, s, InvDone(d)) && x < |s.nodes| && Above(t, d, x)
    ensures Step(t, s, InvDone(d)) == Ok(s') && |s'.nodes| == |s.nodes|
    ensures s'.nodes[x].state != M && (s.nodes[d].inv == Some(INV) ==> s'.nodes[x].state == I)
  {
    s' := AfterAnswer(t, s, d);
    InvalidBelow(t, s', d, x);
  }

  /** If there is dirty data below when a cache answers, the sender of the invalidation gets the writeback flag. */
  lemma AnswerRaisesFlag(t: Topology, s: System, d: nat) returns (s': System)
    requires Safe(t, s) && Enabled(t, s, InvDone(d)) && DirtyBelow(t, s, d)
    ensures Step(t, s, InvDone(d)) == Ok(s') && |s'.nodes| == |s.nodes|
    ensures var p := s'.nodes[t.parent[d]]; p.snd.Some? && p.snd.value.wb
  {
    AnswerCarriesDirt(t, s, d);
    s' := AfterAnswer(t, s, d);
  }

  /** When a cache answers, all dirty data below it has reached it. */
  lemma AnswerCarriesDirt(t: Topology, s: System, d: nat)
    requires Safe(t, s) && Enabled(t, s, InvDone(d)) && DirtyBelow(t, s, d)
    ensures s.nodes[d].Dirty()
  {
    var x: nat :| x < |s.nodes| && Above(t, d, x) && s.nodes[x].Dirty();
    assert NodeOk(t, d, s.nodes[d]);
    if x != d {
      var c := Toward(t, d, x);
      assert EdgeOk(s.nodes[d], s.nodes[c], c);
      assert NodeOk(t, x, s.nodes[x]);
      PermissionsGrow(t, s, c, x);
      assert false;
    }
  }

  // ----- no deadlock -----

  /** A step that serves requests already made, rather than one that makes a new one. */
  predicate Internal(a: Action) {
    !a.Load? && !a.Store? && !a.StartEvict?
  }

  /** Nothing is under way at this cache. */
  predicate Quiet(n: Node) {
    n.up.None? && n.job.Idle? && n.inv.None? && n.snd.None?
  }

  /** Whoever holds a bottom lock can go on, or waits for a bottom lock further down. */
  lemma {:induction false} BottomHolderMoves(t: Topology, s: System, i: nat) returns (a: Action)
    requires Inv(t, s) && i < |s.nodes| && !s.nodes[i].BottomFree()
    ensures Internal(a) && Enabled(t, s, a)
    decreases |s.nodes| - i
  {
    var n := s.nodes[i];
    assert NodeOk(t, i, n);
    if !n.SendsDone() {
      var d :| d in n.snd.value.todo;
      if s.nodes[d].BottomFree() {
        a := InvStart(d);
      } else {
        a := BottomHolderMoves(t, s, d);
      }
    } else if n.inv.Some? {
      assert EdgeOk(s.nodes[t.parent[i]], n, i);
      a := InvDone(i);
    } else if n.job.Evicting? {
      a := EvictUp(i);
    } else if n.snd.Some? {
      a := Finish(i);
    } else {
      a := if NeedsParent(n.job.kind, n.state) then Forward(i) else Serve(i);
    }
  }

  /** If no bottom lock is held, the request closest to memory can be taken. */
  lemma {:induction false} RequestMoves(t: Topology, s: System, i: nat) returns (a: Action)
    requires Inv(t, s) && i < |s.nodes| && s.nodes[i].up.Some?
    requires forall j :: 0 <= j < |s.nodes| ==> s.nodes[j].BottomFree()
    ensures Internal(a) && Enabled(t, s, a)
  {
    if i == 0 {
      a := MemServe;
    } else if s.nodes[t.parent[i]].up.Some? {
      a := RequestMoves(t, s, t.parent[i]);
    } else {
      a := Accept(i);
    }
  }

  /** Nothing is under way anywhere. */
  ghost predicate AllQuiet(s: System) {
    forall i :: 0 <= i < |s.nodes| ==> Quiet(s.nodes[i])
  }

  lemma BusyMoves(t: Topology, s: System)
    requires Inv(t, s) && !AllQuiet(s)
    ensures exists a :: Internal(a) && Enabled(t, s, a)
  {
    var i: nat :| i < |s.nodes| && !Quiet(s.nodes[i]);
    var a;
    if j: nat :| j < |s.nodes| && !s.nodes[j].BottomFree() {
      a := BottomHolderMoves(t, s, j);
    } else {
      assert NodeOk(t, i, s.nodes[i]);
      a := RequestMoves(t, s, i);
    }
  }

  /** As long as anything is under way, some step that serves it can be taken: no deadlock. */
  lemma NoDeadlock(t: Topology, s: System)
    requires t.Ok() && Reachable(t, s)
    ensures |s.nodes| == |t.parent|
    ensures AllQuiet(s) || exists a :: Internal(a) && Enabled(t, s, a)
  {
    var acts :| Run(t, acts) == Ok(s);
    RunSafe(t, acts);
    if !AllQuiet(s) {
      BusyMoves(t, s);
    }
  }

  /** In a quiet reachable state, a value that memory lacks is in a cache that holds it in M. */
  lemma QuietDirt(t: Topology, s: System)
    requires t.Ok() && Reachable(t, s) && s.stale && AllQuiet(s)
    ensures exists x :: 0 <= x < |s.nodes| && s.nodes[x].state == M
  {
    var acts :| Run(t, acts) == Ok(s);
    RunSafe(t, acts);
    var x: nat :| x < |s.nodes| && s.nodes[x].Dirty();
  }
}
