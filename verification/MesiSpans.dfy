/** What holds from the beginning of an invalidation or a recall to its end, whatever steps come between elsewhere in
    the tree: it ends as one call of the top controller would, and it loses no dirty data. */
module MesiSpans {
  import opened Wrappers
  import opened Mesi
  import opened MesiTree
  import opened MesiSafety
  import opened MesiTheorems

  // ----- a cache that waits for its children -----

  /** The cache is being invalidated, or waits for its children's answers. */
  predicate Held(n: Node) {
    n.snd.Some? || n.inv.Some?
  }

  /** The step with which cache `i` ends what it is held by. */
  predicate Ends(a: Action, i: nat) {
    a == Finish(i) || a == EvictUp(i) || a == InvDone(i)
  }

  predicate AnswersTo(t: Topology, a: Action, i: nat) {
    a.InvDone? && a.n < |t.parent| && t.parent[a.n] == i
  }

  /** A held cache that has called its parent is being invalidated, and the parent waits for it. */
  lemma HeldIsAwaited(t: Topology, s: System, i: nat)
    requires Inv(t, s) && i < |s.nodes| && Held(s.nodes[i]) && (s.nodes[i].up.Some? || s.nodes[i].inv.Some?)
    ensures i > 0 && s.nodes[i].inv.Some?
    ensures var p := s.nodes[t.parent[i]]; p.snd.Some? && i in p.snd.value.todo && (p.inv.Some? || !p.job.Idle?)
  {
    assert NodeOk(t, i, s.nodes[i]);
    var pi := t.parent[i];
    assert NodeOk(t, pi, s.nodes[pi]) && EdgeOk(s.nodes[pi], s.nodes[i], i);
  }

  /** Neither the parent nor a child of a held cache takes a request that involves it. */
  lemma HeldNotAsked(t: Topology, s: System, c: nat, i: nat)
    requires Inv(t, s) && Enabled(t, s, Accept(c)) && i < |s.nodes| && Held(s.nodes[i])
    ensures c != i && t.parent[c] != i
  {
    assert NodeOk(t, i, s.nodes[i]);
    if c == i {
      HeldIsAwaited(t, s, i);
    }
  }

  lemma AcceptElsewhere(t: Topology, s: System, c: nat, i: nat)
    requires Inv(t, s) && Enabled(t, s, Accept(c)) && Step(t, s, Accept(c)).Ok? && i < |s.nodes| && Held(s.nodes[i])
    ensures Step(t, s, Accept(c)).value.nodes[i] == s.nodes[i]
  {
    HeldNotAsked(t, s, c, i);
  }

  /** A held cache does not get a reply. */
  lemma HeldNotServed(t: Topology, s: System, a: Action, i: nat)
    requires Inv(t, s) && Enabled(t, s, a) && i < |s.nodes| && Held(s.nodes[i])
    requires (a.Serve? || a.Finish?) && !Ends(a, i)
    ensures a.n != i && s.nodes[a.n].job.child != i
  {
    assert NodeOk(t, i, s.nodes[i]);
    ServingEdge(t, s, a.n);
    if s.nodes[a.n].job.child == i {
      HeldIsAwaited(t, s, i);
    }
  }

  lemma ReplyElsewhere(t: Topology, s: System, k: nat, p: Node, i: nat)
    requires k < |s.nodes| && p.job.Serving? && p.job.child < |s.nodes| && DoReply(t, s, k, p).Ok?
    requires i < |s.nodes| && i != k && i != p.job.child
    ensures DoReply(t, s, k, p).value.nodes[i] == s.nodes[i]
  {
  }

  lemma RecallKeepsJob(n: Node, ci: nat, kind: AccessType, noExcl: bool)
    requires Recall(n, ci, kind, noExcl).Ok?
    ensures Recall(n, ci, kind, noExcl).value.job == n.job
  {
  }

  lemma ServeElsewhere(t: Topology, s: System, k: nat, i: nat)
    requires Inv(t, s) && Enabled(t, s, Serve(k)) && Step(t, s, Serve(k)).Ok? && i < |s.nodes| && Held(s.nodes[i])
    ensures Step(t, s, Serve(k)).value.nodes[i] == s.nodes[i]
  {
    HeldNotServed(t, s, Serve(k), i);
    var n := s.nodes[k];
    RecallKeepsJob(n, n.job.child, n.job.kind, n.job.noExcl);
    var r := Recall(n, n.job.child, n.job.kind, n.job.noExcl).value;
    if r.snd.None? {
      ReplyElsewhere(t, s, k, r, i);
    }
  }

  lemma FinishElsewhere(t: Topology, s: System, k: nat, i: nat)
    requires Inv(t, s) && Enabled(t, s, Finish(k)) && Step(t, s, Finish(k)).Ok? && i < |s.nodes| && Held(s.nodes[i])
    requires k != i
    ensures Step(t, s, Finish(k)).value.nodes[i] == s.nodes[i]
  {
    HeldNotServed(t, s, Finish(k), i);
    ReplyElsewhere(t, s, k, s.nodes[k], i);
  }

  lemma AnswerElsewhere(t: Topology, s: System, c: nat, i: nat)
    requires Inv(t, s) && Enabled(t, s, InvDone(c)) && Step(t, s, InvDone(c)).Ok? && i < |s.nodes|
    requires c != i && t.parent[c] != i
    ensures Step(t, s, InvDone(c)).value.nodes[i] == s.nodes[i]
  {
  }

  /** A step that changes one cache changes another one than the held one. */
  lemma OwnStepElsewhere(t: Topology, s: System, a: Action, i: nat)
    requires Inv(t, s) && Enabled(t, s, a) && Step(t, s, a).Ok? && i < |s.nodes| && Held(s.nodes[i]) && !Ends(a, i)
    requires !a.Accept? && !a.Serve? && !a.Finish? && !a.InvDone?
    ensures Step(t, s, a).value.nodes[i] == s.nodes[i]
  {
    assert NodeOk(t, i, s.nodes[i]);
  }

  /** No step changes a held cache, except its own last step and the answers of its children. */
  lemma HeldStays(t: Topology, s: System, a: Action, i: nat)
    requires Inv(t, s) && Enabled(t, s, a) && Step(t, s, a).Ok? && i < |s.nodes| && Held(s.nodes[i])
    requires !Ends(a, i) && !AnswersTo(t, a, i)
    ensures Step(t, s, a).value.nodes[i] == s.nodes[i]
  {
    match a
    case Accept(c) => AcceptElsewhere(t, s, c, i);
    case Serve(k) => ServeElsewhere(t, s, k, i);
    case Finish(k) => FinishElsewhere(t, s, k, i);
    case InvDone(c) => AnswerElsewhere(t, s, c, i);
    case _ => OwnStepElsewhere(t, s, a, i);
  }

  /** The cache has turned from `r` into `n` by the answers of some of its children. */
  ghost predicate Waiting(r: Node, n: Node) {
    && r.snd.Some? && n.snd.Some?
    && var q0, q := r.snd.value, n.snd.value;
       && q.kind == q0.kind && q.todo <= q0.todo && q.sent + |q.todo| == q0.sent + |q0.todo|
       && n == r.(snd := n.snd, entry := r.entry.(sharers := if q.kind == INV then r.entry.sharers - (q0.todo - q.todo)
                                                           else r.entry.sharers))
  }

  lemma OneAnswer(r: Node, n: Node, c: Node, ci: nat)
    requires Waiting(r, n) && ci in n.snd.value.todo && c.inv.Some? && Answer(n, c, ci).Ok?
    ensures Waiting(r, Answer(n, c, ci).value.0)
  {
    var m := Answer(n, c, ci).value.0;
    var todo := n.snd.value.todo;
    assert |todo - {ci}| == |todo| - 1;
    assert r.snd.value.todo - (todo - {ci}) == (r.snd.value.todo - todo) + {ci};
  }

  lemma AnswerWaits(t: Topology, s: System, c: nat, i: nat, r: Node)
    requires Inv(t, s) && Enabled(t, s, InvDone(c)) && i < |s.nodes| && Waiting(r, s.nodes[i])
    requires t.parent[c] == i && Step(t, s, InvDone(c)).Ok?
    ensures Waiting(r, Step(t, s, InvDone(c)).value.nodes[i])
  {
    assert EdgeOk(s.nodes[i], s.nodes[c], c);
    OneAnswer(r, s.nodes[i], s.nodes[c], c);
  }

  lemma StepWaits(t: Topology, s: System, a: Action, i: nat, r: Node)
    requires Inv(t, s) && Enabled(t, s, a) && i < |s.nodes| && Waiting(r, s.nodes[i]) && !Ends(a, i)
    requires Step(t, s, a).Ok?
    ensures Waiting(r, Step(t, s, a).value.nodes[i])
  {
    if AnswersTo(t, a, i) {
      AnswerWaits(t, s, a.n, i, r);
    } else {
      HeldStays(t, s, a, i);
    }
  }

  // ----- runs from any state -----

  function RunFrom(t: Topology, s: System, acts: seq<Action>): (r: Outcome<System>)
    requires |s.nodes| == |t.parent|
    ensures r.Ok? ==> |r.value.nodes| == |s.nodes|
  {
    if acts == [] then Ok(s)
    else
      var m :- RunFrom(t, s, acts[..|acts| - 1]);
      var a := acts[|acts| - 1];
      if Enabled(t, m, a) then Step(t, m, a) else Ok(m)
  }

  lemma {:induction false} RunFromSafe(t: Topology, s: System, acts: seq<Action>)
    requires Safe(t, s)
    ensures RunFrom(t, s, acts).Ok? && Safe(t, RunFrom(t, s, acts).value)
  {
    if acts != [] {
      var before := acts[..|acts| - 1];
      RunFromSafe(t, s, before);
      var m := RunFrom(t, s, before).value;
      if Enabled(t, m, acts[|acts| - 1]) {
        StepSafe(t, m, acts[|acts| - 1]);
      }
    }
  }

  ghost predicate NoneEnds(acts: seq<Action>, i: nat) {
    forall k :: 0 <= k < |acts| ==> !Ends(acts[k], i)
  }

  lemma {:induction false} RunWaits(t: Topology, s: System, acts: seq<Action>, i: nat)
    requires Safe(t, s) && i < |s.nodes| && s.nodes[i].snd.Some? && NoneEnds(acts, i)
    ensures RunFrom(t, s, acts).Ok? && Safe(t, RunFrom(t, s, acts).value)
    ensures Waiting(s.nodes[i], RunFrom(t, s, acts).value.nodes[i])
  {
    if acts != [] {
      var before := acts[..|acts| - 1];
      RunWaits(t, s, before, i);
      var m := RunFrom(t, s, before).value;
      RunFromSafe(t, s, acts);
      if Enabled(t, m, acts[|acts| - 1]) {
        StepSafe(t, m, acts[|acts| - 1]);
        StepWaits(t, m, acts[|acts| - 1], i, s.nodes[i]);
      }
    }
  }

  // ----- the sends of a span are one call -----

  /** All answers together do to the entry what one call of the top controller does. */
  lemma EndsAsOne(t: Topology, i: nat, r: Node, n: Node, kind: InvType)
    requires NodeOk(t, i, r) && Waiting(r, n) && n.SendsDone()
    requires r.snd == Some(Send(kind, Targets(r.entry, kind), 0, false))
    ensures EndSends(n) == Ok((r.(entry := AllSent(r.entry, kind), snd := None), n.snd.value.wb))
  {
    assert n.snd.value.todo == {};
    if kind == INV {
      assert n.entry.sharers == r.entry.sharers - Targets(r.entry, INV) == {};
    } else {
      assert r.entry.sharers != {};
    }
  }

  /** An invalidation, downgrade or eviction of cache `i` that has begun to wait in state `s` ends as one call. */
  lemma SendsAreOneCall(t: Topology, s: System, acts: seq<Action>, i: nat)
    requires Safe(t, s) && i < |s.nodes| && s.nodes[i].snd.Some? && NoneEnds(acts, i)
    requires var q := s.nodes[i].snd.value; q == Send(q.kind, Targets(s.nodes[i].entry, q.kind), 0, false)
    ensures RunFrom(t, s, acts).Ok?
    ensures var r, n := s.nodes[i], RunFrom(t, s, acts).value.nodes[i];
            n.SendsDone() ==>
              && n.snd.Some?
              && EndSends(n) == Ok((r.(entry := AllSent(r.entry, r.snd.value.kind), snd := None), n.snd.value.wb))
  {
    RunWaits(t, s, acts, i);
    assert NodeOk(t, i, s.nodes[i]);
    var n := RunFrom(t, s, acts).value.nodes[i];
    if n.SendsDone() {
      EndsAsOne(t, i, s.nodes[i], n, s.nodes[i].snd.value.kind);
    }
  }

  /** The state of a parent that serves a request it can satisfy. */
  ghost function OwnState(n: Node): State
    requires n.job.Serving? && BottomAccess(n.job.kind, n.state).Ok?
  {
    BottomAccess(n.job.kind, n.state).value
  }

  /** What the top controller makes of the request that a cache serves. */
  ghost function Served(n: Node): Outcome<(Entry, State)>
    requires n.job.Serving? && BottomAccess(n.job.kind, n.state).Ok?
  {
    TopAccess(n.entry, n.job.kind, n.job.child, Exclusive(OwnState(n)), n.job.noExcl)
  }

  /** The recall goes to the children that the top controller recalls; if there are none, the reply is the top
      controller's. */
  lemma RecallIs(t: Topology, i: nat, n: Node, r: Node)
    requires NodeOk(t, i, n) && n.job.Serving? && n.snd.None? && !IsPut(n.job.kind)
    requires Recall(n, n.job.child, n.job.kind, n.job.noExcl) == Ok(r)
    ensures BottomAccess(n.job.kind, n.state).Ok? && r.state == OwnState(n) && r.job == n.job
    ensures var targets := Recalled(n.entry, n.job.kind, n.job.child, Exclusive(OwnState(n)), n.job.noExcl);
            r.snd == if targets == {} then None else Some(Send(SendKind(n.job.kind), targets, 0, false))
    ensures r.snd.Some? ==>
              && Targets(r.entry, SendKind(n.job.kind)) == r.snd.value.todo
              && Served(n) == Grant(AllSent(r.entry, SendKind(n.job.kind)), n.job.kind, n.job.child,
                                    Exclusive(r.state), n.job.noExcl)
    ensures r.snd.None? ==>
              Served(n) == Grant(r.entry, n.job.kind, n.job.child, Exclusive(r.state), n.job.noExcl)
  {
  }

  /** A reply after `q` sends out nothing more is the top controller's. */
  lemma ReplyIs(t: Topology, s: System, i: nat, n: Node, q: Entry, own: State)
    requires i < |s.nodes| && n.job.Serving? && n.job.child < |s.nodes| && n.job.child != i && DoReply(t, s, i, n).Ok?
    requires EndSends(n).Ok? && EndSends(n).value.0.entry == q && EndSends(n).value.0.state == own
    ensures var s' := DoReply(t, s, i, n).value;
            Grant(q, n.job.kind, n.job.child, Exclusive(own), n.job.noExcl) ==
            Ok((s'.nodes[i].entry, s'.nodes[n.job.child].state))
  {
  }

  /** The directory entry of a cache and the state of the child that it has served. */
  ghost predicate Granted(n: Node, s: System, i: nat)
    requires n.job.Serving? && BottomAccess(n.job.kind, n.state).Ok?
  {
    && i < |s.nodes| && n.job.child < |s.nodes|
    && Served(n) == Ok((s.nodes[i].entry, s.nodes[n.job.child].state))
  }

  /** A request that needs no recall is served by one call of the top controller. */
  lemma ServedAtOnce(t: Topology, s: System, i: nat, r: Node)
    requires Safe(t, s) && Enabled(t, s, Serve(i))
    requires var n := s.nodes[i]; Recall(n, n.job.child, n.job.kind, n.job.noExcl) == Ok(r) && r.snd.None?
    ensures BottomAccess(s.nodes[i].job.kind, s.nodes[i].state).Ok?
    ensures Step(t, s, Serve(i)).Ok? && Granted(s.nodes[i], Step(t, s, Serve(i)).value, i)
  {
    StepSafe(t, s, Serve(i));
    ServingEdge(t, s, i);
    RecallIs(t, i, s.nodes[i], r);
    ReplyIs(t, s, i, r, r.entry, r.state);
  }

  /** The step that begins a recall. */
  lemma RecallBegins(t: Topology, s: System, i: nat, r: Node)
    requires Safe(t, s) && Enabled(t, s, Serve(i))
    requires var n := s.nodes[i]; Recall(n, n.job.child, n.job.kind, n.job.noExcl) == Ok(r) && r.snd.Some?
    ensures var n, s1 := s.nodes[i], Step(t, s, Serve(i));
            && BottomAccess(n.job.kind, n.state).Ok? && s1 == Ok(Update(s, i, r)) && Safe(t, s1.value)
            && r.job == n.job && n.job.child != i && n.job.child < |s.nodes| && !IsPut(n.job.kind)
            && r.snd == Some(Send(SendKind(n.job.kind), Targets(r.entry, SendKind(n.job.kind)), 0, false))
            && r.snd.value.todo == Recalled(n.entry, n.job.kind, n.job.child, Exclusive(OwnState(n)), n.job.noExcl)
            && Served(n) == Grant(AllSent(r.entry, SendKind(n.job.kind)), n.job.kind, n.job.child,
                                  Exclusive(r.state), n.job.noExcl)
  {
    StepSafe(t, s, Serve(i));
    ServingEdge(t, s, i);
    RecallIs(t, i, s.nodes[i], r);
  }

  /** The step that ends it. */
  lemma RecallEnds(t: Topology, s: System, i: nat, acts: seq<Action>)
    requires Safe(t, s) && i < |s.nodes| && s.nodes[i].snd.Some? && s.nodes[i].job.Serving? && NoneEnds(acts, i)
    requires var q := s.nodes[i].snd.value; q == Send(q.kind, Targets(s.nodes[i].entry, q.kind), 0, false)
    ensures RunFrom(t, s, acts).Ok?
    ensures var r, s2 := s.nodes[i], RunFrom(t, s, acts).value;
            Enabled(t, s2, Finish(i)) ==>
              && Step(t, s2, Finish(i)).Ok? && r.job.child < |s.nodes|
              && var s3 := Step(t, s2, Finish(i)).value;
                 Grant(AllSent(r.entry, r.snd.value.kind), r.job.kind, r.job.child, Exclusive(r.state), r.job.noExcl)
                 == Ok((s3.nodes[i].entry, s3.nodes[r.job.child].state))
  {
    SendsAreOneCall(t, s, acts, i);
    RunWaits(t, s, acts, i);
    var r, s2 := s.nodes[i], RunFrom(t, s, acts).value;
    if Enabled(t, s2, Finish(i)) {
      ServingEdge(t, s2, i);
      StepSafe(t, s2, Finish(i));
      ReplyIs(t, s2, i, s2.nodes[i], AllSent(r.entry, r.snd.value.kind), r.state);
    }
  }

  /** A request that needs a recall: whatever happens between the step that begins the recall and the step that ends it,
      together they are one call of the top controller, which recalls the same children. */
  lemma ServedByRecall(t: Topology, s: System, i: nat, r: Node, acts: seq<Action>)
    requires Safe(t, s) && Enabled(t, s, Serve(i)) && NoneEnds(acts, i)
    requires var n := s.nodes[i]; Recall(n, n.job.child, n.job.kind, n.job.noExcl) == Ok(r) && r.snd.Some?
    ensures BottomAccess(s.nodes[i].job.kind, s.nodes[i].state).Ok? && Step(t, s, Serve(i)) == Ok(Update(s, i, r))
    ensures var n := s.nodes[i];
            r.snd.value.todo == Recalled(n.entry, n.job.kind, n.job.child, Exclusive(OwnState(n)), n.job.noExcl)
    ensures RunFrom(t, Update(s, i, r), acts).Ok?
    ensures var s2 := RunFrom(t, Update(s, i, r), acts).value;
            Enabled(t, s2, Finish(i)) ==>
              Step(t, s2, Finish(i)).Ok? && Granted(s.nodes[i], Step(t, s2, Finish(i)).value, i)
  {
    RecallBegins(t, s, i, r);
    RecallEnds(t, Update(s, i, r), i, acts);
  }

  // ----- dirty data during an invalidation -----

  ghost predicate NotAnswered(acts: seq<Action>, d: nat) {
    forall k :: 0 <= k < |acts| ==> acts[k] != InvDone(d)
  }

  /** A cache that is being invalidated stays so until it answers. */
  lemma StaysInvalidated(t: Topology, s: System, a: Action, d: nat)
    requires Inv(t, s) && Enabled(t, s, a) && Step(t, s, a).Ok? && d < |s.nodes|
    requires s.nodes[d].inv.Some? && a != InvDone(d)
    ensures Step(t, s, a).value.nodes[d].inv == s.nodes[d].inv
  {
    if !AnswersTo(t, a, d) {
      HeldStays(t, s, a, d);
    }
  }

  /** Until the cache answers, the dirty data below it stays below it. */
  lemma StaysBelow(t: Topology, s: System, a: Action, d: nat)
    requires Safe(t, s) && Enabled(t, s, a) && d < |s.nodes|
    requires s.nodes[d].inv.Some? && a != InvDone(d) && DirtyBelow(t, s, d)
    ensures Step(t, s, a).Ok? && DirtyBelow(t, Step(t, s, a).value, d)
  {
    DirtHandedUp(t, s, a, d);
    HeldIsAwaited(t, s, d);
    if a == Accept(d) {
      HeldNotAsked(t, s, d, d);
    }
  }

  lemma {:induction false} RunStaysBelow(t: Topology, s: System, acts: seq<Action>, d: nat)
    requires Safe(t, s) && d < |s.nodes| && s.nodes[d].inv.Some? && NotAnswered(acts, d) && DirtyBelow(t, s, d)
    ensures RunFrom(t, s, acts).Ok? && Safe(t, RunFrom(t, s, acts).value)
    ensures RunFrom(t, s, acts).value.nodes[d].inv == s.nodes[d].inv && DirtyBelow(t, RunFrom(t, s, acts).value, d)
  {
    RunFromSafe(t, s, acts);
    if acts != [] {
      var before, a := acts[..|acts| - 1], acts[|acts| - 1];
      RunStaysBelow(t, s, before, d);
      var m := RunFrom(t, s, before).value;
      if Enabled(t, m, a) {
        StaysBelow(t, m, a, d);
        StaysInvalidated(t, m, a, d);
      }
    }
  }

  lemma InvalidationBegins(t: Topology, s: System, d: nat)
    requires Safe(t, s) && Enabled(t, s, InvStart(d)) && DirtyBelow(t, s, d)
    ensures Step(t, s, InvStart(d)).Ok? && Safe(t, Step(t, s, InvStart(d)).value)
    ensures var s1 := Step(t, s, InvStart(d)).value; s1.nodes[d].inv.Some? && DirtyBelow(t, s1, d)
  {
    StepSafe(t, s, InvStart(d));
    DirtHandedUp(t, s, InvStart(d), d);
  }

  /** If there is dirty data below a cache when its invalidation begins, then whatever happens until it answers, its
      answer raises the sender's writeback flag. */
  lemma InvalidationLosesNothing(t: Topology, s: System, acts: seq<Action>, d: nat)
    requires Safe(t, s) && Enabled(t, s, InvStart(d)) && DirtyBelow(t, s, d) && NotAnswered(acts, d)
    ensures Step(t, s, InvStart(d)).Ok? && RunFrom(t, Step(t, s, InvStart(d)).value, acts).Ok?
    ensures var s2 := RunFrom(t, Step(t, s, InvStart(d)).value, acts).value;
            Enabled(t, s2, InvDone(d)) ==>
              && Step(t, s2, InvDone(d)).Ok?
              && var p := Step(t, s2, InvDone(d)).value.nodes[t.parent[d]]; p.snd.Some? && p.snd.value.wb
  {
    InvalidationBegins(t, s, d);
    var s1 := Step(t, s, InvStart(d)).value;
    RunStaysBelow(t, s1, acts, d);
    var s2 := RunFrom(t, s1, acts).value;
    if Enabled(t, s2, InvDone(d)) {
      var s3 := AnswerRaisesFlag(t, s2, d);
    }
  }
}
