/** Whatever is under way in the tree comes to an end: a measure of the work left that every step lowers, except those
    that make a new request. */
module MesiProgress {
  import opened Wrappers
  import opened Mesi
  import opened MesiTree
  import opened MesiSafety
  import opened MesiTheorems
  import opened MesiSpans

  // ----- the work that is left -----

  /** The steps that it takes to invalidate a cache and everything below it. */
  ghost function Recalling(t: Topology, p: nat): (w: nat)
    requires t.Ok() && p < |t.parent|
    decreases |t.parent| - p, |t.parent| + 1
  {
    2 + RecallingBelow(t, p, |t.parent|)
  }

  /** The same for those of the first `n` caches that are children of `p`. */
  ghost function RecallingBelow(t: Topology, p: nat, n: nat): nat
    requires t.Ok() && p < |t.parent| && n <= |t.parent|
    decreases |t.parent| - p, n
  {
    if n == 0 then 0
    else RecallingBelow(t, p, n - 1) + if t.IsChild(n - 1, p) then Recalling(t, n - 1) else 0
  }

  /** The most steps that it takes to satisfy a request of cache `c`. */
  ghost function Asking(t: Topology, c: nat): nat
    requires t.Ok() && c < |t.parent|
  {
    if c == 0 then 1 else 2 + Recalling(t, t.parent[c]) + Asking(t, t.parent[c])
  }

  /** What is left of an invalidation that the parent sends. */
  ghost function InvWork(t: Topology, c: nat, n: Node, awaited: bool): nat
    requires t.Ok() && c < |t.parent|
  {
    if !awaited then 0 else if n.inv.None? then Recalling(t, c) else 1
  }

  /** What is left of a request, until the parent takes it on. */
  ghost function RequestWork(t: Topology, c: nat, n: Node, served: bool): nat
    requires t.Ok() && c < |t.parent|
  {
    if n.up.None? || served then 0 else if IsPut(n.up.value.kind) then 1 else Asking(t, c)
  }

  /** What is left of a job, not counting what it waits for. */
  ghost function JobWork(t: Topology, c: nat, n: Node): nat
    requires t.Ok() && c < |t.parent|
  {
    match n.job
    case Idle => 0
    case Evicting => if n.up.None? then 2 else 0
    case Serving(_, kind, _) =>
      if n.up.Some? then Recalling(t, c)
      else if n.snd.Some? then 1
      else if NeedsParent(kind, n.state) then Recalling(t, c) + 1 + Asking(t, c)
      else Recalling(t, c)
  }

  ghost predicate Awaited(t: Topology, s: System, c: nat)
    requires t.Ok() && c < |t.parent| == |s.nodes|
  {
    c > 0 && s.nodes[t.parent[c]].snd.Some? && c in s.nodes[t.parent[c]].snd.value.todo
  }

  ghost predicate BeingServed(t: Topology, s: System, c: nat)
    requires t.Ok() && c < |t.parent| == |s.nodes|
  {
    c > 0 && s.nodes[t.parent[c]].job.Serving? && s.nodes[t.parent[c]].job.child == c
  }

  ghost function Work(t: Topology, s: System, c: nat): nat
    requires t.Ok() && c < |t.parent| == |s.nodes|
  {
    var n := s.nodes[c];
    InvWork(t, c, n, Awaited(t, s, c)) + RequestWork(t, c, n, BeingServed(t, s, c)) + JobWork(t, c, n)
  }

  /** The work left at the first `n` caches. */
  ghost function WorkOf(t: Topology, s: System, n: nat): nat
    requires t.Ok() && n <= |t.parent| == |s.nodes|
  {
    if n == 0 then 0 else WorkOf(t, s, n - 1) + Work(t, s, n - 1)
  }

  ghost function AllWork(t: Topology, s: System): nat
    requires t.Ok() && |t.parent| == |s.nodes|
  {
    WorkOf(t, s, |t.parent|)
  }

  // ----- sums -----

  /** From `s` to `s'` only caches `i` and `j` may have gained or lost work, and the children of `i` may have to be
      invalidated if `sends`. */
  ghost predicate Shifts(t: Topology, s: System, s': System, i: nat, j: nat, sends: bool)
    requires t.Ok() && |t.parent| == |s.nodes| == |s'.nodes|
  {
    forall c: nat :: c < |t.parent| && c != i && c != j ==>
      Work(t, s', c) <= Work(t, s, c) + if sends && t.IsChild(c, i) then Recalling(t, c) else 0
  }

  ghost function GainAt(t: Topology, s: System, s': System, i: nat, n: nat): int
    requires t.Ok() && |t.parent| == |s.nodes| == |s'.nodes| && i < |t.parent|
  {
    if i < n then Work(t, s', i) - Work(t, s, i) else 0
  }

  lemma {:induction false} ShiftsSum(t: Topology, s: System, s': System, i: nat, j: nat, sends: bool, n: nat)
    requires t.Ok() && n <= |t.parent| == |s.nodes| == |s'.nodes| && i < |t.parent| && j < |t.parent|
    requires Shifts(t, s, s', i, j, sends)
    ensures WorkOf(t, s', n) <=
            WorkOf(t, s, n) + (if sends then RecallingBelow(t, i, n) else 0) + GainAt(t, s, s', i, n)
            + (if j != i then GainAt(t, s, s', j, n) else 0)
  {
    if n > 0 {
      ShiftsSum(t, s, s', i, j, sends, n - 1);
    }
  }

  /** If the two caches together lose more than the children of the one can gain, there is less work left. */
  lemma ShiftLowers(t: Topology, s: System, s': System, i: nat, j: nat, sends: bool)
    requires t.Ok() && |t.parent| == |s.nodes| == |s'.nodes| && i < |t.parent| && j < |t.parent|
    requires Shifts(t, s, s', i, j, sends)
    requires Work(t, s', i) + (if j != i then Work(t, s', j) else 0) + (if sends then Recalling(t, i) - 2 else 0) <
             Work(t, s, i) + (if j != i then Work(t, s, j) else 0)
    ensures AllWork(t, s') < AllWork(t, s)
  {
    ShiftsSum(t, s, s', i, j, sends, |t.parent|);
  }

  // ----- every step but a new request lowers it -----

  /** When cache `i` begins to wait for its children, only it and they are concerned. */
  lemma SendShifts(t: Topology, s: System, i: nat, m: Node)
    requires t.Ok() && i < |t.parent| == |s.nodes| && s.nodes[i].snd.None? && m.job == s.nodes[i].job
    ensures Shifts(t, s, Update(s, i, m), i, i, true)
  {
    var s' := Update(s, i, m);
    forall c: nat | c < |t.parent| && c != i
      ensures Work(t, s', c) <= Work(t, s, c) + if t.IsChild(c, i) then Recalling(t, c) else 0
    {
      assert s'.nodes[c] == s.nodes[c] && (BeingServed(t, s', c) <==> BeingServed(t, s, c));
      assert t.IsChild(c, i) || (Awaited(t, s', c) <==> Awaited(t, s, c));
    }
  }

  lemma InvStartLowers(t: Topology, s: System, i: nat)
    requires Inv(t, s) && Enabled(t, s, InvStart(i)) && Step(t, s, InvStart(i)).Ok?
    ensures AllWork(t, Step(t, s, InvStart(i)).value) < AllWork(t, s)
  {
    var s' := Step(t, s, InvStart(i)).value;
    assert NodeOk(t, i, s.nodes[i]);
    SendShifts(t, s, i, s'.nodes[i]);
    assert Awaited(t, s, i) && Awaited(t, s', i) && (BeingServed(t, s', i) <==> BeingServed(t, s, i));
    ShiftLowers(t, s, s', i, i, true);
  }

  /** What an answer leaves as it is at the other caches. */
  lemma AnswerElse(t: Topology, s: System, i: nat, c: nat)
    requires Inv(t, s) && Enabled(t, s, InvDone(i)) && Step(t, s, InvDone(i)).Ok? && c < |t.parent| && c != i
    ensures var n, m := s.nodes[c], Step(t, s, InvDone(i)).value.nodes[c];
            m.up == n.up && m.job == n.job && m.inv == n.inv && m.state == n.state && (m.snd.Some? <==> n.snd.Some?)
  {
  }

  lemma AnswerAwaits(t: Topology, s: System, i: nat, c: nat)
    requires Inv(t, s) && Enabled(t, s, InvDone(i)) && Step(t, s, InvDone(i)).Ok? && c < |t.parent| && c != i
    ensures var s' := Step(t, s, InvDone(i)).value;
            (Awaited(t, s', c) ==> Awaited(t, s, c)) && (BeingServed(t, s', c) <==> BeingServed(t, s, c))
  {
  }

  /** The answer of cache `i` leaves the others as much work as before. */
  lemma AnswerShifts(t: Topology, s: System, i: nat)
    requires Inv(t, s) && Enabled(t, s, InvDone(i)) && Step(t, s, InvDone(i)).Ok?
    ensures Shifts(t, s, Step(t, s, InvDone(i)).value, i, i, false)
  {
    var s' := Step(t, s, InvDone(i)).value;
    forall c: nat | c < |t.parent| && c != i
      ensures Work(t, s', c) <= Work(t, s, c)
    {
      AnswerElse(t, s, i, c);
      AnswerAwaits(t, s, i, c);
      SameWork(t, c, s.nodes[c], s'.nodes[c]);
    }
  }

  /** The work for requests and jobs depends on no more than this. */
  lemma SameWork(t: Topology, c: nat, n: Node, m: Node)
    requires t.Ok() && c < |t.parent|
    requires m.up == n.up && m.job == n.job && m.inv == n.inv && m.state == n.state && (m.snd.Some? <==> n.snd.Some?)
    ensures JobWork(t, c, m) == JobWork(t, c, n)
    ensures forall b :: RequestWork(t, c, m, b) == RequestWork(t, c, n, b) && InvWork(t, c, m, b) == InvWork(t, c, n, b)
  {
  }

  lemma InvDoneLowers(t: Topology, s: System, i: nat)
    requires Inv(t, s) && Enabled(t, s, InvDone(i)) && Step(t, s, InvDone(i)).Ok?
    ensures AllWork(t, Step(t, s, InvDone(i)).value) < AllWork(t, s)
  {
    var s' := Step(t, s, InvDone(i)).value;
    AnswerShifts(t, s, i);
    assert NodeOk(t, i, s.nodes[i]) && EdgeOk(s.nodes[t.parent[i]], s.nodes[i], i);
    ShiftLowers(t, s, s', i, i, false);
  }

  lemma EvictUpLowers(t: Topology, s: System, i: nat)
    requires Inv(t, s) && Enabled(t, s, EvictUp(i)) && Step(t, s, EvictUp(i)).Ok?
    ensures AllWork(t, Step(t, s, EvictUp(i)).value) < AllWork(t, s)
  {
    var s' := Step(t, s, EvictUp(i)).value;
    ShiftLowers(t, s, s', i, i, false);
  }

  lemma ForwardLowers(t: Topology, s: System, i: nat)
    requires Inv(t, s) && Enabled(t, s, Forward(i)) && Step(t, s, Forward(i)).Ok?
    ensures AllWork(t, Step(t, s, Forward(i)).value) < AllWork(t, s)
  {
    var s' := Step(t, s, Forward(i)).value;
    assert NodeOk(t, i, s.nodes[i]);
    ShiftLowers(t, s, s', i, i, false);
  }

  lemma MemServeLowers(t: Topology, s: System)
    requires Inv(t, s) && Enabled(t, s, MemServe) && Step(t, s, MemServe).Ok?
    ensures AllWork(t, Step(t, s, MemServe).value) < AllWork(t, s)
  {
    var s' := Step(t, s, MemServe).value;
    assert NodeOk(t, 0, s.nodes[0]);
    ShiftLowers(t, s, s', 0, 0, false);
  }

  /** Taking on the request of cache `i` leaves the caches other than it and its parent as much work as before. */
  lemma AcceptShifts(t: Topology, s: System, i: nat)
    requires Inv(t, s) && Enabled(t, s, Accept(i)) && Step(t, s, Accept(i)).Ok?
    ensures Shifts(t, s, Step(t, s, Accept(i)).value, i, t.parent[i], false)
  {
    var s', p := Step(t, s, Accept(i)).value, t.parent[i];
    forall c: nat | c < |t.parent| && c != i && c != p
      ensures Work(t, s', c) <= Work(t, s, c)
    {
      assert s'.nodes[c] == s.nodes[c];
      assert Awaited(t, s', c) <==> Awaited(t, s, c);
      if BeingServed(t, s, c) {
        assert t.parent[c] != p;
        assert NodeOk(t, i, s.nodes[i]);
        assert t.parent[c] == i ==> s.nodes[i].job.Serving?;
      }
    }
  }

  /** What parent and child come to when the parent takes on the child's request. */
  lemma AcceptPair(t: Topology, i: nat, p: Node, ci: nat, c: Node)
    requires t.Ok() && t.IsChild(ci, i) && NodeOk(t, i, p) && NodeOk(t, ci, c) && c.up.Some?
    requires p.job.Idle? && p.BottomFree() && AcceptRequest(p, c, ci).Ok?
    ensures var (q, d) := AcceptRequest(p, c, ci).value;
            && q.up.None? && p.up.None? && q.inv == p.inv && d.inv == c.inv && JobWork(t, i, p) == 0
            && if IsPut(c.up.value.kind) then
                 q.job.Idle? && d.up.None? && JobWork(t, ci, d) == 0 && RequestWork(t, ci, c, false) == 1
               else
                 d == c && q.job.Serving? && q.job.child == ci && JobWork(t, i, q) < RequestWork(t, ci, c, false)
  {
    assert Asking(t, ci) == 2 + Recalling(t, i) + Asking(t, i);
  }

  lemma AcceptLowers(t: Topology, s: System, i: nat)
    requires Inv(t, s) && Enabled(t, s, Accept(i)) && Step(t, s, Accept(i)).Ok?
    ensures AllWork(t, Step(t, s, Accept(i)).value) < AllWork(t, s)
  {
    var s', p := Step(t, s, Accept(i)).value, t.parent[i];
    assert NodeOk(t, i, s.nodes[i]) && NodeOk(t, p, s.nodes[p]);
    AcceptPair(t, p, s.nodes[p], i, s.nodes[i]);
    AcceptShifts(t, s, i);
    assert Awaited(t, s', i) <==> Awaited(t, s, i);
    assert Awaited(t, s', p) <==> Awaited(t, s, p);
    ShiftLowers(t, s, s', i, p, false);
  }

  /** What parent and child come to when the parent replies. */
  lemma ReplyPair(t: Topology, i: nat, p: Node, ci: nat, c: Node, kind: AccessType, noExcl: bool)
    requires t.Ok() && t.IsChild(ci, i) && NodeOk(t, ci, c) && c.up.Some? && c.up.value.kind == kind && !IsPut(kind)
    requires Reply(p, c, ci, kind, noExcl).Ok?
    ensures var (q, d) := Reply(p, c, ci, kind, noExcl).value;
            && q.job.Idle? && q.up == p.up && q.inv == p.inv && q.snd.None?
            && d.up.None? && d.inv == c.inv && d.snd == c.snd && d.job == c.job
            && JobWork(t, ci, d) <= JobWork(t, ci, c)
  {
  }

  lemma ReplyShifts(t: Topology, s: System, i: nat, r: Node)
    requires Inv(t, s) && i < |s.nodes| && s.nodes[i].job.Serving? && s.nodes[i].SendsDone()
    requires r.job == s.nodes[i].job && t.IsChild(r.job.child, i) && DoReply(t, s, i, r).Ok?
    ensures |DoReply(t, s, i, r).value.nodes| == |s.nodes|
    ensures Shifts(t, s, DoReply(t, s, i, r).value, i, r.job.child, false)
  {
    var s', ci := DoReply(t, s, i, r).value, r.job.child;
    forall c: nat | c < |t.parent| && c != i && c != ci
      ensures Work(t, s', c) <= Work(t, s, c)
    {
      assert s'.nodes[c] == s.nodes[c];
      assert Awaited(t, s', c) ==> Awaited(t, s, c);
      assert BeingServed(t, s', c) <==> BeingServed(t, s, c);
    }
  }

  lemma ReplyLowers(t: Topology, s: System, i: nat, r: Node)
    requires Inv(t, s) && i < |s.nodes| && s.nodes[i].job.Serving? && s.nodes[i].Running()
    requires r.job == s.nodes[i].job && r.up.None? && r.inv.None? && DoReply(t, s, i, r).Ok?
    requires s.nodes[i].SendsDone()
    ensures |DoReply(t, s, i, r).value.nodes| == |s.nodes|
    ensures AllWork(t, DoReply(t, s, i, r).value) < AllWork(t, s)
  {
    ServingEdge(t, s, i);
    var s', ci := DoReply(t, s, i, r).value, r.job.child;
    ReplyPair(t, i, r, ci, s.nodes[ci], r.job.kind, r.job.noExcl);
    ReplyShifts(t, s, i, r);
    assert !Awaited(t, s', ci) && (Awaited(t, s', i) <==> Awaited(t, s, i));
    ShiftLowers(t, s, s', i, ci, false);
  }

  lemma RecallKeepsLocks(n: Node, ci: nat, kind: AccessType, noExcl: bool)
    requires Recall(n, ci, kind, noExcl).Ok?
    ensures var r := Recall(n, ci, kind, noExcl).value; r.job == n.job && r.up == n.up && r.inv == n.inv
  {
  }

  lemma ServeLowers(t: Topology, s: System, i: nat)
    requires Inv(t, s) && Enabled(t, s, Serve(i)) && Step(t, s, Serve(i)).Ok?
    ensures AllWork(t, Step(t, s, Serve(i)).value) < AllWork(t, s)
  {
    var n := s.nodes[i];
    ServingEdge(t, s, i);
    RecallKeepsLocks(n, n.job.child, n.job.kind, n.job.noExcl);
    var r := Recall(n, n.job.child, n.job.kind, n.job.noExcl).value;
    if r.snd.None? {
      ReplyLowers(t, s, i, r);
    } else {
      SendShifts(t, s, i, r);
      ShiftLowers(t, s, Update(s, i, r), i, i, true);
    }
  }

  /** Every step that serves what has already been asked for leaves less work. */
  lemma StepLowers(t: Topology, s: System, a: Action)
    requires Safe(t, s) && Enabled(t, s, a) && Internal(a)
    ensures Step(t, s, a).Ok? && AllWork(t, Step(t, s, a).value) < AllWork(t, s)
  {
    StepSafe(t, s, a);
    match a
    case MemServe => MemServeLowers(t, s);
    case Accept(i) => AcceptLowers(t, s, i);
    case Serve(i) => ServeLowers(t, s, i);
    case Finish(i) => ReplyLowers(t, s, i, s.nodes[i]);
    case InvStart(i) => InvStartLowers(t, s, i);
    case InvDone(i) => InvDoneLowers(t, s, i);
    case EvictUp(i) => EvictUpLowers(t, s, i);
    case Forward(i) => ForwardLowers(t, s, i);
  }

  // ----- whole runs -----

  /** Every action of the run is taken, and none makes a new request. */
  ghost predicate Taken(t: Topology, s: System, acts: seq<Action>)
    requires |s.nodes| == |t.parent|
  {
    acts == [] ||
    var before, a := acts[..|acts| - 1], acts[|acts| - 1];
    && Taken(t, s, before) && Internal(a)
    && RunFrom(t, s, before).Ok? && Enabled(t, RunFrom(t, s, before).value, a)
  }

  lemma {:induction false} RunLowers(t: Topology, s: System, acts: seq<Action>)
    requires Safe(t, s) && Taken(t, s, acts)
    ensures RunFrom(t, s, acts).Ok? && Safe(t, RunFrom(t, s, acts).value)
    ensures AllWork(t, RunFrom(t, s, acts).value) + |acts| <= AllWork(t, s)
  {
    if acts != [] {
      var before, a := acts[..|acts| - 1], acts[|acts| - 1];
      RunLowers(t, s, before);
      StepSafe(t, RunFrom(t, s, before).value, a);
      StepLowers(t, RunFrom(t, s, before).value, a);
    }
  }

  /** All that is under way in a reachable state is completed, in whatever order it is served, after a number of steps
      that is fixed beforehand: a run without new requests has no more than AllWork steps; it can go on as long as
      anything is under way; and after AllWork steps nothing is. */
  lemma AllIsCompleted(t: Topology, s: System, acts: seq<Action>)
    requires t.Ok() && Reachable(t, s) && |s.nodes| == |t.parent| && Taken(t, s, acts)
    ensures RunFrom(t, s, acts).Ok? && |acts| <= AllWork(t, s)
    ensures var s' := RunFrom(t, s, acts).value;
            && (AllQuiet(s') || exists a :: Internal(a) && Enabled(t, s', a))
            && (|acts| == AllWork(t, s) ==> AllQuiet(s'))
  {
    var past :| Run(t, past) == Ok(s);
    RunSafe(t, past);
    RunLowers(t, s, acts);
    var s' := RunFrom(t, s, acts).value;
    if !AllQuiet(s') {
      BusyMoves(t, s');
      var a :| Internal(a) && Enabled(t, s', a);
      StepLowers(t, s', a);
    }
  }
}
