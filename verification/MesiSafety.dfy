/** The invariant of the coherence tree, and its preservation by every step. It is local: it speaks of one
    cache at a time and of one parent and child at a time. */
module MesiSafety {
  import opened Wrappers
  import opened Mesi
  import opened MesiTree

  // ----- the invariant -----

  /** The repair of races rests on this: how a requester's state can have changed since it asked. */
  ghost predicate ReqOk(r: Req, state: State) {
    match r.kind
    case GETS => r.initial == I && state == I
    case GETX => (r.initial == I || r.initial == S) && (state == r.initial || state == I)
    case PUTS => (r.initial == S || r.initial == E) && (state == r.initial || state == S || state == I)
    case PUTX => r.initial == M && (state == M || state == S || state == I)
  }

  /** The directory entry counts its sharers, also while invalidations are being sent. */
  ghost predicate DirectoryOk(t: Topology, i: nat, n: Node) {
    var e := n.entry;
    && (forall d :: d in e.sharers ==> t.IsChild(d, i))
    && (e.exclusive ==> |e.sharers| <= 1)
    && match n.snd
       case None => e.numSharers == |e.sharers|
       case Some(s) =>
         && e.numSharers == s.sent + |s.todo|
         && if s.kind == INV then s.todo == e.sharers
            else e.numSharers == 1 == |e.sharers| && e.exclusive && s.todo <= e.sharers
  }

  ghost predicate SendOk(n: Node) {
    n.snd.Some? ==>
      var s := n.snd.value;
      && (s.wb ==> Exclusive(n.state))
      && match n.inv
         case Some(k) => k == s.kind
         case None =>
           && n.Running()
           && match n.job
              case Serving(_, kind, _) => s.kind == SendKind(kind) && n.state != I && (kind == GETX ==> n.state == M)
              case _ => s.kind == INV
  }

  ghost predicate InvOk(i: nat, n: Node) {
    n.inv.Some? ==>
      && i > 0
      && (n.job.Idle? || n.up.Some?) && n.state != I
      && (n.inv.value == INVX ==> Exclusive(n.state))
      && (n.snd.None? ==> if n.inv.value == INV then n.entry.sharers == {} else !n.entry.IsExclusive())
  }

  ghost predicate JobOk(t: Topology, i: nat, n: Node) {
    match n.job
    case Idle => n.up.Some? ==> t.Terminal(i) && !IsPut(n.up.value.kind)
    case Serving(c, kind, noExcl) =>
      && t.IsChild(c, i) && !IsPut(kind)
      && (n.up.Some? ==> n.up.value.kind == kind)
    case Evicting =>
      && (n.up.Some? ==> IsPut(n.up.value.kind))
      && (n.inv.None? && n.snd.None? ==> n.entry.sharers == {})
  }

  ghost predicate NodeOk(t: Topology, i: nat, n: Node) {
    && DirectoryOk(t, i, n) && SendOk(n) && InvOk(i, n) && JobOk(t, i, n)
    && (n.up.Some? ==> ReqOk(n.up.value, n.state) && (IsPut(n.up.value.kind) ==> n.entry.sharers == {}))
  }

  /** `p` has taken its child `ci` out of the directory in order to give it the line in M. */
  ghost predicate Upgrading(p: Node, ci: nat) {
    p.Running() && p.job.Serving? && p.job.child == ci && p.job.kind == GETX && p.snd.Some?
  }

  ghost predicate EdgeOk(p: Node, c: Node, ci: nat) {
    && Covers(p.state, c.state)
    && (if Upgrading(p, ci) then ci !in p.entry.sharers else ci in p.entry.sharers <==> c.state != I)
    && (Upgrading(p, ci) && c.state != I ==> !p.entry.exclusive)
    && (Exclusive(c.state) ==> p.entry.exclusive && p.entry.sharers == {ci})
    && (ci in p.entry.sharers && p.entry.exclusive && (p.snd.None? || ci in p.snd.value.todo) ==> Exclusive(c.state))
    && (ci in p.entry.sharers && p.snd.Some? && ci !in p.snd.value.todo ==> c.state == S)
    && (c.inv.Some? ==> p.snd.Some? && ci in p.snd.value.todo && p.snd.value.kind == c.inv.value)
    && (p.job.Serving? && p.job.child == ci ==> c.up.Some? && c.up.value.kind == p.job.kind)
  }

  ghost predicate Inv(t: Topology, s: System) {
    && t.Ok() && |s.nodes| == |t.parent|
    && (forall i: nat :: i < |s.nodes| ==> NodeOk(t, i, s.nodes[i]))
    && (forall c: nat :: 0 < c < |s.nodes| ==> EdgeOk(s.nodes[t.parent[c]], s.nodes[c], c))
  }

  // ----- framing: replacing one cache, or a parent and a child -----

  /** The parent `i` may turn from `n` into `m` without disturbing the relation to any child but `except`. */
  ghost predicate KeepsChildren(t: Topology, i: nat, n: Node, m: Node, except: int) {
    forall c: Node, ci: nat ::
      t.IsChild(ci, i) && ci != except && NodeOk(t, ci, c) && EdgeOk(n, c, ci) ==> EdgeOk(m, c, ci)
  }

  /** The child `i` may turn from `n` into `m` without disturbing the relation to its parent. */
  ghost predicate KeepsParent(t: Topology, i: nat, n: Node, m: Node) {
    forall p: Node, pi: nat :: t.IsChild(i, pi) && NodeOk(t, pi, p) && EdgeOk(p, n, i) ==> EdgeOk(p, m, i)
  }

  ghost predicate Replaces(t: Topology, i: nat, n: Node, m: Node) {
    NodeOk(t, i, m) && KeepsParent(t, i, n, m) && KeepsChildren(t, i, n, m, -1)
  }

  ghost predicate Replaces2(t: Topology, i: nat, p: Node, q: Node, ci: nat, c: Node, d: Node) {
    && NodeOk(t, i, q) && NodeOk(t, ci, d) && EdgeOk(q, d, ci)
    && KeepsParent(t, i, p, q) && KeepsChildren(t, i, p, q, ci)
    && KeepsChildren(t, ci, c, d, -1)
  }

  lemma ReplaceOne(t: Topology, s: System, i: nat, m: Node)
    requires Inv(t, s) && i < |s.nodes| && NodeOk(t, i, m) && KeepsChildren(t, i, s.nodes[i], m, -1)
    requires i > 0 && EdgeOk(s.nodes[t.parent[i]], s.nodes[i], i) ==> EdgeOk(s.nodes[t.parent[i]], m, i)
    ensures Inv(t, Update(s, i, m))
  {
    var s' := Update(s, i, m);
    forall c: nat | 0 < c < |s.nodes|
      ensures EdgeOk(s'.nodes[t.parent[c]], s'.nodes[c], c)
    {
      var p := t.parent[c];
      assert EdgeOk(s.nodes[p], s.nodes[c], c);
      assert NodeOk(t, c, s.nodes[c]) && NodeOk(t, p, s.nodes[p]);
      assert t.IsChild(c, p);
    }
  }

  lemma ReplaceTwo(t: Topology, s: System, i: nat, q: Node, ci: nat, d: Node)
    requires Inv(t, s) && i < |s.nodes| && t.IsChild(ci, i)
    requires Replaces2(t, i, s.nodes[i], q, ci, s.nodes[ci], d)
    ensures Inv(t, Update2(s, i, q, ci, d))
  {
    var s' := Update2(s, i, q, ci, d);
    forall c: nat | 0 < c < |s.nodes|
      ensures EdgeOk(s'.nodes[t.parent[c]], s'.nodes[c], c)
    {
      var p := t.parent[c];
      assert EdgeOk(s.nodes[p], s.nodes[c], c);
      assert NodeOk(t, c, s.nodes[c]) && NodeOk(t, p, s.nodes[p]);
      assert t.IsChild(c, p);
    }
  }

  // ----- the steps that change one cache -----

  lemma AskParentOk(t: Topology, i: nat, n: Node, kind: AccessType, noExcl: bool)
    requires NodeOk(t, i, n) && n.up.None? && n.inv.None? && n.snd.None?
    requires NeedsParent(kind, n.state)
    requires (n.job.Idle? && t.Terminal(i)) || (n.job.Serving? && n.job.kind == kind)
    ensures Replaces(t, i, n, AskParent(n, kind, noExcl))
  {
  }

  lemma SilentStoreOk(t: Topology, i: nat, n: Node)
    requires NodeOk(t, i, n) && n.job.Idle? && n.up.None? && n.inv.None? && n.snd.None?
    requires !NeedsParent(GETX, n.state)
    ensures BottomAccess(GETX, n.state).Ok?
    ensures Replaces(t, i, n, n.(state := BottomAccess(GETX, n.state).value))
  {
  }

  lemma StartEvictOk(t: Topology, i: nat, n: Node)
    requires NodeOk(t, i, n) && n.job.Idle? && n.up.None? && n.inv.None?
    ensures Replaces(t, i, n, StartSends(n.(job := Evicting), INV))
  {
  }

  lemma PutUpOk(t: Topology, i: nat, n: Node)
    requires NodeOk(t, i, n) && n.job.Evicting? && n.Running() && n.SendsDone()
    ensures PutUp(n).Ok? && Replaces(t, i, n, PutUp(n).value)
  {
  }

  lemma RecallOk(t: Topology, i: nat, n: Node, c: Node)
    requires NodeOk(t, i, n) && n.job.Serving? && n.Running() && n.snd.None?
    requires !NeedsParent(n.job.kind, n.state)
    requires NodeOk(t, n.job.child, c) && EdgeOk(n, c, n.job.child)
    ensures var r := Recall(n, n.job.child, n.job.kind, n.job.noExcl);
            && r.Ok?
            && (r.value.snd.Some? ==> NodeOk(t, i, r.value) && EdgeOk(r.value, c, n.job.child))
            && (r.value.snd.Some? ==> KeepsParent(t, i, n, r.value) && KeepsChildren(t, i, n, r.value, n.job.child))
  {
  }

  /** What a parent that serves its child at once turns both into. */
  ghost function ServeAtOnce(n: Node, c: Node): Outcome<(Node, Node)>
    requires n.job.Serving?
  {
    var Serving(ci, kind, noExcl) := n.job;
    var r :- Recall(n, ci, kind, noExcl);
    Reply(r, c, ci, kind, noExcl)
  }

  ghost predicate ReadyToServe(t: Topology, i: nat, n: Node, c: Node) {
    && NodeOk(t, i, n) && n.job.Serving? && n.Running() && n.snd.None?
    && !NeedsParent(n.job.kind, n.state)
    && NodeOk(t, n.job.child, c) && EdgeOk(n, c, n.job.child)
    && Recall(n, n.job.child, n.job.kind, n.job.noExcl).Ok?
    && Recall(n, n.job.child, n.job.kind, n.job.noExcl).value.snd.None?
  }

  lemma ServeGetsExclusiveOk(t: Topology, i: nat, n: Node, c: Node)
    requires ReadyToServe(t, i, n, c) && GivesE(n.entry, n.job.kind, Exclusive(n.state), n.job.noExcl)
    ensures var a := ServeAtOnce(n, c);
            a.Ok? && Replaces2(t, i, n, a.value.0, n.job.child, c, a.value.1)
  {
    assert n.entry.sharers == {};
  }

  lemma ServeGetsSharedOk(t: Topology, i: nat, n: Node, c: Node)
    requires ReadyToServe(t, i, n, c) && n.job.kind == GETS
    requires !GivesE(n.entry, n.job.kind, Exclusive(n.state), n.job.noExcl)
    ensures var a := ServeAtOnce(n, c);
            a.Ok? && Replaces2(t, i, n, a.value.0, n.job.child, c, a.value.1)
  {
    assert !n.entry.IsExclusive();
  }

  lemma ServeUpgradeOk(t: Topology, i: nat, n: Node, c: Node)
    requires ReadyToServe(t, i, n, c) && n.job.kind == GETX && n.job.child in n.entry.sharers
    ensures var a := ServeAtOnce(n, c);
            a.Ok? && Replaces2(t, i, n, a.value.0, n.job.child, c, a.value.1)
  {
    var ci, e := n.job.child, n.entry;
    assert |e.sharers - {ci}| == |e.sharers| - 1;
    assert e.sharers == {ci};
  }

  lemma ServeGetxOk(t: Topology, i: nat, n: Node, c: Node)
    requires ReadyToServe(t, i, n, c) && n.job.kind == GETX && n.job.child !in n.entry.sharers
    ensures var a := ServeAtOnce(n, c);
            a.Ok? && Replaces2(t, i, n, a.value.0, n.job.child, c, a.value.1)
  {
    assert n.entry.sharers == {};
  }

  lemma ServeAtOnceOk(t: Topology, i: nat, n: Node, c: Node)
    requires ReadyToServe(t, i, n, c)
    ensures var a := ServeAtOnce(n, c);
            a.Ok? && Replaces2(t, i, n, a.value.0, n.job.child, c, a.value.1)
  {
    if n.job.kind == GETX && n.job.child in n.entry.sharers {
      ServeUpgradeOk(t, i, n, c);
    } else if n.job.kind == GETX {
      ServeGetxOk(t, i, n, c);
    } else if GivesE(n.entry, n.job.kind, Exclusive(n.state), n.job.noExcl) {
      ServeGetsExclusiveOk(t, i, n, c);
    } else {
      ServeGetsSharedOk(t, i, n, c);
    }
  }

  lemma FinishGetsOk(t: Topology, i: nat, n: Node, c: Node)
    requires NodeOk(t, i, n) && n.job.Serving? && n.job.kind == GETS && n.Running() && n.snd.Some? && n.SendsDone()
    requires NodeOk(t, n.job.child, c) && EdgeOk(n, c, n.job.child)
    ensures var Serving(ci, kind, noExcl) := n.job;
            var a := Reply(n, c, ci, kind, noExcl);
            a.Ok? && Replaces2(t, i, n, a.value.0, ci, c, a.value.1)
  {
  }

  lemma FinishGetxOk(t: Topology, i: nat, n: Node, c: Node)
    requires NodeOk(t, i, n) && n.job.Serving? && n.job.kind == GETX && n.Running() && n.snd.Some? && n.SendsDone()
    requires NodeOk(t, n.job.child, c) && EdgeOk(n, c, n.job.child)
    ensures var Serving(ci, kind, noExcl) := n.job;
            var a := Reply(n, c, ci, kind, noExcl);
            a.Ok? && Replaces2(t, i, n, a.value.0, ci, c, a.value.1)
  {
  }

  lemma FinishOk(t: Topology, i: nat, n: Node, c: Node)
    requires NodeOk(t, i, n) && n.job.Serving? && n.Running() && n.snd.Some? && n.SendsDone()
    requires NodeOk(t, n.job.child, c) && EdgeOk(n, c, n.job.child)
    ensures var Serving(ci, kind, noExcl) := n.job;
            var a := Reply(n, c, ci, kind, noExcl);
            a.Ok? && Replaces2(t, i, n, a.value.0, ci, c, a.value.1)
  {
    if n.job.kind == GETS {
      FinishGetsOk(t, i, n, c);
    } else {
      FinishGetxOk(t, i, n, c);
    }
  }

  lemma AcceptPutOk(t: Topology, i: nat, p: Node, ci: nat, c: Node)
    requires t.IsChild(ci, i) && NodeOk(t, i, p) && NodeOk(t, ci, c) && EdgeOk(p, c, ci)
    requires c.up.Some? && IsPut(c.up.value.kind) && p.job.Idle? && p.BottomFree()
    ensures var a := AcceptRequest(p, c, ci);
            a.Ok? && Replaces2(t, i, p, a.value.0, ci, c, a.value.1)
  {
  }

  lemma AcceptGetOk(t: Topology, i: nat, p: Node, ci: nat, c: Node)
    requires t.IsChild(ci, i) && NodeOk(t, i, p) && NodeOk(t, ci, c) && EdgeOk(p, c, ci)
    requires c.up.Some? && !IsPut(c.up.value.kind) && p.job.Idle? && p.BottomFree()
    ensures var a := AcceptRequest(p, c, ci);
            a.Ok? && Replaces2(t, i, p, a.value.0, ci, c, a.value.1)
  {
  }

  lemma AcceptOk(t: Topology, i: nat, p: Node, ci: nat, c: Node)
    requires t.IsChild(ci, i) && NodeOk(t, i, p) && NodeOk(t, ci, c) && EdgeOk(p, c, ci)
    requires c.up.Some? && p.job.Idle? && p.BottomFree()
    ensures var a := AcceptRequest(p, c, ci);
            a.Ok? && Replaces2(t, i, p, a.value.0, ci, c, a.value.1)
  {
    if IsPut(c.up.value.kind) {
      AcceptPutOk(t, i, p, ci, c);
    } else {
      AcceptGetOk(t, i, p, ci, c);
    }
  }

  lemma AnswerInvOk(t: Topology, i: nat, p: Node, ci: nat, c: Node)
    requires t.IsChild(ci, i) && NodeOk(t, i, p) && NodeOk(t, ci, c) && EdgeOk(p, c, ci)
    requires p.snd.Some? && c.inv == Some(INV) && c.SendsDone()
    ensures var a := Answer(p, c, ci);
            a.Ok? && Replaces2(t, i, p, a.value.0, ci, c, a.value.1)
  {
  }

  lemma AnswerInvxOk(t: Topology, i: nat, p: Node, ci: nat, c: Node)
    requires t.IsChild(ci, i) && NodeOk(t, i, p) && NodeOk(t, ci, c) && EdgeOk(p, c, ci)
    requires p.snd.Some? && c.inv == Some(INVX) && c.SendsDone()
    ensures var a := Answer(p, c, ci);
            a.Ok? && Replaces2(t, i, p, a.value.0, ci, c, a.value.1)
  {
  }

  lemma AnswerOk(t: Topology, i: nat, p: Node, ci: nat, c: Node)
    requires t.IsChild(ci, i) && NodeOk(t, i, p) && NodeOk(t, ci, c) && EdgeOk(p, c, ci)
    requires p.snd.Some? && c.inv.Some? && c.SendsDone()
    ensures var a := Answer(p, c, ci);
            a.Ok? && Replaces2(t, i, p, a.value.0, ci, c, a.value.1)
  {
    if c.inv.value == INV {
      AnswerInvOk(t, i, p, ci, c);
    } else {
      AnswerInvxOk(t, i, p, ci, c);
    }
  }

  lemma InvalidateOk(t: Topology, i: nat, n: Node, p: Node, pi: nat)
    requires NodeOk(t, i, n) && n.BottomFree() && t.IsChild(i, pi) && NodeOk(t, pi, p) && EdgeOk(p, n, i)
    requires p.snd.Some? && i in p.snd.value.todo
    ensures var r := Invalidate(n, p.snd.value.kind);
            r.Ok? && NodeOk(t, i, r.value) && EdgeOk(p, r.value, i) && KeepsChildren(t, i, n, r.value, -1)
  {
  }

  lemma MemoryOk(t: Topology, n: Node)
    requires t.Ok() && NodeOk(t, 0, n) && n.up.Some? && n.inv.None?
    ensures NodeOk(t, 0, Memory(n)) && KeepsChildren(t, 0, n, Memory(n), -1)
  {
  }

  // ----- dirty data -----

  /** Memory lacks a written value only while some cache holds it in M or some invalidation carries it up. */
  ghost predicate NotLost(s: System) {
    s.stale ==> exists i: nat :: i < |s.nodes| && s.nodes[i].Dirty()
  }

  lemma DirtyAfterOne(s: System, i: nat, m: Node, stale: bool)
    requires NotLost(s) && i < |s.nodes|
    requires s.nodes[i].Dirty() ==> m.Dirty()
    requires stale ==> s.stale || m.Dirty()
    ensures NotLost(Update(s, i, m).(stale := stale))
  {
    var s' := Update(s, i, m).(stale := stale);
    if m.Dirty() {
      assert s'.nodes[i].Dirty();
    } else if stale {
      var j: nat :| j < |s.nodes| && s.nodes[j].Dirty();
      assert s'.nodes[j].Dirty();
    }
  }

  lemma DirtyAfterTwo(s: System, i: nat, p: Node, ci: nat, c: Node, stale: bool)
    requires NotLost(s) && i < |s.nodes| && ci < |s.nodes| && i != ci
    requires s.nodes[i].Dirty() || s.nodes[ci].Dirty() ==> p.Dirty() || c.Dirty()
    requires stale ==> s.stale || p.Dirty() || c.Dirty()
    ensures NotLost(Update2(s, i, p, ci, c).(stale := stale))
  {
    var s' := Update2(s, i, p, ci, c).(stale := stale);
    assert s'.nodes[i] == p && s'.nodes[ci] == c;
    if stale && !p.Dirty() && !c.Dirty() {
      var j: nat :| j < |s.nodes| && s.nodes[j].Dirty();
      assert s'.nodes[j].Dirty();
    }
  }

  lemma ReplyKeepsDirt(p: Node, c: Node, ci: nat, kind: AccessType, noExcl: bool)
    requires SendOk(p) && (!IsPut(kind)) && c.up.Some? && ReqOk(c.up.value, c.state) && c.up.value.kind == kind
    ensures var a := Reply(p, c, ci, kind, noExcl);
            a.Ok? ==> (p.Dirty() || c.Dirty() ==> a.value.0.Dirty() || a.value.1.Dirty())
                      && (kind == GETX ==> a.value.1.Dirty())
  {
  }

  lemma AcceptKeepsDirt(p: Node, c: Node, ci: nat)
    requires c.up.Some? && ReqOk(c.up.value, c.state)
    ensures var a := AcceptRequest(p, c, ci);
            a.Ok? ==> (p.Dirty() || c.Dirty() ==> a.value.0.Dirty() || a.value.1.Dirty())
  {
  }

  lemma AnswerKeepsDirt(p: Node, c: Node, ci: nat)
    requires p.snd.Some? && c.inv.Some?
    ensures var a := Answer(p, c, ci);
            a.Ok? ==> (p.Dirty() || c.Dirty() ==> a.value.0.Dirty() || a.value.1.Dirty())
  {
  }

  // ----- every step -----

  ghost predicate Safe(t: Topology, s: System) {
    Inv(t, s) && NotLost(s)
  }

  /** No enabled step violates an assertion, and every step keeps the invariant. */
  lemma StepSafe(t: Topology, s: System, a: Action)
    requires Safe(t, s) && Enabled(t, s, a)
    ensures Step(t, s, a).Ok? && Safe(t, Step(t, s, a).value)
  {
    match a
    case MemServe => MemServeSafe(t, s);
    case Store(i) => StoreSafe(t, s, i);
    case Accept(i) => AcceptSafe(t, s, i);
    case Serve(i) => ServeSafe(t, s, i);
    case Finish(i) => FinishSafe(t, s, i);
    case InvStart(i) => InvStartSafe(t, s, i);
    case InvDone(i) => InvDoneSafe(t, s, i);
    case _ => OwnStepSafe(t, s, a);
  }

  /** The steps in which a cache asks its parent, or begins or ends the sends of an eviction. */
  lemma OwnStepSafe(t: Topology, s: System, a: Action)
    requires Safe(t, s) && Enabled(t, s, a)
    requires a.Load? || a.StartEvict? || a.EvictUp? || a.Forward?
    ensures Step(t, s, a).Ok? && Safe(t, Step(t, s, a).value)
  {
    var i, n := a.n, s.nodes[a.n];
    assert NodeOk(t, i, n);
    var m: Node;
    if a.Load? {
      m := AskParent(n, GETS, a.noExcl);
      AskParentOk(t, i, n, GETS, a.noExcl);
    } else if a.Forward? {
      m := AskParent(n, n.job.kind, n.job.noExcl);
      AskParentOk(t, i, n, n.job.kind, n.job.noExcl);
    } else if a.StartEvict? {
      m := StartSends(n.(job := Evicting), INV);
      StartEvictOk(t, i, n);
    } else {
      PutUpOk(t, i, n);
      m := PutUp(n).value;
    }
    ReplaceOne(t, s, i, m);
    DirtyAfterOne(s, i, m, s.stale);
  }

  lemma MemServeSafe(t: Topology, s: System)
    requires Safe(t, s) && Enabled(t, s, MemServe)
    ensures Step(t, s, MemServe).Ok? && Safe(t, Step(t, s, MemServe).value)
  {
    var n := s.nodes[0];
    assert NodeOk(t, 0, n);
    MemoryOk(t, n);
    ReplaceOne(t, s, 0, Memory(n));
    if n.up.value.kind != PUTX {
      DirtyAfterOne(s, 0, Memory(n), StaleAfterMemory(t, s));
    }
  }

  lemma StoreSafe(t: Topology, s: System, i: nat)
    requires Safe(t, s) && Enabled(t, s, Store(i))
    ensures Step(t, s, Store(i)).Ok? && Safe(t, Step(t, s, Store(i)).value)
  {
    var n := s.nodes[i];
    assert NodeOk(t, i, n);
    if NeedsParent(GETX, n.state) {
      AskParentOk(t, i, n, GETX, false);
      ReplaceOne(t, s, i, AskParent(n, GETX, false));
      DirtyAfterOne(s, i, AskParent(n, GETX, false), s.stale);
    } else {
      SilentStoreOk(t, i, n);
      var m := n.(state := BottomAccess(GETX, n.state).value);
      ReplaceOne(t, s, i, m);
      DirtyAfterOne(s, i, m, true);
    }
  }

  lemma AcceptSafe(t: Topology, s: System, i: nat)
    requires Safe(t, s) && Enabled(t, s, Accept(i))
    ensures Step(t, s, Accept(i)).Ok? && Safe(t, Step(t, s, Accept(i)).value)
  {
    var pi := t.parent[i];
    var p, c := s.nodes[pi], s.nodes[i];
    assert NodeOk(t, pi, p) && NodeOk(t, i, c) && EdgeOk(p, c, i);
    AcceptOk(t, pi, p, i, c);
    var (q, d) := AcceptRequest(p, c, i).value;
    ReplaceTwo(t, s, pi, q, i, d);
    AcceptKeepsDirt(p, c, i);
    DirtyAfterTwo(s, pi, q, i, d, s.stale);
  }

  lemma InvDoneSafe(t: Topology, s: System, i: nat)
    requires Safe(t, s) && Enabled(t, s, InvDone(i))
    ensures Step(t, s, InvDone(i)).Ok? && Safe(t, Step(t, s, InvDone(i)).value)
  {
    var pi := t.parent[i];
    var p, c := s.nodes[pi], s.nodes[i];
    assert NodeOk(t, pi, p) && NodeOk(t, i, c) && EdgeOk(p, c, i);
    AnswerOk(t, pi, p, i, c);
    var (q, d) := Answer(p, c, i).value;
    ReplaceTwo(t, s, pi, q, i, d);
    AnswerKeepsDirt(p, c, i);
    DirtyAfterTwo(s, pi, q, i, d, s.stale);
  }

  lemma InvStartSafe(t: Topology, s: System, i: nat)
    requires Safe(t, s) && Enabled(t, s, InvStart(i))
    ensures Step(t, s, InvStart(i)).Ok? && Safe(t, Step(t, s, InvStart(i)).value)
  {
    var pi := t.parent[i];
    var p, c := s.nodes[pi], s.nodes[i];
    assert NodeOk(t, pi, p) && NodeOk(t, i, c) && EdgeOk(p, c, i);
    InvalidateOk(t, i, c, p, pi);
    var d := Invalidate(c, p.snd.value.kind).value;
    ReplaceOne(t, s, i, d);
    DirtyAfterOne(s, i, d, s.stale);
  }

  lemma ServeSafe(t: Topology, s: System, i: nat)
    requires Safe(t, s) && Enabled(t, s, Serve(i))
    ensures Step(t, s, Serve(i)).Ok? && Safe(t, Step(t, s, Serve(i)).value)
  {
    var r := RecallFine(t, s, i);
    if r.snd.Some? {
      RecallSafe(t, s, i, r);
    } else {
      ReplySafe(t, s, i, r);
    }
  }

  /** A serving parent recalls without a violation, and then either waits for answers or replies. */
  lemma RecallFine(t: Topology, s: System, i: nat) returns (r: Node)
    requires Inv(t, s) && Enabled(t, s, Serve(i))
    ensures ServeResult(t, s, i, r)
  {
    var n := s.nodes[i];
    var ci := n.job.child;
    ServingEdge(t, s, i);
    RecallOk(t, i, n, s.nodes[ci]);
    r := Recall(n, ci, n.job.kind, n.job.noExcl).value;
    if r.snd.None? {
      ServeAtOnceOk(t, i, n, s.nodes[ci]);
    }
  }

  ghost predicate ServeResult(t: Topology, s: System, i: nat, r: Node)
    requires t.Ok() && |s.nodes| == |t.parent|
  {
    && i < |s.nodes| && s.nodes[i].job.Serving? && s.nodes[i].job.child < |s.nodes|
    && var n := s.nodes[i]; var ci := n.job.child;
       && Recall(n, ci, n.job.kind, n.job.noExcl) == Ok(r)
       && t.IsChild(ci, i) && SendOk(r) && r.job == n.job && (n.Dirty() ==> r.Dirty())
       && if r.snd.Some? then
            && NodeOk(t, i, r) && EdgeOk(r, s.nodes[ci], ci)
            && KeepsParent(t, i, n, r) && KeepsChildren(t, i, n, r, ci)
          else
            var a := Reply(r, s.nodes[ci], ci, r.job.kind, r.job.noExcl);
            a.Ok? && Replaces2(t, i, n, a.value.0, ci, s.nodes[ci], a.value.1)
  }

  lemma ServingEdge(t: Topology, s: System, i: nat)
    requires Inv(t, s) && i < |s.nodes| && s.nodes[i].job.Serving?
    ensures var ci := s.nodes[i].job.child;
            && t.IsChild(ci, i) && ci < |s.nodes|
            && NodeOk(t, i, s.nodes[i]) && NodeOk(t, ci, s.nodes[ci]) && EdgeOk(s.nodes[i], s.nodes[ci], ci)
  {
    assert NodeOk(t, i, s.nodes[i]);
    var ci := s.nodes[i].job.child;
    assert NodeOk(t, ci, s.nodes[ci]) && EdgeOk(s.nodes[t.parent[ci]], s.nodes[ci], ci);
  }

  lemma RecallSafe(t: Topology, s: System, i: nat, r: Node)
    requires Safe(t, s) && ServeResult(t, s, i, r) && r.snd.Some?
    ensures Safe(t, Update(s, i, r))
  {
    var ci := s.nodes[i].job.child;
    assert NodeOk(t, ci, s.nodes[ci]);
    ReplaceTwo(t, s, i, r, ci, s.nodes[ci]);
    DirtyAfterOne(s, i, r, s.stale);
    assert Update2(s, i, r, ci, s.nodes[ci]) == Update(s, i, r);
  }

  /** A reply is safe whenever it replaces parent and child safely. */
  lemma ReplySafe(t: Topology, s: System, i: nat, r: Node)
    requires Safe(t, s) && i < |s.nodes| && s.nodes[i].job.Serving? && r.job == s.nodes[i].job
    requires var ci := r.job.child;
             && t.IsChild(ci, i) && ci < |s.nodes|
             && SendOk(r) && (s.nodes[i].Dirty() ==> r.Dirty())
             && var a := Reply(r, s.nodes[ci], ci, r.job.kind, r.job.noExcl);
                a.Ok? && Replaces2(t, i, s.nodes[i], a.value.0, ci, s.nodes[ci], a.value.1)
    ensures DoReply(t, s, i, r).Ok? && Safe(t, DoReply(t, s, i, r).value)
  {
    var Serving(ci, kind, noExcl) := r.job;
    var c := s.nodes[ci];
    assert NodeOk(t, i, s.nodes[i]) && NodeOk(t, ci, c) && EdgeOk(s.nodes[t.parent[ci]], c, ci);
    var (q, d) := Reply(r, c, ci, kind, noExcl).value;
    ReplaceTwo(t, s, i, q, ci, d);
    ReplyKeepsDirt(r, c, ci, kind, noExcl);
    DirtyAfterTwo(s, i, q, ci, d, s.stale || (kind == GETX && t.Terminal(ci)));
  }

  lemma FinishSafe(t: Topology, s: System, i: nat)
    requires Safe(t, s) && Enabled(t, s, Finish(i))
    ensures Step(t, s, Finish(i)).Ok? && Safe(t, Step(t, s, Finish(i)).value)
  {
    var n := s.nodes[i];
    assert NodeOk(t, i, n);
    var ci := n.job.child;
    assert NodeOk(t, ci, s.nodes[ci]) && EdgeOk(s.nodes[t.parent[ci]], s.nodes[ci], ci);
    FinishOk(t, i, n, s.nodes[ci]);
    ReplySafe(t, s, i, n);
  }

  // ----- whole runs -----

  lemma InitSafe(t: Topology)
    requires t.Ok()
    ensures Safe(t, Init(t))
  {
  }

  /** From the empty tree, no run violates an assertion, and every reachable state is safe. */
  lemma {:induction false} RunSafe(t: Topology, acts: seq<Action>)
    requires t.Ok()
    ensures Run(t, acts).Ok? && Safe(t, Run(t, acts).value)
  {
    if acts == [] {
      InitSafe(t);
    } else {
      RunSafe(t, acts[..|acts| - 1]);
      var s, a := Run(t, acts[..|acts| - 1]).value, acts[|acts| - 1];
      if Enabled(t, s, a) {
        StepSafe(t, s, a);
      }
    }
  }
}
