/** One line in a tree of caches, with every interleaving of requests that travel up and invalidations that
    travel down. A cache's bottom lock is free while its own request is under way, so an invalidation can
    overtake the request; its top lock is held while it serves a child or evicts. */
module MesiTree {
  import opened Wrappers
  import opened Mesi

  /** Cache 0 is the last-level cache, and every other cache has a parent with a smaller number. */
  datatype Topology = Topology(parent: seq<nat>)
  {
    ghost predicate Ok() {
      |parent| > 0 && forall c :: 0 < c < |parent| ==> parent[c] < c
    }

    predicate IsChild(c: nat, p: nat) {
      0 < c < |parent| && parent[c] == p
    }

    predicate Terminal(n: nat) {
      forall c :: 0 < c < |parent| ==> parent[c] != n
    }
  }

  /** A request under way to the parent, with the state that the requester had when it sent it. */
  datatype Req = Req(kind: AccessType, initial: State, noExcl: bool)

  /** What the holder of a cache's top lock does. */
  datatype Job = Idle | Serving(child: nat, kind: AccessType, noExcl: bool) | Evicting

  /** Invalidations that are being sent to the children: those still to come, those answered, and whether
      any child had dirty data. */
  datatype Send = Send(kind: InvType, todo: set<nat>, sent: nat, wb: bool)

  datatype Node = Node(state: State, entry: Entry, up: Option<Req>, job: Job, snd: Option<Send>, inv: Option<InvType>)
  {
    /** Nobody holds the bottom lock: no invalidation is at work here, and the holder of the top lock, if
        there is one, has released it to call the parent. */
    predicate BottomFree() {
      inv.None? && (job.Idle? || up.Some?)
    }

    /** The holder of the top lock also holds the bottom lock. */
    predicate Running() {
      !job.Idle? && up.None? && inv.None?
    }

    predicate SendsDone() {
      snd.None? || snd.value.todo == {}
    }

    predicate Dirty() {
      state == M || (snd.Some? && snd.value.wb)
    }
  }

  const INIT_NODE := Node(I, EMPTY_ENTRY, None, Idle, None, None)

  /** `stale` is true when memory lacks a value that some core has written. */
  datatype System = System(nodes: seq<Node>, stale: bool)

  function Init(t: Topology): System {
    System(seq(|t.parent|, i => INIT_NODE), false)
  }

  datatype Action =
    | Load(n: nat, noExcl: bool)
    | Store(n: nat)
    | StartEvict(n: nat)
    | EvictUp(n: nat)
    | Accept(n: nat)
    | Forward(n: nat)
    | Serve(n: nat)
    | Finish(n: nat)
    | InvStart(n: nat)
    | InvDone(n: nat)
    | MemServe

  // ----- what an action does to the caches it involves -----

  /** A core that misses or lacks permission asks the parent. */
  function AskParent(n: Node, kind: AccessType, noExcl: bool): Node {
    n.(up := Some(Req(kind, n.state, noExcl)))
  }

  /** Begins to send invalidations, if there are any to send. */
  function StartSends(n: Node, kind: InvType): Node {
    var targets := Targets(n.entry, kind);
    n.(snd := if targets == {} then None else Some(Send(kind, targets, 0, false)))
  }

  /** Ends the sends: the directory entry, and whether a child had dirty data. */
  function EndSends(n: Node): Outcome<(Node, bool)> {
    match n.snd
    case None => Ok((n, false))
    case Some(s) =>
      var e :- AfterSends(n.entry, s.kind, s.sent);
      Ok((n.(entry := e, snd := None), s.wb))
  }

  /** The end of an eviction's sends: the line goes up, unless it was invalid. */
  function PutUp(n: Node): Outcome<Node> {
    var (m, wb) :- EndSends(n);
    var s :- TakeWriteback(m.state, wb);
    Ok(if s == I then m.(job := Idle)
       else m.(state := s, up := Some(Req(PutKind(s), s, false))))
  }

  /** The parent `p` takes the request of its child `c`. */
  function AcceptRequest(p: Node, c: Node, ci: nat): Outcome<(Node, Node)>
    requires c.up.Some?
  {
    var r := c.up.value;
    var (kind, skip) :- CheckForMESIRace(r.kind, c.state, r.initial);
    if skip then
      Ok((p, c.(up := None, job := Idle)))
    else if IsPut(kind) then
      var _ :- Assert(p.state != I);
      var s :- BottomAccess(kind, p.state);
      var e :- TopPut(p.entry, kind, ci);
      Ok((p.(state := s, entry := e), c.(state := I, up := None, job := Idle)))
    else
      Ok((p.(job := Serving(ci, kind, r.noExcl)), c))
  }

  /** The parent gives the child what it asked for, once no copy stands in the way. */
  function Reply(p: Node, c: Node, ci: nat, kind: AccessType, noExcl: bool): Outcome<(Node, Node)> {
    var (q, wb) :- EndSends(p);
    var (e, s) :- Grant(q.entry, kind, ci, Exclusive(q.state), noExcl);
    var ps :- TakeWriteback(q.state, wb);
    var _ :- Assert(GoodFinalState(kind, s));
    Ok((q.(state := ps, entry := e, job := Idle), c.(state := s, up := None)))
  }

  /** The parent has permission itself, and recalls the copies that stand in the way. */
  function Recall(p: Node, ci: nat, kind: AccessType, noExcl: bool): Outcome<Node> {
    var s :- BottomAccess(kind, p.state);
    if GivesE(p.entry, kind, Exclusive(s), noExcl) then Ok(p.(state := s))
    else
      var e :- BeforeSends(p.entry, kind, ci, Exclusive(s));
      Ok(StartSends(p.(state := s, entry := e), SendKind(kind)))
  }

  /** An invalidation reaches the child `c`, which must have the line. */
  function Invalidate(c: Node, kind: InvType): Outcome<Node> {
    var _ :- Assert(c.state != I);
    Ok(StartSends(c.(inv := Some(kind)), kind))
  }

  /** The child `c` has invalidated its own children; it answers its parent `p`. */
  function Answer(p: Node, c: Node, ci: nat): Outcome<(Node, Node)>
    requires p.snd.Some? && c.inv.Some?
  {
    var (d, lower) :- EndSends(c);
    var (s, own) :- BottomInval(c.inv.value, d.state);
    var q := p.snd.value;
    Ok((p.(entry := AfterReply(p.entry, q.kind, ci),
           snd := Some(Send(q.kind, q.todo - {ci}, q.sent + 1, q.wb || lower || own))),
        d.(state := s, inv := None)))
  }

  /** Memory always grants. */
  function Memory(n: Node): Node
    requires n.up.Some?
  {
    var r := n.up.value;
    match r.kind
    case GETS => n.(state := if r.noExcl then S else E, up := None)
    case GETX => n.(state := M, up := None)
    case _ => n.(state := I, up := None, job := Idle)
  }

  // ----- when an action may happen -----

  predicate Enabled(t: Topology, s: System, a: Action)
    requires |s.nodes| == |t.parent|
  {
    if a.MemServe? then |s.nodes| > 0 && s.nodes[0].up.Some?
    else if a.n >= |s.nodes| then false
    else
      var n := s.nodes[a.n];
      match a
      case Load(i, _) => t.Terminal(i) && n.job.Idle? && n.up.None? && n.inv.None? && n.state == I
      case Store(i) => t.Terminal(i) && n.job.Idle? && n.up.None? && n.inv.None?
      case StartEvict(_) => n.job.Idle? && n.up.None? && n.inv.None?
      case EvictUp(_) => n.job.Evicting? && n.Running() && n.SendsDone()
      case Accept(i) =>
        0 < i && n.up.Some? && t.parent[i] < |s.nodes|
        && s.nodes[t.parent[i]].job.Idle? && s.nodes[t.parent[i]].BottomFree()
      case Forward(_) => n.job.Serving? && n.Running() && n.snd.None? && NeedsParent(n.job.kind, n.state)
      case Serve(_) => n.job.Serving? && n.Running() && n.snd.None? && !NeedsParent(n.job.kind, n.state)
                       && n.job.child < |s.nodes|
      case Finish(_) => n.job.Serving? && n.Running() && n.snd.Some? && n.SendsDone() && n.job.child < |s.nodes|
      case InvStart(i) =>
        0 < i && t.parent[i] < |s.nodes|
        && s.nodes[t.parent[i]].snd.Some? && i in s.nodes[t.parent[i]].snd.value.todo && n.BottomFree()
      case InvDone(i) =>
        0 < i && t.parent[i] < |s.nodes| && n.inv.Some? && n.SendsDone() && s.nodes[t.parent[i]].snd.Some?
  }

  // ----- the transition system -----

  function Update(s: System, i: nat, n: Node): System
    requires i < |s.nodes|
  {
    s.(nodes := s.nodes[i := n])
  }

  function Update2(s: System, i: nat, n: Node, j: nat, m: Node): System
    requires i < |s.nodes| && j < |s.nodes|
  {
    s.(nodes := s.nodes[i := n][j := m])
  }

  /** A PUTX brings memory up to date; the M that memory gives to a core takes in the store that asked for it. */
  function StaleAfterMemory(t: Topology, s: System): bool
    requires |s.nodes| > 0 && s.nodes[0].up.Some?
  {
    var kind := s.nodes[0].up.value.kind;
    (s.stale && kind != PUTX) || (kind == GETX && t.Terminal(0))
  }

  function DoReply(t: Topology, s: System, i: nat, p: Node): Outcome<System>
    requires i < |s.nodes| && p.job.Serving? && p.job.child < |s.nodes|
  {
    var Serving(ci, kind, noExcl) := p.job;
    var (q, c) :- Reply(p, s.nodes[ci], ci, kind, noExcl);
    Ok(Update2(s, i, q, ci, c).(stale := s.stale || (kind == GETX && t.Terminal(ci))))
  }

  /** One atomic step. */
  function Step(t: Topology, s: System, a: Action): (r: Outcome<System>)
    requires |s.nodes| == |t.parent| && Enabled(t, s, a)
    ensures r.Ok? ==> |r.value.nodes| == |s.nodes|
  {
    if a.MemServe? then
      Ok(Update(s, 0, Memory(s.nodes[0])).(stale := StaleAfterMemory(t, s)))
    else
      var n := s.nodes[a.n];
      match a
      case Load(i, noExcl) => Ok(Update(s, i, AskParent(n, GETS, noExcl)))
      case Store(i) =>
        if NeedsParent(GETX, n.state) then Ok(Update(s, i, AskParent(n, GETX, false)))
        else
          var m :- BottomAccess(GETX, n.state);
          Ok(Update(s, i, n.(state := m)).(stale := true))
      case StartEvict(i) => Ok(Update(s, i, StartSends(n.(job := Evicting), INV)))
      case EvictUp(i) =>
        var m :- PutUp(n);
        Ok(Update(s, i, m))
      case Accept(i) =>
        var (p, c) :- AcceptRequest(s.nodes[t.parent[i]], n, i);
        Ok(Update2(s, t.parent[i], p, i, c))
      case Forward(i) => Ok(Update(s, i, AskParent(n, n.job.kind, n.job.noExcl)))
      case Serve(i) =>
        var p :- Recall(n, n.job.child, n.job.kind, n.job.noExcl);
        if p.snd.Some? then Ok(Update(s, i, p)) else DoReply(t, s, i, p)
      case Finish(i) => DoReply(t, s, i, n)
      case InvStart(i) =>
        var c :- Invalidate(n, s.nodes[t.parent[i]].snd.value.kind);
        Ok(Update(s, i, c))
      case InvDone(i) =>
        var (p, c) :- Answer(s.nodes[t.parent[i]], n, i);
        Ok(Update2(s, t.parent[i], p, i, c))
  }

  /** A run: actions that are not enabled wait, which leaves the state as it is. */
  function Run(t: Topology, acts: seq<Action>): Outcome<System>
    ensures Run(t, acts).Ok? ==> |Run(t, acts).value.nodes| == |t.parent|
  {
    if acts == [] then Ok(Init(t))
    else
      var s :- Run(t, acts[..|acts| - 1]);
      var a := acts[|acts| - 1];
      if Enabled(t, s, a) then Step(t, s, a) else Ok(s)
  }
}
