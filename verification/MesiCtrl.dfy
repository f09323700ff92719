/** The two controllers of a cache as objects with state for every line. Their methods are the atomic parts of
    the coherence tree's steps; what they return to or receive from other caches is a parameter. */
module MesiCtrl {
  import opened Wrappers
  import opened Mesi

  class MESIBottomCC {
    const states: array<State>

    constructor (numLines: nat)
      ensures fresh(states) && states[..] == seq(numLines, i => I)
    {
      states := new State[numLines](i => I);
    }

    /** A PUT that dies here, or a GET that hits. */
    method ProcessHit(lineId: nat, kind: AccessType)
      requires lineId < states.Length && BottomAccess(kind, states[lineId]).Ok?
      modifies states
      ensures states[..] == old(states[..])[lineId := BottomAccess(kind, old(states[lineId])).value]
      ensures states[lineId] == if kind == GETX || kind == PUTX then M else old(states[lineId])
    {
      match kind
      case PUTS =>
      case PUTX =>
        if states[lineId] == E { states[lineId] := M; }
      case GETS =>
      case GETX =>
        if states[lineId] == E { states[lineId] := M; }
    }

    method ProcessWritebackOnAccess(lineId: nat)
      requires lineId < states.Length && TakeWriteback(states[lineId], true).Ok?
      modifies states
      ensures states[..] == old(states[..])[lineId := M]
    {
      if states[lineId] == E {
        states[lineId] := M;
      }
    }

    /** The flag is only ever raised: a child further down may have raised it before. */
    method ProcessInval(lineId: nat, kind: InvType, flag: bool) returns (reqWriteback: bool)
      requires lineId < states.Length && BottomInval(kind, states[lineId]).Ok?
      modifies states
      ensures var (s, dirty) := BottomInval(kind, old(states[lineId])).value;
              states[..] == old(states[..])[lineId := s] && reqWriteback == (flag || dirty)
      ensures states[lineId] == if kind == INV then I else S
      ensures reqWriteback <==> flag || old(states[lineId]) == M
    {
      reqWriteback := flag;
      match kind
      case INVX =>
        if states[lineId] == M { reqWriteback := true; }
        states[lineId] := S;
      case INV =>
        if states[lineId] == M { reqWriteback := true; }
        states[lineId] := I;
    }

    /** An eviction up to the call of the parent: the line's last state here, and the request with which it leaves, if
        it is valid. The parent's answer, which leaves the line in I, is a step of the tree. */
    method ProcessEviction(lineId: nat, lowerLevelWriteback: bool) returns (put: Option<AccessType>)
      requires lineId < states.Length && TakeWriteback(states[lineId], lowerLevelWriteback).Ok?
      modifies states
      ensures states[..] == old(states[..])[lineId := TakeWriteback(old(states[lineId]), lowerLevelWriteback).value]
      ensures states[lineId] == if lowerLevelWriteback then M else old(states[lineId])
      ensures put.None? <==> states[lineId] == I
      ensures put.Some? ==> put.value == if states[lineId] == M then PUTX else PUTS
    {
      if lowerLevelWriteback {
        states[lineId] := M;
      }
      match states[lineId]
      case I => put := None;
      case S => put := Some(PUTS);
      case E => put := Some(PUTS);
      case M => put := Some(PUTX);
    }
  }

  /** What the loop over the children has come to at child `n`: the entry, how many invalidations it has sent, and
      whether the flag is up. */
  datatype Sent = Sent(entry: Entry, count: nat, flag: bool)

  function SentTo(e: Entry, kind: InvType, dirty: seq<bool>, flag: bool, n: nat): Sent
    requires n <= |dirty|
  {
    if n == 0 then Sent(e, 0, flag)
    else
      var before := SentTo(e, kind, dirty, flag, n - 1);
      if n - 1 in e.sharers
      then Sent(AfterReply(before.entry, kind, n - 1), before.count + 1, before.flag || dirty[n - 1])
      else before
  }

  function Below(s: set<nat>, n: nat): set<nat> {
    set x | x in s && x < n
  }

  lemma {:induction false} SentBelow(e: Entry, kind: InvType, dirty: seq<bool>, flag: bool, n: nat)
    requires n <= |dirty|
    ensures var r, s := SentTo(e, kind, dirty, flag, n), Below(e.sharers, n);
            && r.entry == e.(sharers := if kind == INV then e.sharers - s else e.sharers)
            && r.count == |s| && (r.flag <==> flag || exists c :: c in s && dirty[c])
  {
    if n == 0 {
      assert Below(e.sharers, 0) == {};
    } else {
      SentBelow(e, kind, dirty, flag, n - 1);
      var s, t := Below(e.sharers, n - 1), Below(e.sharers, n);
      assert t == if n - 1 in e.sharers then s + {n - 1} else s;
      assert e.sharers - s - {n - 1} == e.sharers - (s + {n - 1});
    }
  }

  /** The loop reaches every sharer once. */
  lemma SentToAll(e: Entry, kind: InvType, dirty: seq<bool>, flag: bool)
    requires forall c :: c in e.sharers ==> c < |dirty|
    ensures var r := SentTo(e, kind, dirty, flag, |dirty|);
            && r.entry == e.(sharers := if kind == INV then {} else e.sharers)
            && r.count == |e.sharers| && (r.flag <==> flag || exists c :: c in e.sharers && dirty[c])
  {
    SentBelow(e, kind, dirty, flag, |dirty|);
    assert Below(e.sharers, |dirty|) == e.sharers;
  }

  lemma SentOneIs(e: Entry, kind: InvType, dirty: seq<bool>, flag: bool, n: nat)
    requires n <= |dirty|
    ensures n in SentTo(e, kind, dirty, flag, n).entry.sharers <==> n in e.sharers
  {
    SentBelow(e, kind, dirty, flag, n);
  }

  lemma GetsParts(e: Entry, child: nat, haveExclusive: bool, noExcl: bool)
    requires TopAccess(e, GETS, child, haveExclusive, noExcl).Ok? && e.numSharers == |e.sharers|
    ensures var a := AllSent(e, INVX);
            if GivesE(e, GETS, haveExclusive, noExcl) then
              && TopAccess(e, GETS, child, haveExclusive, noExcl) == Ok((Entry(1, e.sharers + {child}, true), E))
              && |e.sharers + {child}| == 1 && Recalled(e, GETS, child, haveExclusive, noExcl) == {}
            else
              && TopAccess(e, GETS, child, haveExclusive, noExcl) ==
                 Ok((Entry(a.numSharers + 1, a.sharers + {child}, false), S))
              && |a.sharers + {child}| == a.numSharers + 1
              && Recalled(e, GETS, child, haveExclusive, noExcl) == Targets(e, INVX)
  {
    if GivesE(e, GETS, haveExclusive, noExcl) {
      assert e.sharers == {} && {} + {child} == {child};
    } else {
      assert child !in AllSent(e, INVX).sharers;
    }
  }

  /** The entry without the child, which is going to be the only one. */
  function Without(e: Entry, child: nat): Entry {
    if child in e.sharers && e.numSharers > 0
    then e.(sharers := e.sharers - {child}, numSharers := e.numSharers - 1) else e
  }

  lemma GetxParts(e: Entry, child: nat, haveExclusive: bool, noExcl: bool)
    requires TopAccess(e, GETX, child, haveExclusive, noExcl).Ok? && e.numSharers == |e.sharers|
    ensures child in e.sharers ==> e.numSharers > 0
    ensures var e' := Without(e, child);
            && e'.numSharers == |e'.sharers| && AllSent(e', INV).sharers == {}
            && TopAccess(e, GETX, child, haveExclusive, noExcl) == Ok((Entry(1, {child}, true), M))
            && Recalled(e, GETX, child, haveExclusive, noExcl) == Targets(e', INV)
  {
    var e' := Without(e, child);
    if child in e.sharers {
      assert |e.sharers - {child}| == |e.sharers| - 1;
    }
    assert e'.numSharers == |e'.sharers|;
    assert {} + {child} == {child};
  }

  class MESITopCC {
    const entries: array<Entry>
    const numChildren: nat

    /** Every entry counts its sharers, and an exclusive entry has at most one. */
    ghost predicate Valid()
      reads entries
    {
      forall i :: 0 <= i < entries.Length ==> EntryOk(entries[i])
    }

    ghost predicate EntryOk(e: Entry) {
      && e.numSharers == |e.sharers| && (e.exclusive ==> e.numSharers <= 1)
      && forall c :: c in e.sharers ==> c < numChildren
    }

    constructor (numLines: nat, numChildren: nat)
      ensures Valid() && fresh(entries) && this.numChildren == numChildren
      ensures entries[..] == seq(numLines, i => EMPTY_ENTRY)
    {
      entries := new Entry[numLines](i => EMPTY_ENTRY);
      this.numChildren := numChildren;
    }

    /** Sends invalidations or downgrades; `dirty[c]` says whether the subtree of child `c` has dirty data. */
    method SendInvalidates(lineId: nat, kind: InvType, dirty: seq<bool>, flag: bool) returns (reqWriteback: bool)
      requires Valid() && lineId < entries.Length && |dirty| == numChildren
      modifies entries
      ensures Valid() && entries[..] == old(entries[..])[lineId := AllSent(old(entries[lineId]), kind)]
      ensures reqWriteback <==> flag || exists c :: c in Targets(old(entries[lineId]), kind) && dirty[c]
    {
      reqWriteback := flag;
      ghost var e0, all := entries[lineId], entries[..];
      if kind == INVX && !entries[lineId].IsExclusive() {
        return;
      }
      if !entries[lineId].IsEmpty() {
        var sentInvs;
        reqWriteback, sentInvs := SendToSharers(lineId, kind, dirty, flag);
        assert sentInvs == entries[lineId].numSharers;
        if kind == INV {
          entries[lineId] := entries[lineId].(numSharers := 0);
        } else {
          entries[lineId] := entries[lineId].(exclusive := false);
        }
        assert entries[..] == all[lineId := AllSent(e0, kind)];
      }
    }

    method SendToSharers(lineId: nat, kind: InvType, dirty: seq<bool>, flag: bool)
      returns (reqWriteback: bool, sentInvs: nat)
      requires lineId < entries.Length && EntryOk(entries[lineId]) && |dirty| == numChildren
      modifies entries
      ensures entries[..] == old(entries[..])[lineId := entries[lineId]]
      ensures entries[lineId] ==
              old(entries[lineId]).(sharers := if kind == INV then {} else old(entries[lineId]).sharers)
      ensures sentInvs == |old(entries[lineId]).sharers|
      ensures reqWriteback <==> flag || exists c :: c in old(entries[lineId]).sharers && dirty[c]
    {
      ghost var e0 := entries[lineId];
      reqWriteback, sentInvs := flag, 0;
      var c := 0;
      while c < numChildren
        invariant 0 <= c <= numChildren && entries[..] == old(entries[..])[lineId := entries[lineId]]
        invariant Sent(entries[lineId], sentInvs, reqWriteback) == SentTo(e0, kind, dirty, flag, c)
      {
        SentOneIs(e0, kind, dirty, flag, c);
        if c in entries[lineId].sharers {
          reqWriteback := SendOne(lineId, kind, c, dirty[c], reqWriteback);
          sentInvs := sentInvs + 1;
        }
        c := c + 1;
      }
      SentToAll(e0, kind, dirty, flag);
    }

    method SendOne(lineId: nat, kind: InvType, c: nat, dirty: bool, flag: bool) returns (reqWriteback: bool)
      requires lineId < entries.Length
      modifies entries
      ensures entries[..] == old(entries[..])[lineId := AfterReply(old(entries[lineId]), kind, c)]
      ensures reqWriteback == (flag || dirty)
    {
      reqWriteback := flag;
      if dirty {
        reqWriteback := true;
      }
      if kind == INV {
        entries[lineId] := entries[lineId].(sharers := entries[lineId].sharers - {c});
      }
    }

    /** A load leaves the child in E exactly if no child shared the line before, the cache may write it, and E is
        wanted; else in S, and then a child that could write the line has been asked for its data. */
    ghost predicate LoadAnswered(e: Entry, child: nat, haveExclusive: bool, noExcl: bool, dirty: seq<bool>,
                                 e': Entry, childState: State, writeback: bool)
      requires EntryOk(e) && |dirty| == numChildren
    {
      && childState == (if e.sharers == {} && haveExclusive && !noExcl then E else S)
      && e'.sharers == e.sharers + {child} && (e'.exclusive <==> childState == E)
      && (writeback <==> e.exclusive && exists c :: c in e.sharers && dirty[c])
    }

    /** A store leaves the child in M as the only sharer, and all others have been asked for their data. */
    ghost predicate StoreAnswered(e: Entry, child: nat, dirty: seq<bool>, e': Entry, childState: State, writeback: bool)
      requires EntryOk(e) && |dirty| == numChildren
    {
      && childState == M && e'.sharers == {child} && e'.exclusive
      && (writeback <==> exists c :: c in e.sharers && c != child && dirty[c])
    }

    /** Changes the directory, recalls other copies, and tells the child its new state. */
    method ProcessAccess(lineId: nat, kind: AccessType, childId: nat, haveExclusive: bool, noExcl: bool,
                         dirty: seq<bool>)
      returns (childState: State, inducedWriteback: bool)
      requires Valid() && lineId < entries.Length && childId < numChildren && |dirty| == numChildren
      requires TopAccess(entries[lineId], kind, childId, haveExclusive, noExcl).Ok?
      modifies entries
      ensures Valid()
      ensures var (e, s) := TopAccess(old(entries[lineId]), kind, childId, haveExclusive, noExcl).value;
              entries[..] == old(entries[..])[lineId := e] && childState == s
      ensures inducedWriteback <==>
              exists c :: c in Recalled(old(entries[lineId]), kind, childId, haveExclusive, noExcl) && dirty[c]
      ensures kind == GETS ==> LoadAnswered(old(entries[lineId]), childId, haveExclusive, noExcl, dirty,
                                            entries[lineId], childState, inducedWriteback)
      ensures kind == GETX ==> StoreAnswered(old(entries[lineId]), childId, dirty, entries[lineId], childState,
                                             inducedWriteback)
      ensures kind == PUTS || kind == PUTX ==>
                && childState == I && !inducedWriteback
                && entries[lineId].sharers == old(entries[lineId]).sharers - {childId}
    {
      ghost var e0 := entries[lineId];
      if kind == GETS {
        LoadGives(e0, childId, haveExclusive, noExcl);
      } else if kind == GETX {
        StoreGives(e0, childId, haveExclusive, noExcl);
      } else {
        PutGives(e0, kind, childId, haveExclusive, noExcl);
      }
      inducedWriteback := false;
      match kind
      case GETS => childState, inducedWriteback := ProcessGets(lineId, childId, haveExclusive, noExcl, dirty);
      case GETX => childState, inducedWriteback := ProcessGetx(lineId, childId, haveExclusive, noExcl, dirty);
      case _ =>
        ghost var all := entries[..];
        entries[lineId] := TopPut(entries[lineId], kind, childId).value;
        childState := I;
        assert entries[..] == all[lineId := entries[lineId]];
    }

    method ProcessGets(lineId: nat, childId: nat, haveExclusive: bool, noExcl: bool, dirty: seq<bool>)
      returns (childState: State, inducedWriteback: bool)
      requires Valid() && lineId < entries.Length && childId < numChildren && |dirty| == numChildren
      requires TopAccess(entries[lineId], GETS, childId, haveExclusive, noExcl).Ok?
      modifies entries
      ensures Valid()
      ensures TopAccess(old(entries[lineId]), GETS, childId, haveExclusive, noExcl) == Ok((entries[lineId], childState))
      ensures entries[..] == old(entries[..])[lineId := entries[lineId]]
      ensures inducedWriteback <==>
              exists c :: c in Recalled(old(entries[lineId]), GETS, childId, haveExclusive, noExcl) && dirty[c]
    {
      GetsParts(entries[lineId], childId, haveExclusive, noExcl);
      inducedWriteback := false;
      if entries[lineId].IsEmpty() && haveExclusive && !noExcl {
        entries[lineId] := Entry(1, entries[lineId].sharers + {childId}, true);
        childState := E;
      } else {
        if entries[lineId].IsExclusive() {
          inducedWriteback := SendInvalidates(lineId, INVX, dirty, false);
        }
        var e := entries[lineId];
        entries[lineId] := Entry(e.numSharers + 1, e.sharers + {childId}, false);
        childState := S;
      }
    }

    method RemoveSharer(lineId: nat, childId: nat)
      requires Valid() && lineId < entries.Length
      modifies entries
      ensures Valid() && entries[..] == old(entries[..])[lineId := Without(old(entries[lineId]), childId)]
    {
      if childId in entries[lineId].sharers {
        var e := entries[lineId];
        entries[lineId] := e.(sharers := e.sharers - {childId}, numSharers := e.numSharers - 1);
      }
    }

    method ProcessGetx(lineId: nat, childId: nat, haveExclusive: bool, noExcl: bool, dirty: seq<bool>)
      returns (childState: State, inducedWriteback: bool)
      requires Valid() && lineId < entries.Length && childId < numChildren && |dirty| == numChildren
      requires TopAccess(entries[lineId], GETX, childId, haveExclusive, noExcl).Ok?
      modifies entries
      ensures Valid()
      ensures TopAccess(old(entries[lineId]), GETX, childId, haveExclusive, noExcl) == Ok((entries[lineId], childState))
      ensures entries[..] == old(entries[..])[lineId := entries[lineId]]
      ensures inducedWriteback <==>
              exists c :: c in Recalled(old(entries[lineId]), GETX, childId, haveExclusive, noExcl) && dirty[c]
    {
      GetxParts(entries[lineId], childId, haveExclusive, noExcl);
      RemoveSharer(lineId, childId);
      inducedWriteback := SendInvalidates(lineId, INV, dirty, false);
      entries[lineId] := Entry(1, entries[lineId].sharers + {childId}, true);
      childState := M;
    }
  }
}
