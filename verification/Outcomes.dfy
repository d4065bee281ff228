/**
  * What the nil of Reconcile says. It is returned after a check that found nothing to
  * do, and after a successful wait that no check followed.
  */
module Outcomes {
  import opened Common
  import opened Resources
  import opened Layout
  import opened Engines
  import opened Compare
  import opened Retrieval
  import opened Convergence
  import opened Calls
  import opened Waiting
  import opened Rounds
  import opened Conditions

  ghost predicate AllSeenReady(r: Round) {
    forall o | o in r.seen :: IsReady(o.state)
  }

  /**
    * A nil means that the last check found nothing to do if and only if everything this
    * check saw was ready. Then the topology is the intended one, unless a Backend or
    * Frontend is there twice; otherwise something was still progressing, nothing was
    * called, and whatever was waited for was fine when it was last looked at.
    */
  lemma NilIff(cfg: Config, rounds: seq<Round>, verdict: Verdict)
    requires Chronicle(cfg, rounds, verdict) && (verdict == Completed || verdict == Unchecked)
    ensures rounds != []
    ensures var last := rounds[|rounds| - 1];
            && (verdict == Completed <==> AllSeenReady(last))
            && (verdict == Completed ==> (Exact(cfg, last.topology) <==> UniqueParents(last.topology)))
            && (verdict == Unchecked ==> last.calls == [] && SeenFine(Select(last.seen, Progressing), last.waits))
  {
    var last := rounds[|rounds| - 1];
    assert Faithful(cfg, last) && last.verdict == Some(verdict);
    hide Faithful, Exact, UniqueParents, AllSeenReady;
    if verdict == Completed {
      CompletedIsExact(cfg, last);
      CompletedSawReady(cfg, last);
    } else {
      UncheckedSawProgressing(cfg, last);
    }
  }

  lemma CompletedSawReady(cfg: Config, r: Round)
    requires Faithful(cfg, r) && r.verdict == Some(Completed)
    ensures AllSeenReady(r)
  {
    NilChecks(cfg, r);
    hide Faithful, Checked;
    CheckByStates(cfg, r);
  }

  lemma UncheckedSawProgressing(cfg: Config, r: Round)
    requires Faithful(cfg, r) && r.verdict == Some(Unchecked)
    ensures !AllSeenReady(r) && Waited(cfg, r)
    ensures forall o | o in r.seen :: IsReady(o.state) || IsPending(o.state)
    ensures exists o :: o in r.seen && IsPending(o.state)
  {
    hide Faithful, Checked, Waited;
    NilChecks(cfg, r);
    CheckByStates(cfg, r);
    var o :| o in r.seen && o.state.kind.Pending?;
    assert IsPending(o.state);
  }

  // ---- When a nil comes without a check ----

  predicate IsPending(s: State) {
    !s.updating && s.kind.Pending?
  }

  /** Nothing of `t` has failed or is updating, and something is progressing. */
  ghost predicate OnlyWaiting(s: Store, t: Topology) {
    && (forall id | id in t :: id in s && (IsReady(s[id].state) || IsPending(s[id].state)))
    && (exists id :: id in t && id in s && IsPending(s[id].state))
  }

  /** The store was `s` all the time while the check retrieved it. */
  ghost predicate Retrieves(r: Round, s: Store, tag: string) {
    && r.listed.Some? && Lists(s, tag, r.listed.value)
    && forall l | l in r.got :: l.at == s
  }

  /** A check of the store `s` that ended with a nil after a wait. */
  ghost predicate EndsUnchecked(cfg: Config, s: Store, r: Round) {
    && Faithful(cfg, r) && r.verdict == Some(Unchecked)
    && r.topology == WorkingSet(s, cfg) && Retrieves(r, s, cfg.tag)
  }

  ghost function ObjectIn(s: Store, id: Id): (o: Object)
    requires id in s
  {
    Object(id, s[id].spec, s[id].state)
  }

  /** What was seen of a store that did not change is what is in it. */
  lemma SeenIsStored(r: Round, s: Store, tag: string, o: Object)
    requires LookedUp(r.listed, r.got) && Answered(r.seen, r.got) && Retrieves(r, s, tag) && o in r.seen
    ensures o.id in s && o == ObjectIn(s, o.id)
  {
    var l :| l in r.got && l.answer == Found(o);
    var i :| 0 <= i < |r.got| && r.got[i] == l;
    assert Truthful(r.got[i]);
  }

  lemma SeenWaiting(s: Store, tag: string, r: Round)
    requires LookedUp(r.listed, r.got) && Answered(r.seen, r.got) && Depicts(r.seen, r.topology) && Retrieves(r, s, tag)
    requires forall o | o in r.seen :: IsReady(o.state) || IsPending(o.state)
    requires exists o :: o in r.seen && IsPending(o.state)
    ensures OnlyWaiting(s, r.topology)
  {
    hide LookedUp, Answered, Retrieves;
    forall o | o in r.seen ensures o.id in s && s[o.id].state == o.state {
      SeenIsStored(r, s, tag, o);
    }
    forall id | id in r.topology
      ensures id in s && (IsReady(s[id].state) || IsPending(s[id].state))
    {
      var o :| o in r.seen && o.id == id;
    }
  }

  lemma UncheckedWaits(cfg: Config, s: Store, r: Round)
    requires EndsUnchecked(cfg, s, r)
    ensures OnlyWaiting(s, WorkingSet(s, cfg))
  {
    UncheckedSawProgressing(cfg, r);
    SeenWaiting(s, cfg.tag, r);
  }

  lemma {:induction false} ListingExists(s: Store, tag: string, ids: set<Id>) returns (list: seq<Resource>)
    requires ids <= s.Keys
    ensures forall r | r in list :: r.id in ids && tag in s[r.id].tags && r.kind == KindOf(s[r.id].spec)
    ensures forall id | id in ids && tag in s[id].tags :: Resource(id, KindOf(s[id].spec)) in list
    ensures forall j, k | 0 <= j < k < |list| :: list[j].id != list[k].id
    decreases ids
  {
    if ids == {} {
      list := [];
    } else {
      var id :| id in ids;
      list := ListingExists(s, tag, ids - {id});
      if tag in s[id].tags {
        list := list + [Resource(id, KindOf(s[id].spec))];
      }
    }
  }

  lemma {:induction false} ObjectsExist(s: Store, ids: set<Id>) returns (os: seq<Object>)
    requires ids <= s.Keys
    ensures forall o | o in os :: o.id in ids && o == ObjectIn(s, o.id)
    ensures forall id | id in ids :: ObjectIn(s, id) in os
    ensures DistinctIds(os)
    decreases ids
  {
    if ids == {} {
      os := [];
    } else {
      var id :| id in ids;
      os := ObjectsExist(s, ids - {id});
      os := os + [ObjectIn(s, id)];
    }
  }

  lemma {:induction false} TypedHas(list: seq<Resource>, r: Resource)
    ensures r in Typed(list) <==> r in list && r.kind != Others
  {
    if list != [] {
      var rest, last := list[..|list| - 1], list[|list| - 1];
      assert list == rest + [last];
      TypedHas(rest, r);
    }
  }

  /** The Gets of these resources from a store that has them all. */
  ghost function LooksFor(s: Store, rs: seq<Resource>): (got: seq<Look>)
    requires forall r | r in rs :: r.id in s
  {
    seq(|rs|, i requires 0 <= i < |rs| => Look(rs[i].id, Found(ObjectIn(s, rs[i].id)), s))
  }

  lemma LooksForFinds(s: Store, tag: string, list: seq<Resource>, os: seq<Object>)
    requires Lists(s, tag, list)
    requires forall o | o in os ::
             o.id in s && o == ObjectIn(s, o.id) && tag in s[o.id].tags && KindOf(o.spec) != Others
    ensures forall r | r in Typed(list) :: r.id in s
    ensures var got := LooksFor(s, Typed(list));
            LookedUp(Some(list), got) && AllFound(got) && Answered(os, got) && forall l | l in got :: l.at == s
  {
    forall r | r in Typed(list) ensures r.id in s {
      TypedHas(list, r);
    }
    var got := LooksFor(s, Typed(list));
    forall o | o in os ensures exists l :: l in got && l.answer == Found(o) {
      var r := Resource(o.id, KindOf(o.spec));
      TypedHas(list, r);
      var i :| 0 <= i < |Typed(list)| && Typed(list)[i] == r;
      assert got[i].answer == Found(o);
    }
  }

  /** One Get for each object, which has become ready. */
  ghost function ReadyLooks(s: Store, os: seq<Object>): (waits: seq<Look>)
    requires forall o | o in os :: o.id in s
  {
    seq(|os|, i requires 0 <= i < |os| => ReadyLook(s, os[i].id))
  }

  ghost function ReadyLook(s: Store, id: Id): (l: Look)
    requires id in s
  {
    var s' := s[id := s[id].(state := State(false, OK))];
    Look(id, Found(ObjectIn(s', id)), s')
  }

  lemma {:induction false} LastSeenReady(looks: seq<Look>, id: Id)
    requires forall l | l in looks :: l.answer.Found? && l.answer.value.state == State(false, OK)
    requires exists l :: l in looks && l.id == id
    ensures LastSeen(looks, id) == Some(State(false, OK))
  {
    var rest, last := looks[..|looks| - 1], looks[|looks| - 1];
    assert looks == rest + [last];
    assert last in looks;
    if last.id != id {
      var l :| l in looks && l.id == id;
      assert l in rest;
      LastSeenReady(rest, id);
    }
  }

  lemma ReadyLooksFine(s: Store, os: seq<Object>, steps: int)
    requires forall o | o in os :: o.id in s
    ensures Awaited(os, ReadyLooks(s, os), None, steps)
  {
    var waits := ReadyLooks(s, os);
    forall l | l in waits
      ensures !Bad(l) && Truthful(l) && l.answer.Found? && l.answer.value.state == State(false, OK)
      ensures exists o :: o in os && o.id == l.id
    {
      var i :| 0 <= i < |waits| && waits[i] == l;
      assert os[i] in os;
    }
    assert forall k | 0 <= k < |os| :: waits[k].id == os[k].id;
    assert DistinctIds(os) ==> AskedOnce(waits);
    forall k | 0 <= k < |os| ensures LastSeen(waits, os[k].id) == Some(State(false, OK)) {
      assert waits[k] in waits;
      LastSeenReady(waits, os[k].id);
    }
  }

  lemma SelectNone(os: seq<Object>, c: Condition)
    requires forall o | o in os :: ConditionOf(o.state) != c
    ensures Select(os, c) == []
  {
    SelectIs(os, c);
    EmptyIff(Select(os, c));
  }

  lemma WorkingSetStored(cfg: Config, s: Store, o: Object)
    requires o.id in WorkingSet(s, cfg) && o.id in s && o == ObjectIn(s, o.id)
    ensures WorkingSet(s, cfg)[o.id] == o.spec && cfg.tag in s[o.id].tags && KindOf(o.spec) != Others
  {
  }

  /** A round that only waits, and with success. */
  lemma WaitsFaithfully(cfg: Config, r: Round)
    requires r.listed.Some? && LookedUp(r.listed, r.got) && AllFound(r.got)
    requires Depicts(r.seen, r.topology) && Answered(r.seen, r.got)
    requires Select(r.seen, Failed) == [] && Select(r.seen, Updating) == [] && Select(r.seen, Progressing) != []
    requires r.check == Some(ResourcesProgressing) && r.toCreate == [] && r.toDestroy == [] && r.calls == []
    requires Awaited(Select(r.seen, Progressing), r.waits, None, cfg.backoffSteps) && r.waited.None?
             && r.verdict == Some(Unchecked)
    ensures Faithful(cfg, r)
  {
    hide LookedUp, AllFound, Depicts, Answered, Awaited;
    assert Surveyed(r) && Waited(cfg, r);
  }

  lemma OnlyWaitingSelects(s: Store, t: Topology, os: seq<Object>)
    requires OnlyWaiting(s, t)
    requires forall o | o in os :: o.id in t && o.id in s && o == ObjectIn(s, o.id)
    requires forall id | id in t :: id in s && ObjectIn(s, id) in os
    ensures Select(os, Failed) == [] && Select(os, Updating) == [] && Select(os, Progressing) != []
  {
    SelectNone(os, Failed);
    SelectNone(os, Updating);
    SelectIs(os, Progressing);
    var id :| id in t && id in s && IsPending(s[id].state);
    assert ObjectIn(s, id) in Select(os, Progressing);
  }

  /** The round of a check that retrieved these objects from the store. */
  lemma WaitingRound(cfg: Config, s: Store, list: seq<Resource>, seen: seq<Object>) returns (r: Round)
    requires Lists(s, cfg.tag, list) && Depicts(seen, WorkingSet(s, cfg))
    requires forall o | o in seen ::
               o.id in s && o == ObjectIn(s, o.id) && cfg.tag in s[o.id].tags && KindOf(o.spec) != Others
    requires Select(seen, Failed) == [] && Select(seen, Updating) == [] && Select(seen, Progressing) != []
    ensures EndsUnchecked(cfg, s, r)
  {
    hide WorkingSet, Awaited, Faithful, Lists, LookedUp, AllFound, Answered, Depicts;
    LooksForFinds(s, cfg.tag, list, seen);
    SelectIs(seen, Progressing);
    var os := Select(seen, Progressing);
    ReadyLooksFine(s, os, cfg.backoffSteps);
    r := Round(Some(list), LooksFor(s, Typed(list)), seen, WorkingSet(s, cfg), Links(map[], map[]),
               Some(ResourcesProgressing), [], [], [], [], [], ReadyLooks(s, os), None, Some(Unchecked));
    WaitsFaithfully(cfg, r);
  }

  lemma WaitingUnchecked(cfg: Config, s: Store) returns (r: Round)
    requires OnlyWaiting(s, WorkingSet(s, cfg))
    ensures EndsUnchecked(cfg, s, r)
  {
    hide EndsUnchecked, WorkingSet;
    var t := WorkingSet(s, cfg);
    var list := ListingExists(s, cfg.tag, s.Keys);
    assert Lists(s, cfg.tag, list);
    var seen := ObjectsExist(s, t.Keys);
    forall o | o in seen ensures t[o.id] == o.spec && cfg.tag in s[o.id].tags && KindOf(o.spec) != Others {
      WorkingSetStored(cfg, s, o);
    }
    assert Depicts(seen, t);
    OnlyWaitingSelects(s, t, seen);
    r := WaitingRound(cfg, s, list, seen);
  }

  /**
    * A check of the store `s` can end in a nil that no check follows if and only if
    * nothing of the working set has failed or is updating, and something of it is
    * progressing: whatever the working set is, and however far it is from the intended
    * topology.
    */
  lemma NilWithoutCheck(cfg: Config, s: Store)
    ensures (exists r :: EndsUnchecked(cfg, s, r)) <==> OnlyWaiting(s, WorkingSet(s, cfg))
  {
    if OnlyWaiting(s, WorkingSet(s, cfg)) {
      var r := WaitingUnchecked(cfg, s);
    }
    if r :| EndsUnchecked(cfg, s, r) {
      UncheckedWaits(cfg, s, r);
    }
  }

  /** A store that holds one pending Backend. */
  ghost function LonePending(cfg: Config, port: string): (s: Store) {
    map[0 := Record(BackendSpec(cfg, port), State(false, Pending), {cfg.tag})]
  }

  lemma LoneWorkingSet(cfg: Config, port: string)
    ensures WorkingSet(LonePending(cfg, port), cfg) == map[0 := BackendSpec(cfg, port)]
  {
    var s := LonePending(cfg, port);
    assert cfg.tag in s[0].tags;
    assert 0 in EstateOf(s, cfg.lb) && Working(EstateOf(s, cfg.lb), cfg.tag, 0);
  }

  lemma FrontendsNeeded(cfg: Config, t: Topology, port: string)
    requires port in cfg.ports && Exact(cfg, t)
    ensures exists id :: id in t && t[id].Frontend?
  {
    var l :| Intended(cfg, t, l);
    assert l.frontends[port] in t && t[l.frontends[port]].Frontend?;
  }

  /** One port, of which the Backend is pending and the Frontend not there yet: nil, on an unfinished topology. */
  lemma NilOnUnfinished(cfg: Config, port: string)
    requires port in cfg.ports
    ensures var s := LonePending(cfg, port);
            && Sound(s) && UniqueParents(WorkingSet(s, cfg)) && !Exact(cfg, WorkingSet(s, cfg))
            && exists r :: EndsUnchecked(cfg, s, r)
  {
    var s := LonePending(cfg, port);
    LoneWorkingSet(cfg, port);
    hide WorkingSet, Exact, Faithful;
    assert 0 in s && OnlyWaiting(s, WorkingSet(s, cfg));
    NilWithoutCheck(cfg, s);
    if Exact(cfg, WorkingSet(s, cfg)) {
      FrontendsNeeded(cfg, WorkingSet(s, cfg), port);
    }
  }
}
