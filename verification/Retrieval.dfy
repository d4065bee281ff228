/**
  * What the lists of a reconciliation have to do with the Engine's store while
  * they are filled, and the arrays that sort retrieved objects by their state.
  */
module Retrieval {
  import opened Common
  import opened Resources
  import opened Layout
  import opened Engines
  import opened Compare

  /** `os` are the objects of one kind among those of `t` that have been looked at. */
  ghost predicate Collected(os: seq<Object>, t: Topology, kind: Kind, seen: set<Id>) {
    && (forall o | o in os :: o.id in t && t[o.id] == o.spec && KindOf(o.spec) == kind && o.id in seen)
    && (forall id | id in seen && id in t && KindOf(t[id]) == kind :: exists o :: o in os && o.id == id)
    && DistinctIds(os)
  }

  /** `os` are all objects of one kind in `t`. */
  ghost predicate Shows(os: seq<Object>, t: Topology, kind: Kind) {
    Collected(os, t, kind, t.Keys)
  }

  /** What filterBinds and filterServers look for. */
  ghost predicate Parented(t: Topology, spec: Spec) {
    match spec
    case Bind(_, _, _, f) => f in t && t[f].Frontend?
    case Server(_, _, _, _, b) => b in t && t[b].Backend?
    case _ => false
  }

  /** Retrieved Binds or Servers of any LoadBalancer, before they are filtered. */
  ghost predicate Gathered(os: seq<Object>, t: Topology, kind: Kind, seen: set<Id>) {
    && (forall o | o in os :: KindOf(o.spec) == kind && o.id in seen
          && (if Parented(t, o.spec) then o.id in t && t[o.id] == o.spec else o.id !in t))
    && (forall id | id in seen && id in t && KindOf(t[id]) == kind :: exists o :: o in os && o.id == id)
    && DistinctIds(os)
  }

  lemma CollectFound(os: seq<Object>, t: Topology, kind: Kind, seen: set<Id>, o: Object)
    requires Collected(os, t, kind, seen) && o.id !in seen
    requires o.id in t && t[o.id] == o.spec && KindOf(o.spec) == kind
    ensures Collected(os + [o], t, kind, seen + {o.id})
  {
    forall id | id in seen + {o.id} && id in t && KindOf(t[id]) == kind
      ensures exists x :: x in os + [o] && x.id == id
    {
      if id == o.id {
        assert o in os + [o];
      } else {
        var x :| x in os && x.id == id;
        assert x in os + [o];
      }
    }
  }

  lemma CollectSkipped(os: seq<Object>, t: Topology, kind: Kind, seen: set<Id>, id: Id)
    requires Collected(os, t, kind, seen)
    requires id in t ==> KindOf(t[id]) != kind
    ensures Collected(os, t, kind, seen + {id})
  {
  }

  lemma GatherFound(os: seq<Object>, t: Topology, kind: Kind, seen: set<Id>, o: Object)
    requires Gathered(os, t, kind, seen) && o.id !in seen && KindOf(o.spec) == kind
    requires if Parented(t, o.spec) then o.id in t && t[o.id] == o.spec else o.id !in t
    ensures Gathered(os + [o], t, kind, seen + {o.id})
  {
    forall id | id in seen + {o.id} && id in t && KindOf(t[id]) == kind
      ensures exists x :: x in os + [o] && x.id == id
    {
      if id == o.id {
        assert o in os + [o];
      } else {
        var x :| x in os && x.id == id;
        assert x in os + [o];
      }
    }
  }

  lemma GatherSkipped(os: seq<Object>, t: Topology, kind: Kind, seen: set<Id>, id: Id)
    requires Gathered(os, t, kind, seen)
    requires id in t ==> KindOf(t[id]) != kind
    ensures Gathered(os, t, kind, seen + {id})
  {
  }

  // ---- What was asked, and answered ----

  /** The listed resources of the types the retrieval knows. */
  ghost function Typed(list: seq<Resource>): (typed: seq<Resource>) {
    if list == [] then []
    else
      var last := list[|list| - 1];
      Typed(list[..|list| - 1]) + (if last.kind == Others then [] else [last])
  }

  lemma TypedStep(list: seq<Resource>, i: nat)
    requires i < |list|
    ensures Typed(list[..i + 1]) == Typed(list[..i]) + (if list[i].kind == Others then [] else [list[i]])
  {
    assert list[..i + 1][..i] == list[..i];
  }

  lemma {:induction false} TypedPrefix(list: seq<Resource>, i: nat)
    requires i <= |list|
    ensures Typed(list[..i]) <= Typed(list)
    decreases |list| - i
  {
    if i == |list| {
      assert list[..i] == list;
    } else {
      TypedStep(list, i);
      TypedPrefix(list, i + 1);
    }
  }

  ghost function TypedPlaces(list: seq<Resource>): (places: set<nat>) {
    set i: nat | i < |list| && list[i].kind != Others
  }

  /** The resources that are fetched are those of the listing of known types, in its order. */
  lemma {:induction false} TypedPicked(list: seq<Resource>)
    ensures Picks(Typed(list), list, TypedPlaces(list))
  {
    hide Picks;
    if list == [] {
      PicksNothing<Resource>([]);
      assert TypedPlaces(list) == {};
    } else {
      var rest, last := list[..|list| - 1], list[|list| - 1];
      assert list == rest + [last];
      TypedPicked(rest);
      PicksMore(Typed(rest), rest, TypedPlaces(rest), last);
      if last.kind != Others {
        assert TypedPlaces(list) == TypedPlaces(rest) + {|rest|};
      } else {
        assert TypedPlaces(list) == TypedPlaces(rest) && Typed(list) == Typed(rest);
      }
    }
  }

  ghost predicate DistinctResources(list: seq<Resource>) {
    forall j, k | 0 <= j < k < |list| :: list[j].id != list[k].id
  }

  /** The identifiers of the first `i` resources of the listing. */
  ghost function IdsBefore(list: seq<Resource>, i: nat): (ids: set<Id>)
    requires i <= |list|
  {
    set k | 0 <= k < i :: list[k].id
  }

  lemma IdsBeforeStep(list: seq<Resource>, i: nat)
    requires DistinctResources(list) && i < |list|
    ensures list[i].id !in IdsBefore(list, i)
    ensures IdsBefore(list, i + 1) == IdsBefore(list, i) + {list[i].id}
  {
  }

  lemma IdsBeforeAll(list: seq<Resource>)
    ensures forall r | r in list :: r.id in IdsBefore(list, |list|)
  {
  }

  ghost predicate AllFound(got: seq<Look>) {
    forall l | l in got :: l.answer.Found?
  }

  /** Gets of the first of these resources, in order; only the last can have failed. */
  ghost predicate LooksAt(got: seq<Look>, rs: seq<Resource>) {
    && |got| <= |rs|
    && forall i | 0 <= i < |got| ::
         got[i].id == rs[i].id && Truthful(got[i]) && (i < |got| - 1 ==> got[i].answer.Found?)
  }

  /** Every listed resource of a known type was fetched, in order, up to the first that could not be. */
  ghost predicate LookedUp(list: Option<seq<Resource>>, got: seq<Look>) {
    match list
    case None => got == []
    case Some(rs) => LooksAt(got, Typed(rs)) && (AllFound(got) ==> |got| == |Typed(rs)|)
  }

  /** The retrieval succeeds exactly if there is a listing and everything asked for was there. */
  ghost predicate Succeeds(list: Option<seq<Resource>>, got: seq<Look>) {
    list.Some? && AllFound(got)
  }

  /** The first `i` resources of the listing have been dealt with. */
  ghost predicate Covered(list: seq<Resource>, i: nat, got: seq<Look>)
    requires i <= |list|
  {
    LooksAt(got, Typed(list[..i])) && |got| == |Typed(list[..i])| && AllFound(got)
  }

  lemma CoveredOneMore(list: seq<Resource>, i: nat, got: seq<Look>, l: Look)
    requires i < |list| && list[i].kind != Others && Covered(list, i, got)
    requires l.id == list[i].id && Truthful(l)
    ensures l.answer.Found? ==> Covered(list, i + 1, got + [l])
    ensures !l.answer.Found? ==> LookedUp(Some(list), got + [l]) && !AllFound(got + [l])
  {
    TypedStep(list, i);
    TypedPrefix(list, i + 1);
    assert l in got + [l];
    assert LooksAt(got + [l], Typed(list[..i + 1]));
  }

  lemma CoveredSkipped(list: seq<Resource>, i: nat, got: seq<Look>)
    requires i < |list| && list[i].kind == Others && Covered(list, i, got)
    ensures Covered(list, i + 1, got)
  {
    TypedStep(list, i);
  }

  lemma CoveredAll(list: seq<Resource>, got: seq<Look>)
    requires Covered(list, |list|, got)
    ensures LookedUp(Some(list), got) && AllFound(got)
  {
    assert list[..|list|] == list;
  }

  /** Each object is the answer to one of the looks. */
  ghost predicate Answered(os: seq<Object>, got: seq<Look>) {
    forall o | o in os :: exists l :: l in got && l.answer == Found(o)
  }

  lemma AnsweredMore(os: seq<Object>, got: seq<Look>, o: Object, l: Look)
    requires Answered(os, got) && l.answer == Found(o)
    ensures Answered(os, got + [l]) && Answered(os + [o], got + [l])
  {
    assert l in got + [l];
    forall x | x in os ensures exists k :: k in got + [l] && k.answer == Found(x) {
      var k :| k in got && k.answer == Found(x);
      assert k in got + [l];
    }
  }

  /** Every Get was answered, if only by saying that there is no such resource. */
  ghost predicate Reached(got: seq<Look>) {
    forall l | l in got :: !l.answer.Unavailable?
  }

  /** The working set of a reconciliation. */
  ghost function WorkingSet(s: Store, cfg: Config): (t: Topology) {
    TopologyOf(EstateOf(s, cfg.lb), cfg.tag)
  }

  // ---- One fetched object ----

  /** Where a fetched object belongs: a Bind or Server to its parent, the others to their LoadBalancer. */
  ghost predicate Ours(t: Topology, lb: Id, spec: Spec) {
    match spec
    case Backend(_, _, _, l) => l == lb
    case Frontend(_, _, l, _) => l == lb
    case Foreign => false
    case _ => Parented(t, spec)
  }

  /** The object is in the working set, as what it is, exactly if it is ours. */
  ghost predicate Placeable(t: Topology, lb: Id, o: Object) {
    if Ours(t, lb, o.spec) then o.id in t && t[o.id] == o.spec else o.id !in t
  }

  lemma FetchedRoot(s: Store, cfg: Config, id: Id)
    requires Sound(s) && id in s && (s[id].spec.Backend? || s[id].spec.Frontend?)
    requires id in EstateOf(s, cfg.lb) ==> cfg.tag in s[id].tags
    ensures var t := TopologyOf(EstateOf(s, cfg.lb), cfg.tag);
            if s[id].spec.lb == cfg.lb then id in t && t[id] == s[id].spec else id !in t
  {
  }

  /** A Bind or Server is ours exactly if its parent is among our Frontends or Backends. */
  lemma FetchedLeaf(s: Store, cfg: Config, id: Id)
    requires Sound(s) && id in s && (s[id].spec.Bind? || s[id].spec.Server?)
    requires id in EstateOf(s, cfg.lb) ==> cfg.tag in s[id].tags
    ensures var t := TopologyOf(EstateOf(s, cfg.lb), cfg.tag);
            if Parented(t, s[id].spec) then id in t && t[id] == s[id].spec else id !in t
  {
    assert ParentExists(s, s[id].spec);
  }

  // ---- The lists while they are filled ----

  datatype Haul = Haul(
    frontends: seq<Object>,
    backends: seq<Object>,
    allBinds: seq<Object>,
    allServers: seq<Object>,
    sorted: seq<Object>)

  ghost predicate Hauled(h: Haul, t: Topology, seen: set<Id>) {
    && Collected(h.frontends, t, Frontends, seen)
    && Collected(h.backends, t, Backends, seen)
    && Gathered(h.allBinds, t, Binds, seen)
    && Gathered(h.allServers, t, Servers, seen)
    && (forall o :: o in h.sorted <==> o in h.frontends || o in h.backends)
    && DistinctIds(h.sorted)
  }

  /** Where the typed retrievers put a fetched object. */
  function Put(h: Haul, lb: Id, o: Object): (h': Haul) {
    match o.spec
    case Frontend(_, _, l, _) =>
      if l == lb then h.(frontends := h.frontends + [o], sorted := h.sorted + [o]) else h
    case Backend(_, _, _, l) =>
      if l == lb then h.(backends := h.backends + [o], sorted := h.sorted + [o]) else h
    case Bind(_, _, _, _) => h.(allBinds := h.allBinds + [o])
    case Server(_, _, _, _, _) => h.(allServers := h.allServers + [o])
    case Foreign => h
  }

  ghost predicate HaulAnswered(h: Haul, got: seq<Look>) {
    Answered(h.sorted, got) && Answered(h.allBinds, got) && Answered(h.allServers, got)
  }

  lemma PutAnswered(h: Haul, lb: Id, o: Object, got: seq<Look>, l: Look)
    requires HaulAnswered(h, got) && l.answer == Found(o)
    ensures HaulAnswered(Put(h, lb, o), got + [l])
  {
    AnsweredMore(h.sorted, got, o, l);
    AnsweredMore(h.allBinds, got, o, l);
    AnsweredMore(h.allServers, got, o, l);
  }

  lemma PutFrontend(h: Haul, t: Topology, seen: set<Id>, o: Object)
    requires Hauled(h, t, seen) && o.id !in seen && o.spec.Frontend? && o.id in t && t[o.id] == o.spec
    ensures Hauled(h.(frontends := h.frontends + [o], sorted := h.sorted + [o]), t, seen + {o.id})
  {
    CollectFound(h.frontends, t, Frontends, seen, o);
    CollectSkipped(h.backends, t, Backends, seen, o.id);
    GatherSkipped(h.allBinds, t, Binds, seen, o.id);
    GatherSkipped(h.allServers, t, Servers, seen, o.id);
  }

  lemma PutBackend(h: Haul, t: Topology, seen: set<Id>, o: Object)
    requires Hauled(h, t, seen) && o.id !in seen && o.spec.Backend? && o.id in t && t[o.id] == o.spec
    ensures Hauled(h.(backends := h.backends + [o], sorted := h.sorted + [o]), t, seen + {o.id})
  {
    CollectFound(h.backends, t, Backends, seen, o);
    CollectSkipped(h.frontends, t, Frontends, seen, o.id);
    GatherSkipped(h.allBinds, t, Binds, seen, o.id);
    GatherSkipped(h.allServers, t, Servers, seen, o.id);
  }

  lemma PutLeaf(h: Haul, lb: Id, t: Topology, seen: set<Id>, o: Object)
    requires Hauled(h, t, seen) && o.id !in seen && (o.spec.Bind? || o.spec.Server?)
    requires if Parented(t, o.spec) then o.id in t && t[o.id] == o.spec else o.id !in t
    ensures Hauled(Put(h, lb, o), t, seen + {o.id})
  {
    CollectSkipped(h.frontends, t, Frontends, seen, o.id);
    CollectSkipped(h.backends, t, Backends, seen, o.id);
    if o.spec.Bind? {
      GatherFound(h.allBinds, t, Binds, seen, o);
      GatherSkipped(h.allServers, t, Servers, seen, o.id);
    } else {
      GatherFound(h.allServers, t, Servers, seen, o);
      GatherSkipped(h.allBinds, t, Binds, seen, o.id);
    }
  }

  lemma PutNone(h: Haul, t: Topology, seen: set<Id>, id: Id)
    requires Hauled(h, t, seen) && id !in t
    ensures Hauled(h, t, seen + {id})
  {
    CollectSkipped(h.frontends, t, Frontends, seen, id);
    CollectSkipped(h.backends, t, Backends, seen, id);
    GatherSkipped(h.allBinds, t, Binds, seen, id);
    GatherSkipped(h.allServers, t, Servers, seen, id);
  }

  lemma FetchedPlaceable(s: Store, cfg: Config, o: Object)
    requires Sound(s) && o.id in s && s[o.id].spec == o.spec
    requires o.id in EstateOf(s, cfg.lb) ==> cfg.tag in s[o.id].tags
    ensures Placeable(TopologyOf(EstateOf(s, cfg.lb), cfg.tag), cfg.lb, o)
  {
    if o.spec.Frontend? || o.spec.Backend? {
      FetchedRoot(s, cfg, o.id);
    } else if !o.spec.Foreign? {
      FetchedLeaf(s, cfg, o.id);
    }
  }

  /** Storing a fetched object extends what has been retrieved by exactly that object. */
  lemma PutFetched(h: Haul, t: Topology, lb: Id, seen: set<Id>, o: Object)
    requires Placeable(t, lb, o) && o.id !in seen && Hauled(h, t, seen)
    ensures Hauled(Put(h, lb, o), t, seen + {o.id})
  {
    if o.spec.Bind? || o.spec.Server? {
      PutLeaf(h, lb, t, seen, o);
    } else if !Ours(t, lb, o.spec) {
      PutNone(h, t, seen, o.id);
    } else if o.spec.Frontend? {
      PutFrontend(h, t, seen, o);
    } else {
      PutBackend(h, t, seen, o);
    }
  }

  /** Every retrieved object of the working set was ready when it was fetched. */
  ghost predicate SeenReady(h: Haul, t: Topology) {
    && (forall o | o in h.sorted && o.id in t :: IsReady(o.state))
    && (forall o | o in h.allBinds && o.id in t :: IsReady(o.state))
    && (forall o | o in h.allServers && o.id in t :: IsReady(o.state))
  }

  lemma PutReady(h: Haul, lb: Id, s: Store, t: Topology, o: Object)
    requires o.id in s && s[o.id].state == o.state && AllReady(s, t)
    requires SeenReady(h, t)
    ensures SeenReady(Put(h, lb, o), t)
  {
    assert o.id in t ==> ReadyIn(s, o.id);
  }

  /** Once everything of the working set has been looked at, a list shows all of its kind. */
  lemma CollectedAll(os: seq<Object>, t: Topology, kind: Kind, seen: set<Id>)
    requires Collected(os, t, kind, seen) && t.Keys <= seen
    ensures Shows(os, t, kind)
  {
  }

  lemma ShowsId(os: seq<Object>, t: Topology, kind: Kind, id: Id)
    requires Shows(os, t, kind)
    ensures (exists o :: o in os && o.id == id) <==> id in t && KindOf(t[id]) == kind
  {
  }

  /** Looking for the parent among our objects is looking whether the object is ours. */
  lemma ParentShown(parents: seq<Object>, all: seq<Object>, t: Topology, kind: Kind, seen: set<Id>, o: Object)
    requires Gathered(all, t, kind, seen) && o in all
    requires kind == Binds ==> Shows(parents, t, Frontends)
    requires kind == Servers ==> Shows(parents, t, Backends)
    ensures kind == Binds ==> o.spec.Bind? && (o.id in t <==> exists p :: p in parents && p.id == o.spec.frontend)
    ensures kind == Servers ==> o.spec.Server? && (o.id in t <==> exists p :: p in parents && p.id == o.spec.backend)
  {
    if kind == Binds {
      ShowsId(parents, t, Frontends, o.spec.frontend);
    } else if kind == Servers {
      ShowsId(parents, t, Backends, o.spec.backend);
    }
  }

  /** The four lists of a reconciliation, and all objects it has sorted by state. */
  datatype Inventory = Inventory(
    frontends: seq<Object>,
    backends: seq<Object>,
    binds: seq<Object>,
    servers: seq<Object>,
    sorted: seq<Object>)

  /** The four lists show the working set, and all of it has been sorted by state. */
  ghost predicate Retrieved(v: Inventory, t: Topology) {
    && Shows(v.frontends, t, Frontends) && Shows(v.backends, t, Backends)
    && Shows(v.binds, t, Binds) && Shows(v.servers, t, Servers)
    && (forall o :: o in v.sorted <==> o in v.frontends || o in v.backends || o in v.binds || o in v.servers)
    && DistinctIds(v.sorted)
  }

  lemma AllRetrieved(h: Haul, ns: seq<Object>, ss: seq<Object>, t: Topology, seen: set<Id>, got: seq<Look>)
    requires Hauled(h, t, seen) && t.Keys <= seen && HaulAnswered(h, got)
    requires Filtered(ns, h.allBinds, t, |h.allBinds|) && Filtered(ss, h.allServers, t, |h.allServers|)
    ensures Retrieved(Inventory(h.frontends, h.backends, ns, ss, h.sorted + ns + ss), t)
    ensures Answered(h.sorted + ns + ss, got)
    ensures SeenReady(h, t) ==> forall o | o in h.sorted + ns + ss :: IsReady(o.state)
  {
    CollectedAll(h.frontends, t, Frontends, seen);
    CollectedAll(h.backends, t, Backends, seen);
    FilteredAll(ns, h.allBinds, t, Binds, seen);
    FilteredAll(ss, h.allServers, t, Servers, seen);
    DistinctKinds(h.sorted, ns, ss, t);
    assert h.allBinds[..|h.allBinds|] == h.allBinds && h.allServers[..|h.allServers|] == h.allServers;
  }

  /** These are the objects of `t`, each once. */
  ghost predicate Depicts(os: seq<Object>, t: Topology) {
    && (forall o | o in os :: o.id in t && t[o.id] == o.spec)
    && (forall id | id in t :: exists o :: o in os && o.id == id)
    && DistinctIds(os)
  }

  lemma RetrievedDepicts(v: Inventory, t: Topology)
    requires Retrieved(v, t) && forall id | id in t :: KindOf(t[id]) != Others
    ensures Depicts(v.sorted, t)
  {
    forall id | id in t ensures exists o :: o in v.sorted && o.id == id {
      ShowsId(v.frontends, t, Frontends, id);
      ShowsId(v.backends, t, Backends, id);
      ShowsId(v.binds, t, Binds, id);
      ShowsId(v.servers, t, Servers, id);
    }
  }

  lemma DistinctKinds(roots: seq<Object>, ns: seq<Object>, ss: seq<Object>, t: Topology)
    requires DistinctIds(roots) && DistinctIds(ns) && DistinctIds(ss)
    requires forall o | o in roots :: o.id in t && KindOf(t[o.id]) in {Frontends, Backends}
    requires forall o | o in ns :: o.id in t && KindOf(t[o.id]) == Binds
    requires forall o | o in ss :: o.id in t && KindOf(t[o.id]) == Servers
    ensures DistinctIds(roots + ns + ss)
  {
    var all := roots + ns + ss;
    forall i, j | 0 <= i < j < |all| ensures all[i].id != all[j].id {
      assert all[i] == if i < |roots| then roots[i] else if i < |roots| + |ns| then ns[i - |roots|]
        else ss[i - |roots| - |ns|];
      assert all[j] == if j < |roots| then roots[j] else if j < |roots| + |ns| then ns[j - |roots|]
        else ss[j - |roots| - |ns|];
    }
  }

  /** What filterBinds and filterServers keep of the objects before index `i`. */
  ghost predicate Filtered(kept: seq<Object>, all: seq<Object>, t: Topology, i: nat)
    requires i <= |all|
  {
    && (forall o :: o in kept <==> o in all[..i] && o.id in t)
    && DistinctIds(kept)
  }

  lemma FilteredStep(kept: seq<Object>, all: seq<Object>, t: Topology, i: nat)
    requires i < |all| && DistinctIds(all) && Filtered(kept, all, t, i)
    ensures Filtered(if all[i].id in t then kept + [all[i]] else kept, all, t, i + 1)
  {
    assert all[..i + 1] == all[..i] + [all[i]];
  }

  lemma FilteredAll(kept: seq<Object>, all: seq<Object>, t: Topology, kind: Kind, seen: set<Id>)
    requires Gathered(all, t, kind, seen) && t.Keys <= seen && Filtered(kept, all, t, |all|)
    ensures Shows(kept, t, kind)
  {
    assert all[..|all|] == all;
    forall o | o in kept ensures o.id in t && t[o.id] == o.spec && KindOf(o.spec) == kind {
    }
  }

  // ---- Sorting by state ----

  /** The retrieved objects in one condition, in the order they were sorted. */
  ghost function Select(os: seq<Object>, c: Condition): (selected: seq<Object>) {
    if os == [] then []
    else
      var last := os[|os| - 1];
      Select(os[..|os| - 1], c) + (if ConditionOf(last.state) == c then [last] else [])
  }

  lemma SelectAppend(os: seq<Object>, o: Object, c: Condition)
    ensures Select(os + [o], c) == Select(os, c) + (if ConditionOf(o.state) == c then [o] else [])
  {
    assert (os + [o])[..|os|] == os;
  }

  lemma {:induction false} SelectIs(os: seq<Object>, c: Condition)
    ensures forall o :: o in Select(os, c) <==> o in os && ConditionOf(o.state) == c
    ensures DistinctIds(os) ==> DistinctIds(Select(os, c))
  {
    if os != [] {
      var rest, last := os[..|os| - 1], os[|os| - 1];
      assert os == rest + [last];
      SelectIs(rest, c);
    }
  }

  ghost predicate AllReady(s: Store, t: Topology) {
    forall id | id in t :: ReadyIn(s, id)
  }
}
