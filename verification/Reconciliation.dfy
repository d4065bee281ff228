/** One reconciliation: the state of the Go struct and its methods, in place. */
module Reconciliation {
  import opened Common
  import opened Resources
  import opened Layout
  import opened Engines
  import opened Compare
  import opened Retrieval
  import opened Convergence
  import opened DestroyLoop
  import opened Creating
  import opened Calls
  import opened Progress
  import opened Rounds
  import opened Waiting
  import Statuses
  import opened Steps

  class Recon {
    const engine: Engine
    const cfg: Config

    // existing resources
    var frontends: seq<Object>
    var backends: seq<Object>
    var binds: seq<Object>
    var servers: seq<Object>

    var existingFailed: seq<Object>
    var existingProgressing: seq<Object>
    var existingUpdating: seq<Object>

    // connections gathered from existing resources
    var portBackends: map<string, Id>
    var portFrontends: map<string, Id>

    // the gauges of pending operations
    var pendingCreate: int
    var pendingDestroy: int

    /** All objects sorted by state since the last reset. */
    ghost var sorted: seq<Object>

    constructor (engine: Engine, cfg: Config)
      ensures this.engine == engine && this.cfg == cfg
      ensures pendingCreate == pendingDestroy == 0
    {
      this.engine, this.cfg := engine, cfg;
      frontends, backends, binds, servers := [], [], [], [];
      existingFailed, existingProgressing, existingUpdating := [], [], [];
      portBackends, portFrontends := map[], map[];
      pendingCreate, pendingDestroy := 0, 0;
      sorted := [];
    }

    /** Everything the Engine holds for this LoadBalancer. */
    ghost function Estate(): (e: Resources.Estate)
      reads engine`store
    {
      EstateOf(engine.store, cfg.lb)
    }

    /** The working set: what the tag and the LoadBalancer select. */
    ghost function Topo(): (t: Topology)
      reads engine`store
    {
      TopologyOf(Estate(), cfg.tag)
    }

    ghost predicate Arrays()
      reads this`existingUpdating, this`existingFailed, this`existingProgressing, this`sorted
    {
      && existingUpdating == Select(sorted, Updating)
      && existingFailed == Select(sorted, Failed)
      && existingProgressing == Select(sorted, Progressing)
    }

    method SortObjectIntoStateArray(o: Object)
      requires Arrays()
      modifies this`existingUpdating, this`existingFailed, this`existingProgressing, this`sorted
      ensures Arrays() && sorted == old(sorted) + [o]
      ensures o.state.updating ==> existingUpdating == old(existingUpdating) + [o]
      ensures !o.state.updating && o.state.kind.Error? ==> existingFailed == old(existingFailed) + [o]
      ensures !o.state.updating && o.state.kind.Pending? ==> existingProgressing == old(existingProgressing) + [o]
    {
      SelectAppend(sorted, o, Updating);
      SelectAppend(sorted, o, Failed);
      SelectAppend(sorted, o, Progressing);
      sorted := sorted + [o];
      if o.state.updating {
        existingUpdating := existingUpdating + [o];
      } else if o.state.kind == Resources.Error {
        existingFailed := existingFailed + [o];
      } else if o.state.kind == Pending {
        existingProgressing := existingProgressing + [o];
      }
    }

    ghost function HaulWith(allBinds: seq<Object>, allServers: seq<Object>): (h: Haul)
      reads this
    {
      Haul(frontends, backends, allBinds, allServers, sorted)
    }

    /** What is known of a listed resource as long as only others move. */
    ghost predicate Listed(res: Resource)
      reads engine
    {
      && res.id < engine.next
      && (res.id in engine.store ==> KindOf(engine.store[res.id].spec) == res.kind)
      && (res.id in Estate() ==> cfg.tag in Estate()[res.id].tags)
    }

    /**
      * What the typed retrievers do with an object once it is fetched: what has been
      * retrieved of the working set `t` is extended by exactly that object.
      */
    method StoreFetched(o: Object, allBinds: seq<Object>, allServers: seq<Object>, ghost t: Topology,
                        ghost seen: set<Id>)
      returns (binds': seq<Object>, servers': seq<Object>)
      requires Arrays() && Hauled(HaulWith(allBinds, allServers), t, seen)
      requires Placeable(t, cfg.lb, o) && o.id !in seen
      modifies this`frontends, this`backends, this`sorted
      modifies this`existingUpdating, this`existingFailed, this`existingProgressing
      ensures Arrays() && Hauled(HaulWith(binds', servers'), t, seen + {o.id})
      ensures HaulWith(binds', servers') == Put(old(HaulWith(allBinds, allServers)), cfg.lb, o)
    {
      hide Hauled, Placeable;
      PutFetched(HaulWith(allBinds, allServers), t, cfg.lb, seen, o);
      binds', servers' := allBinds, allServers;
      match o.spec
      case Frontend(_, _, lb, _) =>
        if lb == cfg.lb {
          frontends := frontends + [o];
          SortObjectIntoStateArray(o);
        }
      case Backend(_, _, _, lb) =>
        if lb == cfg.lb {
          backends := backends + [o];
          SortObjectIntoStateArray(o);
        }
      case Bind(_, _, _, _) =>
        binds' := allBinds + [o];
      case Server(_, _, _, _, _) =>
        servers' := allServers + [o];
      case Foreign =>
    }

    /** In a reliable Engine, what is ready is seen as ready. */
    ghost predicate Ready(allBinds: seq<Object>, allServers: seq<Object>)
      reads this, engine
    {
      engine.reliable && AllReady(engine.store, Topo()) && SeenReady(HaulWith(allBinds, allServers), Topo())
    }

    /** The Get for listed resource `i`, after the Gets `before`. */
    method FetchTyped(res: Resource, ghost h: Haul, ghost list: seq<Resource>, ghost i: nat,
                      ghost looks0: seq<Look>, ghost before: seq<Look>)
      returns (fetched: Fetched, ghost got: seq<Look>)
      requires engine.Valid() && Listed(res) && i < |list| && list[i] == res && res.kind != Others
      requires engine.looks == looks0 + before && Covered(list, i, before) && HaulAnswered(h, before)
      modifies engine`store, engine`next, engine`looks
      ensures engine.Valid() && Estate() == old(Estate()) && engine.looks == looks0 + got
      ensures forall r | old(Listed(r)) :: Listed(r)
      ensures fetched.Found? ==>
                && fetched.value.id == res.id && Placeable(Topo(), cfg.lb, fetched.value)
                && Covered(list, i + 1, got) && HaulAnswered(Put(h, cfg.lb, fetched.value), got)
      ensures !fetched.Found? ==> LookedUp(Some(list), got) && !AllFound(got)
      ensures engine.reliable && Reached(before) ==> Reached(got)
      ensures engine.reliable && AllReady(old(engine.store), Topo()) ==> AllReady(engine.store, Topo())
      ensures engine.reliable && AllReady(old(engine.store), Topo()) && SeenReady(h, Topo()) && fetched.Found? ==>
                SeenReady(Put(h, cfg.lb, fetched.value), Topo())
    {
      fetched := engine.Get(res.id, cfg.lb);
      ghost var l := Look(res.id, fetched, engine.store);
      got := before + [l];
      assert looks0 + before + [l] == looks0 + got;
      CoveredOneMore(list, i, before, l);
      if fetched.Found? {
        FetchedPlaceable(engine.store, cfg, fetched.value);
        PutAnswered(h, cfg.lb, fetched.value, before, l);
        if engine.reliable && AllReady(old(engine.store), Topo()) && SeenReady(h, Topo()) {
          PutReady(h, cfg.lb, engine.store, Topo(), fetched.value);
        }
      }
    }

    /** One listed resource: fetch it, unless it is of unknown type, and store it. */
    method RetrieveTyped(res: Resource, allBinds: seq<Object>, allServers: seq<Object>, ghost seen: set<Id>,
                         ghost list: seq<Resource>, ghost i: nat, ghost looks0: seq<Look>, ghost before: seq<Look>)
      returns (ok: bool, binds': seq<Object>, servers': seq<Object>, ghost got: seq<Look>)
      requires engine.Valid() && Arrays() && Listed(res) && res.id !in seen && i < |list| && list[i] == res
      requires Hauled(HaulWith(allBinds, allServers), Topo(), seen) && engine.looks == looks0 + before
      requires Covered(list, i, before) && HaulAnswered(HaulWith(allBinds, allServers), before)
      modifies this`frontends, this`backends, this`sorted
      modifies this`existingUpdating, this`existingFailed, this`existingProgressing
      modifies engine`store, engine`next, engine`looks
      ensures engine.Valid() && Arrays() && Estate() == old(Estate()) && engine.looks == looks0 + got
      ensures forall r | old(Listed(r)) :: Listed(r)
      ensures ok ==> Hauled(HaulWith(binds', servers'), Topo(), seen + {res.id})
      ensures ok ==> Covered(list, i + 1, got) && HaulAnswered(HaulWith(binds', servers'), got)
      ensures !ok ==> LookedUp(Some(list), got) && !AllFound(got)
      ensures engine.reliable && Reached(before) ==> Reached(got)
      ensures engine.reliable && AllReady(old(engine.store), Topo()) ==> AllReady(engine.store, Topo())
      ensures ok && old(Ready(allBinds, allServers)) ==> Ready(binds', servers')
    {
      ok, binds', servers', got := true, allBinds, allServers, before;
      if res.kind == Others {
        PutNone(HaulWith(allBinds, allServers), Topo(), seen, res.id);
        CoveredSkipped(list, i, before);
      } else {
        var fetched;
        fetched, got := FetchTyped(res, HaulWith(allBinds, allServers), list, i, looks0, before);
        if fetched.Found? {
          binds', servers' := StoreFetched(fetched.value, allBinds, allServers, Topo(), seen);
        } else {
          ok := false;
        }
      }
    }

    lemma NothingRetrieved(resources: seq<Resource>)
      requires sorted == [] && frontends == [] && backends == []
      ensures Hauled(HaulWith([], []), Topo(), {}) && SeenReady(HaulWith([], []), Topo())
      ensures Covered(resources, 0, []) && HaulAnswered(HaulWith([], []), []) && Reached([])
      ensures IdsBefore(resources, 0) == {}
    {
    }

    /** The loop over the listing. */
    method RetrieveListed(resources: seq<Resource>)
      returns (ok: bool, allBinds: seq<Object>, allServers: seq<Object>, ghost seen: set<Id>, ghost got: seq<Look>)
      requires engine.Valid() && Arrays() && sorted == [] && frontends == [] && backends == []
      requires forall r | r in resources :: Listed(r)
      requires DistinctResources(resources)
      modifies this`frontends, this`backends, this`sorted
      modifies this`existingUpdating, this`existingFailed, this`existingProgressing
      modifies engine`store, engine`next, engine`looks
      ensures engine.Valid() && Arrays() && Estate() == old(Estate()) && engine.looks == old(engine.looks) + got
      ensures LookedUp(Some(resources), got) && (ok <==> AllFound(got))
      ensures ok ==> Hauled(HaulWith(allBinds, allServers), Topo(), seen)
      ensures ok ==> HaulAnswered(HaulWith(allBinds, allServers), got)
      ensures ok ==> forall r | r in resources :: r.id in seen
      ensures engine.reliable ==> Reached(got)
      ensures engine.reliable && AllReady(old(engine.store), Topo()) ==> AllReady(engine.store, Topo())
      ensures ok && engine.reliable && AllReady(old(engine.store), Topo()) ==> Ready(allBinds, allServers)
    {
      hide Hauled, Covered, HaulAnswered, Reached, SeenReady, AllReady, LookedUp, DistinctResources, IdsBefore;
      ok, allBinds, allServers, seen, got := true, [], [], {}, [];
      ghost var looks0 := engine.looks;
      NothingRetrieved(resources);
      NothingMore(looks0);
      var i := 0;
      while i < |resources|
        invariant 0 <= i <= |resources| && ok
        invariant engine.Valid() && Arrays() && Estate() == old(Estate()) && engine.looks == looks0 + got
        invariant forall r | r in resources :: Listed(r)
        invariant seen == IdsBefore(resources, i)
        invariant Hauled(HaulWith(allBinds, allServers), Topo(), seen)
        invariant Covered(resources, i, got) && HaulAnswered(HaulWith(allBinds, allServers), got)
        invariant engine.reliable ==> Reached(got)
        invariant engine.reliable && AllReady(old(engine.store), Topo()) ==> Ready(allBinds, allServers)
      {
        assert resources[i] in resources;
        IdsBeforeStep(resources, i);
        ok, allBinds, allServers, got :=
          RetrieveTyped(resources[i], allBinds, allServers, seen, resources, i, looks0, got);
        if !ok {
          return;
        }
        seen := seen + {resources[i].id};
        i := i + 1;
      }
      CoveredAll(resources, got);
      IdsBeforeAll(resources);
    }

    /** Keeps an object, and sorts it. */
    method Keep(o: Object, kept: seq<Object>, ghost before: seq<Object>) returns (kept': seq<Object>)
      requires Arrays() && sorted == before + kept
      modifies this`existingUpdating, this`existingFailed, this`existingProgressing, this`sorted
      ensures Arrays() && kept' == kept + [o] && sorted == before + kept'
    {
      kept' := kept + [o];
      SortObjectIntoStateArray(o);
      assert before + kept + [o] == before + kept';
    }

    method FilterBinds(allBinds: seq<Object>, ghost seen: set<Id>) returns (ret: seq<Object>)
      requires Arrays() && Shows(frontends, Topo(), Frontends) && Gathered(allBinds, Topo(), Binds, seen)
      modifies this`existingUpdating, this`existingFailed, this`existingProgressing, this`sorted
      ensures Arrays() && sorted == old(sorted) + ret
      ensures Filtered(ret, allBinds, Topo(), |allBinds|)
    {
      ret := [];
      ghost var t := Topo();
      for i := 0 to |allBinds|
        invariant Arrays() && sorted == old(sorted) + ret
        invariant Filtered(ret, allBinds, t, i)
      {
        var bind := allBinds[i];
        FilteredStep(ret, allBinds, t, i);
        ParentShown(frontends, allBinds, t, Binds, seen, bind);
        var idx := Search(bind.spec.frontend, frontends);
        if idx != -1 {
          ret := Keep(bind, ret, old(sorted));
        }
      }
    }

    method FilterServers(allServers: seq<Object>, ghost seen: set<Id>) returns (ret: seq<Object>)
      requires Arrays() && Shows(backends, Topo(), Backends) && Gathered(allServers, Topo(), Servers, seen)
      modifies this`existingUpdating, this`existingFailed, this`existingProgressing, this`sorted
      ensures Arrays() && sorted == old(sorted) + ret
      ensures Filtered(ret, allServers, Topo(), |allServers|)
    {
      ret := [];
      ghost var t := Topo();
      for i := 0 to |allServers|
        invariant Arrays() && sorted == old(sorted) + ret
        invariant Filtered(ret, allServers, t, i)
      {
        var server := allServers[i];
        FilteredStep(ret, allServers, t, i);
        ParentShown(backends, allServers, t, Servers, seen, server);
        var idx := Search(server.spec.backend, backends);
        if idx != -1 {
          ret := Keep(server, ret, old(sorted));
        }
      }
    }

    ghost function Lists(): (v: Inventory)
      reads this
    {
      Inventory(frontends, backends, binds, servers, sorted)
    }

    /** The lists hold the working set `t`, sorted by the states seen. */
    ghost predicate Holds(t: Topology)
      reads this
    {
      Arrays() && Retrieved(Lists(), t)
    }

    method ListResources() returns (list: Option<seq<Resource>>)
      requires engine.Valid()
      modifies engine`store, engine`next
      ensures engine.Valid() && Estate() == old(Estate())
      ensures list.Some? ==> forall r | r in list.value :: Listed(r)
      ensures list.Some? ==> DistinctResources(list.value)
      ensures list.Some? ==> forall id | id in Topo() :: exists r :: r in list.value && r.id == id
      ensures engine.reliable ==> list.Some?
      ensures engine.reliable && AllReady(old(engine.store), Topo()) ==> AllReady(engine.store, Topo())
    {
      list := engine.List(cfg.tag, cfg.lb);
      if list.Some? {
        forall id | id in Topo() ensures exists r :: r in list.value && r.id == id {
          assert Resource(id, KindOf(engine.store[id].spec)) in list.value;
        }
      }
    }

    method RetrieveResources() returns (ok: bool, ghost list: Option<seq<Resource>>, ghost got: seq<Look>)
      requires engine.Valid() && Arrays() && sorted == [] && frontends == [] && backends == []
      modifies this`frontends, this`backends, this`binds, this`servers, this`sorted
      modifies this`existingUpdating, this`existingFailed, this`existingProgressing
      modifies engine`store, engine`next, engine`looks
      ensures engine.Valid() && Estate() == old(Estate()) && engine.looks == old(engine.looks) + got
      ensures LookedUp(list, got) && (ok <==> Succeeds(list, got))
      ensures ok ==> Holds(Topo()) && Answered(sorted, got)
      ensures engine.reliable ==> list.Some? && Reached(got)
      ensures engine.reliable && AllReady(old(engine.store), Topo()) ==>
                AllReady(engine.store, Topo()) && (ok ==> forall o | o in sorted :: IsReady(o.state))
    {
      var resources := ListResources();
      list, got := resources, [];
      if resources.None? {
        return false, None, [];
      }
      ghost var t := Topo();
      assert forall id | id in t :: exists r :: r in resources.value && r.id == id;
      var allBinds, allServers;
      ghost var seen;
      ok, allBinds, allServers, seen, got := RetrieveListed(resources.value);
      if ok {
        assert Topo() == t;
        forall id | id in t ensures id in seen {
          var r :| r in resources.value && r.id == id;
        }
        Filter(allBinds, allServers, seen, got);
      }
    }

    method Filter(allBinds: seq<Object>, allServers: seq<Object>, ghost seen: set<Id>, ghost got: seq<Look>)
      requires Arrays() && Hauled(HaulWith(allBinds, allServers), Topo(), seen) && Topo().Keys <= seen
      requires HaulAnswered(HaulWith(allBinds, allServers), got)
      modifies this`binds, this`servers, this`sorted
      modifies this`existingUpdating, this`existingFailed, this`existingProgressing
      ensures Holds(Topo()) && Answered(sorted, got)
      ensures SeenReady(old(HaulWith(allBinds, allServers)), Topo()) ==> forall o | o in sorted ::
              IsReady(o.state)
    {
      assert Collected(frontends, Topo(), Frontends, seen) && Collected(backends, Topo(), Backends, seen);
      assert Gathered(allBinds, Topo(), Binds, seen) && Gathered(allServers, Topo(), Servers, seen);
      hide Hauled, HaulAnswered, Collected, Gathered, Shows, Filtered, Retrieved, Answered, SeenReady;
      ghost var h := HaulWith(allBinds, allServers);
      CollectedAll(frontends, Topo(), Frontends, seen);
      CollectedAll(backends, Topo(), Backends, seen);
      FilterLeaves(allBinds, allServers, seen);
      hide Recon.Arrays;
      AllRetrieved(h, binds, servers, Topo(), seen, got);
    }

    method FilterLeaves(allBinds: seq<Object>, allServers: seq<Object>, ghost seen: set<Id>)
      requires Arrays() && Shows(frontends, Topo(), Frontends) && Shows(backends, Topo(), Backends)
      requires Gathered(allBinds, Topo(), Binds, seen) && Gathered(allServers, Topo(), Servers, seen)
      modifies this`binds, this`servers, this`sorted
      modifies this`existingUpdating, this`existingFailed, this`existingProgressing
      ensures Arrays() && sorted == old(sorted) + binds + servers
      ensures Filtered(binds, allBinds, Topo(), |allBinds|) && Filtered(servers, allServers, Topo(), |allServers|)
    {
      hide Shows, Gathered, Filtered, Recon.Arrays;
      binds := FilterBinds(allBinds, seen);
      servers := FilterServers(allServers, seen);
    }

    /** Resets the lists and fills them from the Engine. */
    method RetrieveState() returns (ok: bool, ghost list: Option<seq<Resource>>, ghost got: seq<Look>)
      requires engine.Valid()
      modifies this`frontends, this`backends, this`binds, this`servers, this`sorted
      modifies this`existingUpdating, this`existingFailed, this`existingProgressing
      modifies this`portBackends, this`portFrontends
      modifies engine`store, engine`next, engine`looks
      ensures engine.Valid() && Estate() == old(Estate()) && engine.looks == old(engine.looks) + got
      ensures portBackends == map[] && portFrontends == map[]
      ensures LookedUp(list, got) && (ok <==> Succeeds(list, got))
      ensures ok ==> Holds(Topo()) && Answered(sorted, got)
      ensures engine.reliable ==> list.Some? && Reached(got)
      ensures engine.reliable && AllReady(old(engine.store), Topo()) ==>
                AllReady(engine.store, Topo()) && (ok ==> forall o | o in sorted :: IsReady(o.state))
    {
      frontends, backends, binds, servers := [], [], [], [];
      portBackends, portFrontends := map[], map[];
      existingFailed, existingProgressing, existingUpdating := [], [], [];
      sorted := [];
      ok, list, got := RetrieveResources();
    }

    ghost function CurrentLinks(): (l: Links)
      reads this
    {
      Links(portBackends, portFrontends)
    }

    /** For each port, look for the target of its name and remember its identifier. */
    method Link(targets: seq<Spec>, ids: seq<Option<Id>>) returns (links: map<string, Id>)
      requires |ids| == |targets| && (forall s | s in targets :: s.Backend? || s.Frontend?)
      requires forall i | 0 <= i < |ids| :: ids[i].Some?
      ensures Linked(cfg, targets, ids, links)
    {
      links := map[];
      var names := Enumerate(cfg.ports);
      for i := 0 to |names|
        invariant forall p | p in links :: p in cfg.ports && exists j ::
                  NamedAt(cfg, targets, j, p) && ids[j] == Some(links[p])
        invariant forall p, j | p in names[..i] && NamedAt(cfg, targets, j, p) :: p in links
      {
        assert names[..i + 1] == names[..i] + [names[i]];
        var expectedName := Names.MakeResourceName([names[i]], cfg.suffix);
        var j := 0;
        while j < |targets| && targets[j].name != expectedName
          invariant 0 <= j <= |targets|
          invariant forall k | 0 <= k < j :: targets[k].name != expectedName
        {
          j := j + 1;
        }
        if j < |targets| {
          assert NamedAt(cfg, targets, j, names[i]);
          links := links[names[i] := ids[j].value];
        }
      }
      assert names[..|names|] == names;
    }

    method BuildBackends() returns (targets: seq<Spec>, ghost names: seq<string>)
      ensures BackendTargets(cfg, names, targets)
      ensures NoDup(targets) && forall spec :: spec in targets <==> WantedBackend(cfg, spec)
    {
      var ports := Enumerate(cfg.ports);
      targets := [];
      for i := 0 to |ports|
        invariant |targets| == i && forall k | 0 <= k < i :: targets[k] == BackendSpec(cfg, ports[k])
      {
        var name := Names.MakeResourceName([ports[i]], cfg.suffix);
        targets := targets + [Backend(name, TCP, TCP_CHECK, cfg.lb)];
      }
      names := ports;
      BackendTargetsAre(cfg, names, targets);
    }

    /** The Backend step, with the links it stores as a result. */
    method CompareBackends(ghost t: Topology)
      returns (toCreate: seq<Spec>, toDestroy: seq<Object>, links: map<string, Id>)
      requires Holds(t)
      ensures forall l: Links | l.backends == links ::
              Diff(cfg, t, l, Backends, backends, toCreate, toDestroy) && BackendsLinked(cfg, t, l)
      ensures NoDup(toCreate)
    {
      var targets;
      ghost var names;
      targets, names := BuildBackends();
      var ids;
      toCreate, toDestroy, ids := Compare.Reconcile(targets, backends);
      EmptyIff(toCreate);
      links := map[];
      if |toCreate| == 0 && |toDestroy| == 0 {
        links := Link(targets, ids);
      }
      forall l: Links | l.backends == links
        ensures Diff(cfg, t, l, Backends, backends, toCreate, toDestroy) && BackendsLinked(cfg, t, l)
      {
        BackendStep(cfg, t, l, backends, names, targets, ids, toCreate, toDestroy);
      }
    }

    method ReconcileBackends(ghost t: Topology) returns (toCreate: seq<Spec>, toDestroy: seq<Object>)
      requires Holds(t)
      modifies this`portBackends
      ensures forall l: Links | l.backends == portBackends ::
              Diff(cfg, t, l, Backends, backends, toCreate, toDestroy) && BackendsLinked(cfg, t, l)
      ensures NoDup(toCreate)
    {
      var links;
      toCreate, toDestroy, links := CompareBackends(t);
      portBackends := links;
    }

    method BuildFrontends() returns (targets: seq<Spec>, ghost names: seq<string>)
      ensures FrontendTargets(cfg, portBackends, names, targets)
      ensures NoDup(targets) && forall spec :: spec in targets <==> WantedFrontend(cfg, portBackends, spec)
    {
      var ports := Enumerate(cfg.ports);
      targets, names := [], [];
      for i := 0 to |ports|
        invariant forall p :: p in names <==> p in ports[..i] && p in portBackends
        invariant NoDup(names) && |targets| == |names|
        invariant forall k | 0 <= k < |names| ::
                  names[k] in portBackends && targets[k] == FrontendSpec(cfg, names[k], portBackends[names[k]])
      {
        assert ports[..i + 1] == ports[..i] + [ports[i]];
        if ports[i] in portBackends {
          var name := Names.MakeResourceName([ports[i]], cfg.suffix);
          targets := targets + [Frontend(name, TCP, cfg.lb, Some(portBackends[ports[i]]))];
          names := names + [ports[i]];
        }
      }
      assert ports[..|ports|] == ports;
      FrontendTargetsAre(cfg, portBackends, names, targets);
    }

    /** The Frontend step, with the links it stores as a result. */
    method CompareFrontends(ghost t: Topology)
      returns (toCreate: seq<Spec>, toDestroy: seq<Object>, links: map<string, Id>)
      requires Holds(t) && forall p | p in portBackends :: p in cfg.ports
      ensures Diff(cfg, t, Links(portBackends, links), Frontends, frontends, toCreate, toDestroy)
      ensures FrontendsLinked(cfg, t, Links(portBackends, links))
      ensures NoDup(toCreate)
    {
      var targets;
      ghost var names;
      targets, names := BuildFrontends();
      var ids;
      toCreate, toDestroy, ids := Compare.Reconcile(targets, frontends);
      EmptyIff(toCreate);
      links := map[];
      if |toCreate| == 0 && |toDestroy| == 0 {
        links := Link(targets, ids);
      }
      FrontendStep(cfg, t, Links(portBackends, links), frontends, names, targets, ids, toCreate, toDestroy);
    }

    method ReconcileFrontends(ghost t: Topology) returns (toCreate: seq<Spec>, toDestroy: seq<Object>)
      requires Holds(t) && forall p | p in portBackends :: p in cfg.ports
      modifies this`portFrontends
      ensures Diff(cfg, t, CurrentLinks(), Frontends, frontends, toCreate, toDestroy)
      ensures FrontendsLinked(cfg, t, CurrentLinks())
      ensures NoDup(toCreate)
    {
      var links;
      toCreate, toDestroy, links := CompareFrontends(t);
      portFrontends := links;
    }

    method BuildBinds() returns (targets: seq<Spec>, ghost pairs: seq<(Ip, string)>)
      ensures BindTargets(cfg, portFrontends, cfg.addresses, pairs, targets)
      ensures forall spec :: spec in targets <==> WantedBind(cfg, portFrontends, spec)
      ensures DistinctInputs(cfg) ==> NoDup(pairs)
    {
      hide BindTargets, WantedBind, DistinctInputs, Spread;
      targets, pairs := [], [];
      NoBindTargets(cfg, portFrontends);
      for i := 0 to |cfg.addresses|
        invariant BindTargets(cfg, portFrontends, cfg.addresses[..i], pairs, targets) && |pairs| == |targets|
        invariant DistinctInputs(cfg) ==> NoDup(pairs)
      {
        var a := cfg.addresses[i];
        var fam := if a.v4 then "v4" else "v6";
        ghost var before := |pairs|;
        ghost var pairs0, targets0 := pairs, targets;
        if DistinctInputs(cfg) {
          NewAddress(cfg, portFrontends, i, pairs, targets);
        }
        var ports := Enumerate(cfg.ports);
        SpreadStarts(a, portFrontends, pairs);
        for k := 0 to |ports|
          invariant before <= |pairs| == |targets| && pairs[..before] == pairs0 && targets[..before] == targets0
          invariant Spread(a, ports[..k], portFrontends, before, pairs)
          invariant forall j | before <= j < |pairs| && pairs[j].1 in cfg.ports && pairs[j].1 in portFrontends ::
                      targets[j] == BindSpec(cfg, a, pairs[j].1, portFrontends[pairs[j].1])
          invariant DistinctInputs(cfg) ==> NoDup(pairs) && forall j | 0 <= j < before :: pairs[j].0 != a
        {
          SpreadMore(a, ports, portFrontends, before, pairs, k);
          if ports[k] in portFrontends {
            var name := Names.MakeResourceName([fam, ports[k]], cfg.suffix);
            targets := targets + [Bind(name, a.text, cfg.ports[ports[k]].external, portFrontends[ports[k]])];
            pairs := pairs + [(a, ports[k])];
          }
        }
        assert ports[..|ports|] == ports;
        BindTargetsStep(cfg, portFrontends, cfg.addresses[..i], a, ports, before, pairs, targets);
        assert cfg.addresses[..i + 1] == cfg.addresses[..i] + [a];
      }
      assert cfg.addresses[..|cfg.addresses|] == cfg.addresses;
      BindTargetsAre(cfg, portFrontends, pairs, targets);
    }

    method ReconcileBinds(ghost t: Topology) returns (toCreate: seq<Spec>, toDestroy: seq<Object>)
      requires Holds(t) && FrontendsLinked(cfg, t, CurrentLinks())
      ensures Diff(cfg, t, CurrentLinks(), Binds, binds, toCreate, toDestroy)
      ensures DistinctInputs(cfg) ==> NoDup(toCreate)
    {
      var targets;
      ghost var pairs;
      targets, pairs := BuildBinds();
      var ids;
      toCreate, toDestroy, ids := Compare.Reconcile(targets, binds);
      BindStep(cfg, t, CurrentLinks(), binds, pairs, targets, toCreate, toDestroy);
    }

    method BuildServers() returns (targets: seq<Spec>, ghost pairs: seq<(Node, string)>)
      ensures ServerTargets(cfg, portBackends, cfg.nodes, pairs, targets)
      ensures forall spec :: spec in targets <==> WantedServer(cfg, portBackends, spec)
      ensures DistinctInputs(cfg) ==> NoDup(pairs)
    {
      hide ServerTargets, WantedServer, DistinctInputs, Spread;
      targets, pairs := [], [];
      NoServerTargets(cfg, portBackends);
      for i := 0 to |cfg.nodes|
        invariant ServerTargets(cfg, portBackends, cfg.nodes[..i], pairs, targets) && |pairs| == |targets|
        invariant DistinctInputs(cfg) ==> NoDup(pairs)
      {
        var n := cfg.nodes[i];
        ghost var before := |pairs|;
        ghost var pairs0, targets0 := pairs, targets;
        if DistinctInputs(cfg) {
          NewNode(cfg, portBackends, i, pairs, targets);
        }
        var ports := Enumerate(cfg.ports);
        SpreadStarts(n, portBackends, pairs);
        for k := 0 to |ports|
          invariant before <= |pairs| == |targets| && pairs[..before] == pairs0 && targets[..before] == targets0
          invariant Spread(n, ports[..k], portBackends, before, pairs)
          invariant forall j | before <= j < |pairs| && pairs[j].1 in cfg.ports && pairs[j].1 in portBackends ::
                      targets[j] == ServerSpec(cfg, n, pairs[j].1, portBackends[pairs[j].1])
          invariant DistinctInputs(cfg) ==> NoDup(pairs) && forall j | 0 <= j < before :: pairs[j].0 != n
        {
          SpreadMore(n, ports, portBackends, before, pairs, k);
          if ports[k] in portBackends {
            var name := Names.MakeResourceName([n.name, ports[k]], cfg.suffix);
            var server := Server(name, n.address.text, cfg.ports[ports[k]].internal, ENABLED, portBackends[ports[k]]);
            targets := targets + [server];
            pairs := pairs + [(n, ports[k])];
          }
        }
        assert ports[..|ports|] == ports;
        ServerTargetsStep(cfg, portBackends, cfg.nodes[..i], n, ports, before, pairs, targets);
        assert cfg.nodes[..i + 1] == cfg.nodes[..i] + [n];
      }
      assert cfg.nodes[..|cfg.nodes|] == cfg.nodes;
      ServerTargetsAre(cfg, portBackends, pairs, targets);
    }

    method ReconcileServers(ghost t: Topology) returns (toCreate: seq<Spec>, toDestroy: seq<Object>)
      requires Holds(t) && BackendsLinked(cfg, t, CurrentLinks())
      ensures Diff(cfg, t, CurrentLinks(), Servers, servers, toCreate, toDestroy)
      ensures DistinctInputs(cfg) ==> NoDup(toCreate)
    {
      var targets;
      ghost var pairs;
      targets, pairs := BuildServers();
      var ids;
      toCreate, toDestroy, ids := Compare.Reconcile(targets, servers);
      ServerStep(cfg, t, CurrentLinks(), servers, pairs, targets, toCreate, toDestroy);
    }

    /** The four steps in order. All of them always run. */
    method RunSteps(ghost t: Topology) returns (toCreate: seq<Spec>, toDestroy: seq<Object>)
      requires Holds(t)
      modifies this`portBackends, this`portFrontends
      ensures LinksFor(cfg, t, CurrentLinks())
      ensures FullDiff(cfg, t, CurrentLinks(), sorted, toCreate, toDestroy)
      ensures ParentsOnce(toCreate) && (DistinctInputs(cfg) ==> NoDup(toCreate))
    {
      hide Retrieved, FullDiff, DistinctInputs;
      var cb, db := ReconcileBackends(t);
      assert BackendsLinked(cfg, t, CurrentLinks());
      var cf, df := ReconcileFrontends(t);
      assert LinksFor(cfg, t, CurrentLinks());
      var cn, dn := ReconcileBinds(t);
      var cs, ds := ReconcileServers(t);
      toCreate, toDestroy := cb + cf + cn + cs, db + df + dn + ds;
      JoinDiffs(cfg, t, CurrentLinks(), Lists(), Delta(cb, db), Delta(cf, df), Delta(cn, dn), Delta(cs, ds));
      JoinOnce(cb, cf, cn, cs);
    }

    /** Resets one more of the failed objects, after the calls `done`. */
    method UpdateNext(o: Object, ghost done: seq<Call>, ghost log0: seq<Call>)
      returns (ok: bool, ghost calls: seq<Call>)
      requires engine.Valid() && o.id in Estate() && engine.log == log0 + done
      requires |done| < |existingFailed| && o == existingFailed[|done|]
      requires Resets(done, cfg.lb, existingFailed) && (done != [] ==> done[|done| - 1].ok)
      modifies engine`store, engine`next, engine`log
      ensures engine.Valid() && Estate() == old(Estate()) && engine.log == log0 + calls
      ensures Resets(calls, cfg.lb, existingFailed) && |calls| == |done| + 1 && calls[|done|].ok == ok
      ensures engine.reliable ==> ok
    {
      hide Polite, EstateOf, NoReuse;
      ghost var before := engine.log;
      ok := engine.Update(o.id, cfg.lb);
      ghost var c :| engine.log == before + [c] && c.op == Op.Update(o.id) && c.caller == cfg.lb && c.ok == ok
        && Polite(c);
      calls := done + [c];
      assert before + [c] == log0 + calls;
    }

    /** Resets the failed objects one after the other, up to the first error. */
    method UpdateFailedResources() returns (ok: bool, ghost calls: seq<Call>)
      requires engine.Valid() && forall o | o in existingFailed :: o.id in Estate()
      modifies engine`store, engine`next, engine`log
      ensures engine.Valid() && Estate() == old(Estate())
      ensures engine.log == old(engine.log) + calls && Resets(calls, cfg.lb, existingFailed)
      ensures ResetAll(calls, existingFailed, ok)
      ensures engine.reliable ==> ok
    {
      ok, calls := true, [];
      for i := 0 to |existingFailed|
        invariant engine.Valid() && Estate() == old(Estate())
        invariant engine.log == old(engine.log) + calls && Resets(calls, cfg.lb, existingFailed)
        invariant ok && |calls| == i && (i > 0 ==> calls[i - 1].ok)
      {
        assert existingFailed[i] in existingFailed;
        ok, calls := UpdateNext(existingFailed[i], calls, old(engine.log));
        if !ok {
          return;
        }
      }
    }

    /** What a check leaves behind when it is told to recover. */
    ghost predicate Recovering(err: Option<Error>, calls: seq<Call>)
      reads this
    {
      && (calls != [] ==> err == Some(RecoveryPending) || err == Some(UpdateFailed))
      && (calls != [] ==> Resets(calls, cfg.lb, existingFailed))
      && (err == Some(RecoveryPending) ==> ResetAll(calls, existingFailed, true))
      && (err == Some(UpdateFailed) ==> ResetAll(calls, existingFailed, false))
    }

    /** Which exit a check takes depends on the conditions of the objects it saw. */
    ghost predicate Exit(err: Option<Error>)
      reads this
    {
      && err != Some(RetrieveFailed)
      && (err.None? <==> existingFailed == [] && existingUpdating == [] && existingProgressing == [])
      && (err == Some(ResourcesProgressing) <==>
           existingFailed == [] && existingUpdating == [] && existingProgressing != [])
      && (err == Some(RecoveryPending) || err == Some(UpdateFailed) <==> existingFailed != [] || existingUpdating != [])
    }

    /** What a check that found no fault with any object returns. */
    ghost predicate Planned(t: Topology, toCreate: seq<Spec>, toDestroy: seq<Object>)
      reads this
    {
      && LinksFor(cfg, t, CurrentLinks())
      && FullDiff(cfg, t, CurrentLinks(), sorted, toCreate, toDestroy)
      && ParentsOnce(toCreate) && (DistinctInputs(cfg) ==> NoDup(toCreate))
    }

    /** The check after the retrieval: give up, recover, wait, or run the steps. */
    method Decide(retrieved: bool)
      returns (toCreate: seq<Spec>, toDestroy: seq<Object>, err: Option<Error>, ghost calls: seq<Call>)
      requires engine.Valid() && (retrieved ==> Holds(Topo()))
      modifies this`portBackends, this`portFrontends
      modifies engine`store, engine`next, engine`log
      ensures engine.Valid() && Estate() == old(Estate())
      ensures engine.log == old(engine.log) + calls && Recovering(err, calls)
      ensures calls == [] ==> engine.store == old(engine.store)
      ensures err.Some? ==> toCreate == [] && toDestroy == []
      ensures retrieved ==> Holds(Topo()) && Exit(err)
      ensures retrieved <==> err != Some(RetrieveFailed)
      ensures err.None? ==> calls == [] && Planned(Topo(), toCreate, toDestroy)
      ensures engine.reliable ==> err != Some(UpdateFailed)
    {
      toCreate, toDestroy, err, calls := [], [], None, [];
      if retrieved {
        ConditionsSorted();
      }
      var ok;
      if !retrieved {
        err := Some(RetrieveFailed);
      } else if |existingFailed| > 0 {
        ok, calls := UpdateFailedResources();
        err := if ok then Some(RecoveryPending) else Some(UpdateFailed);
      } else if |existingUpdating| > 0 {
        err := Some(RecoveryPending);
      } else if |existingProgressing| > 0 {
        err := Some(ResourcesProgressing);
      } else {
        toCreate, toDestroy := RunSteps(Topo());
      }
    }

    /** What a check knows after its retrieval, and how it exits. */
    ghost predicate Inspected(err: Option<Error>, list: Option<seq<Resource>>, got: seq<Look>, t: Topology)
      reads this
    {
      && LookedUp(list, got)
      && (err == Some(RetrieveFailed) <==> !Succeeds(list, got))
      && (err != Some(RetrieveFailed) ==> Holds(t) && Exit(err) && Answered(sorted, got))
    }

    method ReconcileCheck()
      returns (toCreate: seq<Spec>, toDestroy: seq<Object>, err: Option<Error>, ghost calls: seq<Call>,
               ghost list: Option<seq<Resource>>, ghost got: seq<Look>)
      requires engine.Valid()
      modifies this`frontends, this`backends, this`binds, this`servers, this`sorted
      modifies this`existingUpdating, this`existingFailed, this`existingProgressing
      modifies this`portBackends, this`portFrontends
      modifies engine`store, engine`next, engine`looks, engine`log
      ensures engine.Valid() && Estate() == old(Estate())
      ensures engine.looks == old(engine.looks) + got && Inspected(err, list, got, Topo())
      ensures engine.log == old(engine.log) + calls && Recovering(err, calls)
      ensures err.Some? ==> toCreate == [] && toDestroy == []
      ensures err.None? ==> calls == [] && Planned(Topo(), toCreate, toDestroy)
      ensures engine.reliable ==> err != Some(UpdateFailed) && list.Some? && Reached(got)
      ensures engine.reliable && AllReady(old(engine.store), Topo()) ==>
                AllReady(engine.store, Topo()) && (err.None? || err == Some(RetrieveFailed))
    {
      var retrieved;
      retrieved, list, got := RetrieveState();
      if retrieved {
        ConditionsSorted();
      }
      toCreate, toDestroy, err, calls := Decide(retrieved);
    }

    /** The three arrays hold exactly the objects of their condition, all of them from the working set. */
    lemma ConditionsSorted()
      requires Holds(Topo())
      ensures forall o :: o in existingUpdating <==> o in sorted && o.state.updating
      ensures forall o :: o in existingFailed <==> o in sorted && !o.state.updating && o.state.kind.Error?
      ensures forall o :: o in existingProgressing <==> o in sorted && !o.state.updating && o.state.kind.Pending?
      ensures forall o | o in sorted :: o.id in Topo()
      ensures DistinctIds(existingFailed) && DistinctIds(existingUpdating) && DistinctIds(existingProgressing)
      ensures (forall o | o in sorted :: IsReady(o.state)) <==>
                existingFailed == [] && existingUpdating == [] && existingProgressing == []
    {
      hide Select, Retrieved, DistinctIds;
      HeldIn(Topo());
      EmptyIff(existingFailed);
      EmptyIff(existingUpdating);
      EmptyIff(existingProgressing);
      SelectIs(sorted, Failed);
      SelectIs(sorted, Updating);
      SelectIs(sorted, Progressing);
    }

    lemma HeldIn(t: Topology)
      requires Holds(t)
      ensures DistinctIds(sorted) && forall o | o in sorted :: o.id in t
    {
      hide Select;
    }

    /** The objects exist and are ready in the Engine, now. */
    ghost predicate ReadyNow(os: seq<Object>)
      reads engine
    {
      forall o | o in os :: o.id in Estate() && ReadyIn(engine.store, o.id)
    }

    /** One object of a pass of the wait condition: it is fetched unless it is known to be fine. */
    method PollNext(os: seq<Object>, i: nat, states: seq<State>, firstPass: bool, ghost looks0: seq<Look>,
                    ghost before: seq<Look>)
      returns (bad: bool, unsettled: bool, states': seq<State>, ghost got: seq<Look>)
      requires engine.Valid() && i < |os| == |states| && engine.looks == looks0 + before
      modifies engine`store, engine`next, engine`looks
      ensures engine.Valid() && Estate() == old(Estate()) && engine.looks == looks0 + got
      ensures old(ReadyNow(os)) && engine.reliable ==> ReadyNow(os) && !bad && !unsettled
      ensures engine.reliable ==> StillReady(old(engine.store))
      ensures Polling(os[i].id, states[i], firstPass, before, got, bad, unsettled)
      ensures LooksOf(os, before) ==> LooksOf(os, got)
      ensures states' == states[i := Said(states[i], before, got)]
    {
      assert os[i] in os;
      bad, unsettled, states', got := false, false, states, before;
      if !(states[i].kind == OK && !states[i].updating && !firstPass) {
        var fetched := engine.Get(os[i].id, cfg.lb);
        got := before + [Look(os[i].id, fetched, engine.store)];
        assert looks0 + before + [Look(os[i].id, fetched, engine.store)] == looks0 + got;
        if !fetched.Found? {
          bad := true;
        } else {
          states' := states[i := fetched.value.state];
          if fetched.value.state.updating || fetched.value.state.kind == Pending {
            unsettled := true;
          } else if fetched.value.state.kind == Resources.Error {
            bad := true;
          }
        }
      }
      if LooksOf(os, before) {
        PollingLooks(os, i, states[i], firstPass, before, got, bad, unsettled);
      }
    }

    /** One pass of the wait condition, after the looks `before`. */
    method PollOnce(os: seq<Object>, states: seq<State>, firstPass: bool, ghost looks0: seq<Look>,
                    ghost before: seq<Look>)
      returns (notReady: nat, failed: nat, states': seq<State>, ghost got: seq<Look>)
      requires engine.Valid() && |states| == |os| && engine.looks == looks0 + before
      requires if firstPass then before == [] else Polled(os, states, before, |os|)
      requires !BadIn(before) && LooksOf(os, before) && (DistinctIds(os) ==> AskedOnce(before))
      modifies engine`store, engine`next, engine`looks
      ensures engine.Valid() && Estate() == old(Estate()) && engine.looks == looks0 + got
      ensures old(ReadyNow(os)) && engine.reliable ==> ReadyNow(os) && failed == notReady == 0
      ensures engine.reliable ==> StillReady(old(engine.store))
      ensures |states'| == |os| && (failed > 0 <==> BadIn(got)) && LooksOf(os, got)
      ensures DistinctIds(os) ==> AskedOnce(got)
      ensures failed == 0 ==> Polled(os, states', got, |os|)
      ensures failed == 0 ==> (notReady == 0 <==> FineBelow(states', |os|))
      ensures notReady > 0 ==> UnsettledIn(got)
    {
      notReady, failed, states', got := 0, 0, states, before;
      for i := 0 to |os|
        invariant engine.Valid() && Estate() == old(Estate()) && engine.looks == looks0 + got
        invariant old(ReadyNow(os)) && engine.reliable ==> ReadyNow(os) && failed == notReady == 0
        invariant engine.reliable ==> StillReady(old(engine.store))
        invariant |states'| == |os| && (failed > 0 <==> BadIn(got)) && LooksOf(os, got)
        invariant failed == 0 || !firstPass ==> Polled(os, states', got, if firstPass then i else |os|)
        invariant DistinctIds(os) ==> AskedOnce(got) && (firstPass ==> LookedUpTo(os, got, i))
        invariant failed == 0 ==> (notReady == 0 <==> FineBelow(states', i))
        invariant notReady > 0 ==> UnsettledIn(got)
      {
        ghost var was, heard := states', got;
        var bad, unsettled;
        bad, unsettled, states', got := PollNext(os, i, states', firstPass, looks0, got);
        PollingBad(os[i].id, was[i], firstPass, heard, got, bad, unsettled);
        FineOneMore(was, i, Said(was[i], heard, got));
        if DistinctIds(os) {
          PollingAsksOnce(os, was, heard, got, i, firstPass, bad, unsettled);
        }
        if !firstPass || (failed == 0 && !bad) {
          PollingPolled(os, was, heard, got, i, firstPass, bad, unsettled);
        }
        if unsettled {
          notReady := notReady + 1;
        } else if bad {
          failed := failed + 1;
        }
      }
    }

    /**
      * Polls at most backoffSteps times, with growing pauses; the backoff may also
      * give up earlier, once a pause would exceed its cap.
      */
    method Poll(os: seq<Object>) returns (err: Option<Error>, polls: nat, ghost got: seq<Look>)
      requires engine.Valid()
      modifies engine`store, engine`next, engine`looks
      ensures engine.Valid() && Estate() == old(Estate()) && engine.looks == old(engine.looks) + got
      ensures engine.reliable ==> StillReady(old(engine.store))
      ensures polls == 0 || polls <= cfg.backoffSteps
      ensures Awaited(os, got, err, cfg.backoffSteps)
      ensures old(ReadyNow(os)) && engine.reliable && cfg.backoffSteps >= 1 ==> err.None?
    {
      var states := seq(|os|, i requires 0 <= i < |os| => os[i].state);
      ghost var looks0 := engine.looks;
      got := [];
      var firstPass := true;
      var steps := cfg.backoffSteps;
      polls := 0;
      while steps > 0
        invariant engine.Valid() && Estate() == old(Estate()) && engine.looks == looks0 + got
        invariant old(ReadyNow(os)) && engine.reliable ==> ReadyNow(os) && polls == 0
        invariant engine.reliable ==> StillReady(old(engine.store))
        invariant |states| == |os| && !BadIn(got) && LooksOf(os, got) && (polls > 0 ==> UnsettledIn(got))
        invariant if firstPass then got == [] else Polled(os, states, got, |os|)
        invariant DistinctIds(os) ==> AskedOnce(got)
        invariant polls + steps == cfg.backoffSteps && (polls > 0 ==> steps > 0)
        decreases steps
      {
        var notReady, failed;
        notReady, failed, states, got := PollOnce(os, states, firstPass, looks0, got);
        polls := polls + 1;
        firstPass := false;
        if failed > 0 {
          return Some(ResourceFailed), polls, got;
        } else if notReady == 0 {
          return None, polls, got;
        }
        var capped: bool := *;
        if steps == 1 || capped {
          break;
        }
        steps := steps - 1;
      }
      err := Some(WaitTimeout);
    }

    /** Waits for all of these to become ready; see Poll. */
    method WaitForResources(os: seq<Object>) returns (err: Option<Error>, polls: nat, ghost got: seq<Look>)
      requires engine.Valid()
      modifies engine`store, engine`next, engine`looks
      ensures engine.Valid() && Estate() == old(Estate()) && Topo() == old(Topo())
      ensures engine.looks == old(engine.looks) + got
      ensures polls == 0 || polls <= cfg.backoffSteps
      ensures Awaited(os, got, err, cfg.backoffSteps)
      ensures old(Healthy()) ==> Healthy() && (old(ReadyNow(os)) ==> err.None?)
    {
      err, polls, got := Poll(os);
    }

    /** If it exists, the object is ours. */
    ghost predicate Mine(o: Object)
      reads engine
    {
      o.id < engine.next && (o.id in engine.store ==> o.id in Estate())
    }

    ghost predicate Known(os: seq<Object>)
      reads engine
    {
      forall o | o in os :: Mine(o)
    }

    /** What was ready in `s0` and is still ours is still ready. */
    ghost predicate StillReady(s0: Store)
      reads engine
    {
      forall id | id in Estate() && ReadyIn(s0, id) :: ReadyIn(engine.store, id)
    }

    /** One Destroy, and the gauge after handleDestroyError has looked at its answer. */
    method DestroyOne(o: Object) returns (answer: Destruction, ghost call: Call)
      requires engine.Valid() && Mine(o)
      modifies this`pendingDestroy
      modifies engine`store, engine`next, engine`log
      ensures engine.Valid() && forall x | old(Mine(x)) :: Mine(x)
      ensures engine.log == old(engine.log) + [call]
      ensures call.op == Op.Destroy(o.id, answer) && call.caller == cfg.lb && Polite(call)
      ensures Estate() == old(Estate()) || Estate() == old(Estate()) - {o.id}
      ensures engine.reliable ==> answer == Answer(old(Estate()), o.id)
      ensures engine.reliable ==> Estate() == if answer.Gone? then old(Estate()) - {o.id} else old(Estate())
      ensures engine.reliable ==> ReadyKept(old(engine.store), engine.store, cfg.lb)
      ensures pendingDestroy == old(pendingDestroy) - if answer.RateLimited? then 0 else 1
    {
      answer := engine.Destroy(o.id, cfg.lb);
      ghost var c :| engine.log == old(engine.log) + [c] && c.op == Op.Destroy(o.id, answer) && c.caller == cfg.lb
        && Polite(c);
      call := c;
      if !answer.RateLimited? {
        pendingDestroy := pendingDestroy - 1;
      }
    }

    /** The first objects of `todo` have been tried, in an estate and a store that were `e0` and `s0`. */
    ghost predicate Reduced(e0: Resources.Estate, s0: Store, todo: seq<Object>, tried: nat, kept: seq<Object>)
      requires tried <= |todo|
      reads engine
    {
      && OnlyLost(e0, Estate(), Ids(todo))
      && (engine.reliable ==>
           StillReady(s0) && Sweep(Holdings(e0), Ids(todo[..tried])) == Rest(Holdings(Estate()), Ids(kept)))
    }

    /** One round of a pass. */
    method DestroyNext(todo: seq<Object>, kept: seq<Object>, ghost done: seq<Call>, ghost e0: Resources.Estate,
                       ghost s0: Store, i: nat)
      returns (kept': seq<Object>, limited: bool, ghost call: Call)
      requires engine.Valid() && Known(todo) && i == |done| < |todo|
      requires Attempted(done, cfg.lb, todo, kept) && Reduced(e0, s0, todo, i, kept)
      modifies this`pendingDestroy
      modifies engine`store, engine`next, engine`log
      ensures engine.Valid() && Known(todo) && engine.log == old(engine.log) + [call]
      ensures Destroys(done + [call], cfg.lb, todo) && call.op.Destroy? && limited == call.op.answer.RateLimited?
      ensures engine.reliable ==> !limited
      ensures !limited ==> Attempted(done + [call], cfg.lb, todo, kept') && Reduced(e0, s0, todo, i + 1, kept')
      ensures limited ==> OnlyLost(e0, Estate(), Ids(todo))
      ensures pendingDestroy == old(pendingDestroy) - if limited then 0 else 1
    {
      ghost var e := Estate();
      var answer;
      answer, call := DestroyOne(todo[i]);
      AttemptedOneMore(done, cfg.lb, todo, kept, call);
      OnlyLostOneMore(e0, e, Estate(), todo, i);
      IdsStep(todo, i);
      IdsAppend(kept, todo[i]);
      if engine.reliable {
        SweepOneMore(Holdings(e0), Ids(todo[..i]), todo[i].id, e, Estate());
      }
      kept', limited := if answer.Refused? || answer.RateLimited? then kept + [todo[i]] else kept, answer.RateLimited?;
    }

    lemma NothingTried(todo: seq<Object>)
      ensures Attempted([], cfg.lb, todo, []) && Attempts([]) == 0
      ensures Reduced(Estate(), engine.store, todo, 0, [])
    {
    }

    lemma AllTried(todo: seq<Object>, kept: seq<Object>, calls: seq<Call>, e0: Resources.Estate, s0: Store)
      requires Attempted(calls, cfg.lb, todo, kept) && Reduced(e0, s0, todo, |todo|, kept)
      ensures Destroys(calls, cfg.lb, todo) && OnlyLost(e0, Estate(), Ids(todo))
    {
    }

    /** One pass of the retry loop over `todo`; a rate limit ends it at once. */
    method DestroyPass(todo: seq<Object>)
      returns (kept: seq<Object>, allowRetry: bool, limited: bool, ghost calls: seq<Call>)
      requires engine.Valid() && Known(todo)
      modifies this`pendingDestroy
      modifies engine`store, engine`next, engine`log
      ensures engine.Valid() && Known(todo) && OnlyLost(old(Estate()), Estate(), Ids(todo))
      ensures engine.log == old(engine.log) + calls && Destroys(calls, cfg.lb, todo)
      ensures !limited ==> |calls| == |todo| && Attempted(calls, cfg.lb, todo, kept)
      ensures !limited ==> Reduced(old(Estate()), old(engine.store), todo, |todo|, kept)
      ensures limited ==> Limited(calls)
      ensures pendingDestroy == old(pendingDestroy) - Attempts(calls)
      ensures !limited ==> pendingDestroy == old(pendingDestroy) - |todo|
      ensures allowRetry <==> (if limited then |calls| > 1 else todo != [])
      ensures engine.reliable ==> !limited
    {
      hide Attempted, Destroys, Recon.Reduced, Recon.Known, OnlyLost, Attempts, EstateOf, Sound;
      kept, allowRetry, limited, calls := [], false, false, [];
      ghost var e0, s0 := Estate(), engine.store;
      NothingTried(todo);
      NothingMore(engine.log);
      var i := 0;
      while i < |todo|
        invariant 0 <= i <= |todo| && |calls| == i && !limited && (allowRetry <==> i > 0)
        invariant engine.Valid() && Known(todo) && engine.log == old(engine.log) + calls
        invariant Attempted(calls, cfg.lb, todo, kept) && Reduced(e0, s0, todo, i, kept)
        invariant pendingDestroy == old(pendingDestroy) - i
      {
        ghost var call;
        kept, limited, call := DestroyNext(todo, kept, calls, e0, s0, i);
        OneMoreJoins(old(engine.log), calls, call);
        calls := calls + [call];
        if limited {
          DestroysAttempts(calls, cfg.lb, todo);
          return;
        }
        allowRetry := true;
        i := i + 1;
      }
      AllTried(todo, kept, calls, e0, s0);
      AttemptedAll(calls, cfg.lb, todo, kept);
    }

    /** What `passes` passes over `all` have left to do, in an estate and a store that were `e0` and `s0`. */
    ghost predicate Shrunk(e0: Resources.Estate, s0: Store, all: seq<Object>, passes: nat, todo: seq<Object>)
      reads engine
    {
      && OnlyLost(e0, Estate(), Ids(all)) && Known(todo) && (forall o | o in todo :: o in all)
      && (engine.reliable ==>
           StillReady(s0) && Rest(Holdings(Estate()), Ids(todo)) == Passes(Holdings(e0), Ids(all), passes))
    }

    /** One more pass, after the calls `done`. */
    method DestroyAgain(all: seq<Object>, todo: seq<Object>, ghost done: seq<Call>, ghost log0: seq<Call>,
                        ghost e0: Resources.Estate, ghost s0: Store, ghost passes: nat)
      returns (kept: seq<Object>, allowRetry: bool, limited: bool, ghost calls: seq<Call>, ghost pass: seq<Call>)
      requires engine.Valid() && todo != [] && engine.log == log0 + done
      requires Shrunk(e0, s0, all, passes, todo) && Demolished(done, cfg.lb, all, todo)
      modifies this`pendingDestroy
      modifies engine`store, engine`next, engine`log
      ensures engine.Valid() && engine.log == log0 + calls && OnlyLost(e0, Estate(), Ids(all))
      ensures limited ==> Own(calls, cfg.lb) && DestroysOf(calls, Ids(all))
      ensures LastPass(calls, pass) && limited == Limited(pass) && (limited ==> (allowRetry <==> |pass| > 1))
      ensures !limited ==> Shrunk(e0, s0, all, passes + 1, kept) && Demolished(calls, cfg.lb, all, kept)
      ensures pendingDestroy + Attempts(calls) == old(pendingDestroy) + Attempts(done)
      ensures !limited ==> allowRetry
      ensures engine.reliable ==> !limited
    {
      hide Destroys, Demolished, Own, DestroysOf, LastPass;
      ghost var e := Estate();
      kept, allowRetry, limited, pass := DestroyPass(todo);
      assert todo[..|todo|] == todo;
      OnlyLostSome(e0, e, Estate(), todo, all);
      calls := done + pass;
      assert log0 + done + pass == log0 + calls;
      PassJoins(done, cfg.lb, all, todo, pass, kept, limited);
      LastPassJoins(done, pass);
    }

    /**
      * The retry loop around the passes, watched for at most `fuel` of them; the
      * loop itself knows no such limit. A rate limit leaves the list of the pass as
      * it was.
      */
    method DestroyPhase(toDestroy: seq<Object>, fuel: nat)
      returns (todo: seq<Object>, allowRetry: bool, exhausted: bool, ghost calls: seq<Call>, ghost final: seq<Call>)
      requires engine.Valid() && Known(toDestroy)
      modifies this`pendingDestroy
      modifies engine`store, engine`next, engine`log
      ensures engine.Valid() && OnlyLost(old(Estate()), Estate(), Ids(toDestroy))
      ensures engine.log == old(engine.log) + calls && Own(calls, cfg.lb) && DestroysOf(calls, Ids(toDestroy))
      ensures pendingDestroy == old(pendingDestroy) + |toDestroy| - Attempts(calls)
      ensures todo == [] ==> !exhausted && Attempts(calls) == |toDestroy| + Failures(calls)
      ensures todo == [] ==> Cleared(calls, toDestroy, [])
      ensures LastPass(calls, final) && (Limited(final) <==> todo != [] && !exhausted)
      ensures Limited(final) ==> (allowRetry <==> |final| > 1)
      ensures engine.reliable ==> StillReady(old(engine.store))
      ensures engine.reliable && !exhausted && toDestroy != [] ==> todo == []
      ensures (engine.reliable && NoDup(Ids(toDestroy)) && fuel >= 3
               && Enclosed(old(Holdings(Estate())), Ids(toDestroy))) ==> !exhausted
      ensures engine.reliable && NoDup(Ids(toDestroy)) && todo == [] ==>
                Holdings(Estate()) == old(Holdings(Estate())) - (set id | id in Ids(toDestroy))
    {
      ghost var passes;
      todo, allowRetry, exhausted, calls, final, passes := DestroyAll(toDestroy, fuel);
      if engine.reliable && NoDup(Ids(toDestroy)) {
        ghost var h := old(Holdings(Estate()));
        if todo == [] {
          EmptyMeansGone(h, Ids(toDestroy), passes);
        } else if Enclosed(h, Ids(toDestroy)) && passes >= 3 {
          EstateLayered(old(engine.store), cfg.lb);
          EmptyAfterThree(h, Ids(toDestroy), passes);
        }
      }
    }

    method DestroyAll(toDestroy: seq<Object>, fuel: nat)
      returns (todo: seq<Object>, allowRetry: bool, exhausted: bool, ghost calls: seq<Call>, ghost final: seq<Call>,
               ghost passes: nat)
      requires engine.Valid() && Known(toDestroy)
      modifies this`pendingDestroy
      modifies engine`store, engine`next, engine`log
      ensures engine.Valid() && engine.log == old(engine.log) + calls
              && OnlyLost(old(Estate()), Estate(), Ids(toDestroy))
      ensures Own(calls, cfg.lb) && DestroysOf(calls, Ids(toDestroy))
      ensures pendingDestroy == old(pendingDestroy) + |toDestroy| - Attempts(calls)
      ensures todo == [] ==> !exhausted && Attempts(calls) == |toDestroy| + Failures(calls)
      ensures todo == [] ==> Cleared(calls, toDestroy, [])
      ensures LastPass(calls, final) && (Limited(final) <==> todo != [] && !exhausted)
      ensures Limited(final) ==> (allowRetry <==> |final| > 1)
      ensures exhausted ==> passes == fuel && todo != []
      ensures engine.reliable ==> Shrunk(old(Estate()), old(engine.store), toDestroy, passes, todo)
      ensures engine.reliable && !exhausted ==> todo == []
    {
      pendingDestroy := pendingDestroy + |toDestroy|;
      todo, allowRetry, exhausted, calls, final, passes := toDestroy, true, false, [], [], 0;
      ghost var e0, s0, log0, start := Estate(), engine.store, engine.log, pendingDestroy;
      assert Shrunk(e0, s0, toDestroy, 0, todo) && Demolished(calls, cfg.lb, toDestroy, todo);
      assert LastPass(calls, final) && !Limited(final);
      hide LastPass, Limited;
      var left := fuel;
      while |todo| > 0 && allowRetry
        invariant passes + left == fuel && (todo != [] ==> allowRetry)
        invariant LastPass(calls, final) && !Limited(final)
        invariant engine.Valid() && engine.log == log0 + calls
        invariant Shrunk(e0, s0, toDestroy, passes, todo) && Demolished(calls, cfg.lb, toDestroy, todo)
        invariant pendingDestroy + Attempts(calls) == start
        decreases left
      {
        if left == 0 {
          exhausted := true;
          break;
        }
        var kept, limited;
        kept, allowRetry, limited, calls, final := DestroyAgain(toDestroy, todo, calls, log0, e0, s0, passes);
        if limited {
          return;
        }
        todo, passes, left := kept, passes + 1, left - 1;
      }
    }

    /** Create one object and tag it. */
    method CreateOne(spec: Spec) returns (o: Option<Object>, err: Option<Error>, ghost calls: seq<Call>)
      requires engine.Valid() && Fits(Estate(), cfg.lb, spec)
      modifies engine`store, engine`next, engine`log
      ensures engine.Valid() && engine.log == old(engine.log) + calls && Pair(calls, spec, o, err, cfg.lb, cfg.tag)
      ensures err == if o.Some? then None else if |calls| == 1 then Some(CreateFailed) else Some(TagFailed)
      ensures engine.reliable ==> err.None? && StillReady(old(engine.store))
      ensures o.Some? ==>
                && o.value.id !in old(Estate()) && o.value.id in Estate()
                && Estate() == WithTag(old(Estate())[o.value.id := Asset(spec, {})], o.value.id, cfg.tag)
                && (engine.reliable ==> ReadyIn(engine.store, o.value.id))
    {
      hide Polite, NoReuse, Carried, Pair;
      o := engine.Create(spec, cfg.lb);
      ghost var c :| engine.log == old(engine.log) + [c] && c.op == Op.Create(spec, IdOf(o)) && c.caller == cfg.lb
        && c.ok == o.Some? && Polite(c);
      calls := [c];
      if o.None? {
        PairNotCreated(c, spec, cfg.lb, cfg.tag);
        return None, Some(CreateFailed), calls;
      }
      ghost var log := engine.log;
      var ok := engine.AddTag(o.value.id, cfg.tag, cfg.lb);
      ghost var c' :| engine.log == log + [c'] && c'.op == Op.AddTag(o.value.id, cfg.tag) && c'.caller == cfg.lb
        && c'.ok == ok && Polite(c');
      PairCreated(c, c', spec, o.value, cfg.lb, cfg.tag);
      calls := [c, c'];
      assert engine.log == old(engine.log) + calls;
      if ok {
        err := None;
      } else {
        o, err := None, Some(TagFailed);
      }
    }

    /** The objects created so far, from an estate and a store as they were at the start. */
    ghost predicate Grew(e0: Resources.Estate, s0: Store, created: seq<Object>)
      reads engine
    {
      && Extended(e0, Estate(), created, cfg.tag)
      && (engine.reliable ==> StillReady(s0) && ReadyNow(created))
    }

    /** One round of the creating loop, after the calls `done`. */
    method CreateNext(specs: seq<Spec>, created: seq<Object>, ghost done: seq<Call>, ghost log0: seq<Call>,
                      ghost e0: Resources.Estate, ghost s0: Store)
      returns (created': seq<Object>, err: Option<Error>, ghost calls: seq<Call>)
      requires engine.Valid() && |created| < |specs| && AllFit(e0, cfg.lb, specs) && engine.log == log0 + done
      requires Grew(e0, s0, created) && Made(done, specs, created, None, cfg.lb, cfg.tag)
      modifies this`pendingCreate
      modifies engine`store, engine`next, engine`log
      ensures engine.Valid() && engine.log == log0 + calls
      ensures pendingCreate == old(pendingCreate) - 1
      ensures engine.reliable ==> err.None?
      ensures err.Some? ==> err.value == CreateFailed || err.value == TagFailed
      ensures Made(calls, specs, created', err, cfg.lb, cfg.tag)
      ensures |created'| == |created| + if err.None? then 1 else 0
      ensures err.None? ==> Grew(e0, s0, created')
    {
      hide Made, Extended, Fits, Sound, Polite, SpecsOf;
      var i := |created|;
      ghost var e := Estate();
      StillFits(e0, e, created, cfg.tag, cfg.lb, specs[i]);
      var o;
      o, err, calls := CreateOne(specs[i]);
      pendingCreate := pendingCreate - 1;
      MadeOneMore(done, specs, created, cfg.lb, cfg.tag, calls, o, err);
      assert log0 + (done + calls) == log0 + done + calls;
      calls := done + calls;
      created' := created;
      if o.Some? {
        created' := created + [o.value];
        ExtendedOneMore(e0, e, Estate(), created, cfg.tag, o.value);
      }
    }

    /** The creating loop, with its gauge. */
    method CreatePhase(toCreate: seq<Spec>) returns (created: seq<Object>, err: Option<Error>, ghost calls: seq<Call>)
      requires engine.Valid() && AllFit(Estate(), cfg.lb, toCreate)
      modifies this`pendingCreate
      modifies engine`store, engine`next, engine`log
      ensures engine.Valid() && engine.log == old(engine.log) + calls
      ensures Made(calls, toCreate, created, err, cfg.lb, cfg.tag)
      ensures err.None? ==> |created| == |toCreate| && Grew(old(Estate()), old(engine.store), created)
      ensures err.Some? ==> err.value == CreateFailed || err.value == TagFailed
      ensures pendingCreate == old(pendingCreate) + |toCreate| - (if err.None? then |created| else |created| + 1)
      ensures engine.reliable ==> err.None?
    {
      pendingCreate := pendingCreate + |toCreate|;
      created, err, calls := [], None, [];
      ghost var e0, s0, start := Estate(), engine.store, pendingCreate;
      assert Made(calls, toCreate, created, None, cfg.lb, cfg.tag) && Grew(e0, s0, created);
      var i := 0;
      while i < |toCreate|
        invariant 0 <= i <= |toCreate| && err.None? && |created| == i
        invariant engine.Valid() && engine.log == old(engine.log) + calls
        invariant Made(calls, toCreate, created, None, cfg.lb, cfg.tag) && Grew(e0, s0, created)
        invariant pendingCreate + i == start
      {
        created, err, calls := CreateNext(toCreate, created, calls, old(engine.log), e0, s0);
        if err.Some? {
          return;
        }
        i := i + 1;
      }
    }

    /**
      * The hypotheses of convergence: the Engine does as it is told, and everything
      * of ours in it is ready and in order.
      */
    ghost predicate Healthy()
      reads engine
    {
      && engine.reliable && cfg.backoffSteps >= 1
      && AllReady(engine.store, Topo()) && Sane(Estate(), cfg.tag)
    }

    /** The objects are those of `t` that are not wanted. */
    ghost predicate Condemns(t: Topology, l: Links, toDestroy: seq<Object>) {
      NoDup(Ids(toDestroy)) && Doomed(cfg, t, l, Ids(toDestroy))
    }

    ghost predicate Demands(t: Topology, l: Links, toCreate: seq<Spec>) {
      && LinksFor(cfg, t, l) && ParentsOnce(toCreate)
      && forall spec :: spec in toCreate <==> Missing(cfg, t, l, spec)
    }

    lemma CondemnedKnown(t: Topology, l: Links, toDestroy: seq<Object>)
      requires engine.Valid() && t == Topo() && Condemns(t, l, toDestroy)
      ensures Known(toDestroy)
    {
      forall o | o in toDestroy ensures Mine(o) {
        var i :| 0 <= i < |toDestroy| && toDestroy[i] == o;
        assert Ids(toDestroy)[i] == o.id;
        assert o.id in Ids(toDestroy) && o.id in t;
      }
    }

    /** What a healthy round has done for convergence. */
    ghost predicate Advanced(r: Round)
      reads engine
    {
      Healthy() && Advances(cfg, r, Topo())
    }

    /** Sanity and uniqueness outlive a round that does not end the run. */
    ghost predicate KeptSane(e: Resources.Estate, r: Round)
      reads engine
    {
      && (Sane(e, cfg.tag) ==> Sane(Estate(), cfg.tag))
      && (Sane(e, cfg.tag) && Unique(TopologyOf(e, cfg.tag)) && NoDup(r.toCreate) ==> Unique(Topo()))
    }

    /** The destroying half of a round. */
    method DestroyRound(toDestroy: seq<Object>, fuel: nat, ghost l: Links)
      returns (verdict: Option<Verdict>, ghost calls: seq<Call>, ghost final: seq<Call>)
      requires engine.Valid() && toDestroy != [] && Condemns(Topo(), l, toDestroy)
      modifies this`pendingDestroy
      modifies engine`store, engine`next, engine`log
      ensures engine.Valid() && engine.log == old(engine.log) + calls
      ensures Own(calls, cfg.lb) && DestroysOf(calls, Ids(toDestroy))
      ensures verdict.None? || verdict.value == Aborted(NotDestroyable) || verdict.value == Running
      ensures LastPass(calls, final) && (verdict == Some(Aborted(NotDestroyable)) <==> Limited(final) && |final| == 1)
      ensures verdict.None? && !Limited(final) ==> Attempts(calls) == |toDestroy| + Failures(calls)
      ensures verdict.None? && !Limited(final) ==> Cleared(calls, toDestroy, [])
      ensures pendingDestroy == old(pendingDestroy) + |toDestroy| - Attempts(calls)
      ensures OnlyLost(old(Estate()), Estate(), Ids(toDestroy))
      ensures old(Healthy()) && fuel >= 3 ==> verdict.None? && Healthy() && Swept(cfg, old(Topo()), l, Topo())
    {
      ghost var e, t, s := Estate(), Topo(), engine.store;
      CondemnedKnown(t, l, toDestroy);
      if Healthy() {
        DoomedEnclosed(cfg, e, l, Ids(toDestroy));
      }
      var todo, allowRetry, exhausted;
      todo, allowRetry, exhausted, calls, final := DestroyPhase(toDestroy, fuel);
      if old(Healthy()) && fuel >= 3 {
        LostAll(e, Estate(), Ids(toDestroy));
        DoomedSwept(cfg, e, Estate(), l, Ids(toDestroy));
      }
      if exhausted {
        verdict := Some(Running);
      } else if |todo| > 0 && !allowRetry {
        verdict := Some(Aborted(NotDestroyable));
      } else {
        verdict := None;
      }
    }

    lemma CheckCondemns(r: Round)
      requires Checked(cfg, r) && r.check.None?
      ensures Condemns(r.topology, r.links, r.toDestroy)
    {
    }

    lemma CheckDemands(r: Round)
      requires Checked(cfg, r) && r.check.None?
      ensures Demands(r.topology, r.links, r.toCreate)
    {
    }

    method ActDestroy(ghost r0: Round, toDestroy: seq<Object>, fuel: nat)
      returns (verdict: Option<Verdict>, ghost r: Round)
      requires engine.Valid() && r0.check.None? && Checked(cfg, r0) && r0.topology == Topo()
      requires toDestroy == r0.toDestroy != [] && NoDup(Ids(toDestroy))
      modifies this`pendingDestroy
      modifies engine`store, engine`next, engine`log
      ensures engine.Valid() && engine.log == old(engine.log) + r.calls
      ensures Faithful(cfg, r) && Performs(r0, r) && r.verdict == verdict && r.waits == []
      ensures Creations(r.calls) == 0 && pendingDestroy == old(pendingDestroy) + |toDestroy| - Attempts(r.calls)
      ensures verdict != Some(Completed) && verdict != Some(Unchecked)
      ensures old(Healthy()) && fuel >= 3 ==> Advanced(r)
      ensures verdict.None? ==> KeptSane(old(Estate()), r)
    {
      hide Checked, Faithful, Recon.Condemns, Doomed;
      CheckCondemns(r0);
      ghost var e, calls, final := Estate(), [], [];
      verdict, calls, final := DestroyRound(toDestroy, fuel, r0.links);
      LostSane(e, Estate(), Ids(toDestroy), cfg.tag);
      r := DismantledRound(r0, calls, final, verdict);
    }

    /** The round that has destroyed. */
    lemma DismantledRound(r0: Round, calls: seq<Call>, final: seq<Call>, verdict: Option<Verdict>) returns (r: Round)
      requires r0.check.None? && Checked(cfg, r0) && r0.toDestroy != []
      requires Own(calls, cfg.lb) && DestroysOf(calls, Ids(r0.toDestroy)) && LastPass(calls, final)
      requires verdict.None? || verdict.value == Aborted(NotDestroyable) || verdict.value == Running
      requires verdict == Some(Aborted(NotDestroyable)) <==> Limited(final) && |final| == 1
      requires verdict.None? && !Limited(final) ==> Attempts(calls) == |r0.toDestroy| + Failures(calls)
      requires verdict.None? && !Limited(final) ==> Cleared(calls, r0.toDestroy, [])
      ensures Faithful(cfg, r) && Performs(r0, r) && r.verdict == verdict && r.calls == calls && r.waits == []
      ensures Creations(calls) == 0 && !Clear(cfg, r.topology, r.links)
    {
      hide Checked, Clear, Own, LastPass;
      CountsOfOthers(calls);
      SomeDoomed(cfg, r0);
      r := r0.(calls := calls, pass := final, waits := [], verdict := verdict);
      StaysChecked(cfg, r0, r);
      assert Dismantled(cfg, r);
    }

    /** What was ready is ready still, and what is new is ready. */
    lemma GrownReady(e: Resources.Estate, s0: Store, created: seq<Object>)
      requires Grew(e, s0, created) && engine.reliable && AllReady(s0, TopologyOf(e, cfg.tag))
      requires forall id | id in Topo() :: id in TopologyOf(e, cfg.tag) || exists o :: o in created && o.id == id
      ensures AllReady(engine.store, Topo())
    {
      forall id | id in Topo() ensures ReadyIn(engine.store, id) {
        if id in TopologyOf(e, cfg.tag) {
          assert ReadyIn(s0, id);
        }
      }
    }

    /** Create what is missing. */
    method Raise(toCreate: seq<Spec>, ghost l: Links)
      returns (created: seq<Object>, err: Option<Error>, ghost calls: seq<Call>)
      requires engine.Valid() && Demands(Topo(), l, toCreate)
      modifies this`pendingCreate
      modifies engine`store, engine`next, engine`log
      ensures engine.Valid() && engine.log == old(engine.log) + calls
      ensures err.None? || err.value == CreateFailed || err.value == TagFailed
      ensures Made(calls, toCreate, created, err, cfg.lb, cfg.tag)
      ensures err.None? ==> |created| == |toCreate| && Grew(old(Estate()), old(engine.store), created)
      ensures pendingCreate == old(pendingCreate) + |toCreate| - (if err.None? then |created| else |created| + 1)
      ensures old(Healthy()) ==> err.None? && Healthy() && ReadyNow(created)
      ensures err.None? && Sane(old(Estate()), cfg.tag) ==>
              Sane(Estate(), cfg.tag) && Grown(cfg, old(Topo()), l, Topo())
      ensures err.None? && Sane(old(Estate()), cfg.tag) && NoDup(toCreate) && Unique(old(Topo())) ==> Unique(Topo())
    {
      ghost var e, s0 := Estate(), engine.store;
      AllMissingFit(cfg, e, l, toCreate);
      created, err, calls := CreatePhase(toCreate);
      if err.None? && Sane(e, cfg.tag) {
        hide Sane, Grown, Unique, UniqueParents, NoStrays, AllReady, Working, Rooted;
        SoundRooted(s0, cfg.lb);
        MissingGrown(cfg, e, Estate(), l, toCreate, created);
        if engine.reliable && AllReady(s0, TopologyOf(e, cfg.tag)) {
          GrownReady(e, s0, created);
        }
      }
    }

    /** Waits for what was created; an object that turns out failed is left to the next check. */
    method AwaitCreated(created: seq<Object>, err: Option<Error>)
      returns (verdict: Option<Verdict>, ghost waits: seq<Look>, ghost waited: Option<Error>)
      requires engine.Valid()
      modifies engine`store, engine`next, engine`looks
      ensures engine.Valid() && Estate() == old(Estate()) && engine.looks == old(engine.looks) + waits
      ensures err.Some? ==> verdict == Some(Aborted(err.value)) && waits == []
      ensures err.None? ==> Awaited(created, waits, waited, cfg.backoffSteps)
      ensures err.None? ==> verdict == if waited == Some(WaitTimeout) then Some(Aborted(WaitTimeout)) else None
      ensures old(Healthy()) ==> Healthy() && (err.None? && old(ReadyNow(created)) ==> verdict.None?)
    {
      if err.Some? {
        return Some(Aborted(err.value)), [], None;
      }
      var waitErr, polls;
      waitErr, polls, waits := WaitForResources(created);
      if waitErr.Some? && waitErr.value != ResourceFailed {
        return Some(Aborted(waitErr.value)), waits, waitErr;
      }
      verdict, waited := None, waitErr;
    }

    /** The creating half of a round. */
    method CreateRound(toCreate: seq<Spec>, ghost l: Links)
      returns (verdict: Option<Verdict>, created: seq<Object>, ghost calls: seq<Call>, ghost waits: seq<Look>,
               ghost waited: Option<Error>)
      requires engine.Valid() && Demands(Topo(), l, toCreate)
      modifies this`pendingCreate
      modifies engine`store, engine`next, engine`looks, engine`log
      ensures engine.Valid() && engine.log == old(engine.log) + calls && engine.looks == old(engine.looks) + waits
      ensures verdict.None? || verdict == Some(Aborted(WaitTimeout)) || CreationFailed(verdict)
      ensures Made(calls, toCreate, created, CreationError(verdict), cfg.lb, cfg.tag)
      ensures !CreationFailed(verdict) ==>
              |created| == |toCreate| && Extended(old(Estate()), Estate(), created, cfg.tag)
      ensures if CreationFailed(verdict) then waits == []
              else Awaited(created, waits, waited, cfg.backoffSteps)
                   && verdict == if waited == Some(WaitTimeout) then Some(Aborted(WaitTimeout)) else None
      ensures pendingCreate == old(pendingCreate) + |toCreate| - Creations(calls)
      ensures old(Healthy()) ==> verdict.None? && Healthy()
      ensures verdict.None? && Sane(old(Estate()), cfg.tag) ==>
              Sane(Estate(), cfg.tag) && Grown(cfg, old(Topo()), l, Topo())
      ensures verdict.None? && Sane(old(Estate()), cfg.tag) && NoDup(toCreate) && Unique(old(Topo())) ==> Unique(Topo())
    {
      hide Sane, Unique, Grown, Own, AllCreates, CreatedAndTagged, SpecsOf, Awaited, Missing, LinksFor;
      var err;
      created, err, calls := Raise(toCreate, l);
      assert Creations(calls) == if err.None? then |created| else |created| + 1;
      verdict, waits, waited := AwaitCreated(created, err);
    }

    /** The round that has created. */
    lemma BuiltRound(r0: Round, created: seq<Object>, calls: seq<Call>, waits: seq<Look>, waited: Option<Error>,
                     verdict: Option<Verdict>)
      returns (r: Round)
      requires r0.check.None? && Checked(cfg, r0) && r0.toDestroy == [] && r0.toCreate != []
      requires verdict.None? || verdict == Some(Aborted(WaitTimeout)) || CreationFailed(verdict)
      requires Made(calls, r0.toCreate, created, CreationError(verdict), cfg.lb, cfg.tag)
      requires if CreationFailed(verdict) then waits == [] else
                 && |created| == |r0.toCreate| && Awaited(created, waits, waited, cfg.backoffSteps)
                 && verdict == if waited == Some(WaitTimeout) then Some(Aborted(WaitTimeout)) else None
      ensures Faithful(cfg, r) && Performs(r0, r) && r.verdict == verdict && r.calls == calls && r.waits == waits
      ensures Attempts(calls) == 0 && Clear(cfg, r.topology, r.links) && !Complete(cfg, r.topology, r.links)
    {
      CountsOfOthers(calls);
      SomeMissing(cfg, r0);
      hide Checked, Made, Awaited, Clear, Complete;
      r := r0.(created := created, calls := calls, waits := waits, waited := waited, verdict := verdict);
      StaysChecked(cfg, r0, r);
      assert Built(cfg, r);
    }

    method ActCreate(ghost r0: Round, toCreate: seq<Spec>) returns (verdict: Option<Verdict>, ghost r: Round)
      requires engine.Valid() && r0.check.None? && Checked(cfg, r0) && r0.topology == Topo()
      requires toCreate == r0.toCreate != [] && ParentsOnce(toCreate) && r0.toDestroy == []
      modifies this`pendingCreate
      modifies engine`store, engine`next, engine`looks, engine`log
      ensures engine.Valid() && engine.log == old(engine.log) + r.calls && engine.looks == old(engine.looks) + r.waits
      ensures Faithful(cfg, r) && Performs(r0, r) && r.verdict == verdict
      ensures Attempts(r.calls) == 0 && pendingCreate == old(pendingCreate) + |toCreate| - Creations(r.calls)
      ensures verdict != Some(Completed) && verdict != Some(Unchecked)
      ensures old(Healthy()) ==> Advanced(r)
      ensures verdict.None? ==> KeptSane(old(Estate()), r)
    {
      hide Checked, Faithful, Made, Awaited, Recon.Demands, Sane, Unique, Grown;
      CheckDemands(r0);
      var created;
      ghost var calls, waits, waited;
      verdict, created, calls, waits, waited := CreateRound(toCreate, r0.links);
      r := BuiltRound(r0, created, calls, waits, waited, verdict);
    }

    /** The round after its check has found no fault: destroy, else create, else be done. */
    method Act(ghost r0: Round, toCreate: seq<Spec>, toDestroy: seq<Object>, fuel: nat)
      returns (verdict: Option<Verdict>, ghost r: Round)
      requires engine.Valid() && r0.check.None? && Checked(cfg, r0) && r0.topology == Topo()
      requires toCreate == r0.toCreate && toDestroy == r0.toDestroy && ParentsOnce(toCreate) && NoDup(Ids(toDestroy))
      modifies this`pendingCreate, this`pendingDestroy
      modifies engine`store, engine`next, engine`looks, engine`log
      ensures engine.Valid() && engine.log == old(engine.log) + r.calls && engine.looks == old(engine.looks) + r.waits
      ensures Faithful(cfg, r) && Performs(r0, r) && r.verdict == verdict
      ensures pendingCreate == old(pendingCreate) + Wishes(r) - Creations(r.calls)
      ensures pendingDestroy == old(pendingDestroy) + |toDestroy| - Attempts(r.calls)
      ensures verdict == Some(Completed) ==> Estate() == old(Estate())
      ensures verdict != Some(Unchecked)
      ensures old(Healthy()) && fuel >= 3 ==> Advanced(r)
      ensures verdict.None? ==> KeptSane(old(Estate()), r)
    {
      hide Checked;
      if |toDestroy| > 0 {
        verdict, r := ActDestroy(r0, toDestroy, fuel);
        NothingMore(engine.looks);
      } else if |toCreate| > 0 {
        verdict, r := ActCreate(r0, toCreate);
      } else {
        verdict := Some(Completed);
        r := r0.(calls := [], waits := [], verdict := verdict);
        StaysChecked(cfg, r0, r);
        assert Finished(r);
        NothingMore(engine.looks);
      }
    }

    /** The round as its check leaves it. */
    ghost function RoundOf(list: Option<seq<Resource>>, got: seq<Look>, t: Topology, toCreate: seq<Spec>,
                           toDestroy: seq<Object>,
                           err: Option<Error>, calls: seq<Call>): (r: Round)
      reads this
    {
      var seen := if err == Some(RetrieveFailed) then [] else sorted;
      Round(list, got, seen, t, CurrentLinks(), err, toCreate, toDestroy, [],
            calls, [], [], None, None)
    }

    lemma CheckSurveyed(list: Option<seq<Resource>>, got: seq<Look>, t: Topology, toCreate: seq<Spec>,
                        toDestroy: seq<Object>,
                        err: Option<Error>, calls: seq<Call>)
      requires t == Topo() && Inspected(err, list, got, t)
      ensures Surveyed(RoundOf(list, got, t, toCreate, toDestroy, err, calls))
      ensures err != Some(RetrieveFailed) ==> Depicts(sorted, t) && ExitFor(sorted, err)
    {
      if err != Some(RetrieveFailed) {
        RetrievedDepicts(Lists(), t);
      }
    }

    lemma CheckPlanned(list: Option<seq<Resource>>, got: seq<Look>, t: Topology, toCreate: seq<Spec>,
                       toDestroy: seq<Object>)
      requires t == Topo() && Inspected(None, list, got, t) && Planned(t, toCreate, toDestroy)
      ensures Checked(cfg, RoundOf(list, got, t, toCreate, toDestroy, None, []))
      ensures NoDup(Ids(toDestroy)) && ParentsOnce(toCreate) && existingProgressing == []
    {
      CheckSurveyed(list, got, t, toCreate, toDestroy, None, []);
      DoomedIds(cfg, t, CurrentLinks(), sorted, toCreate, toDestroy);
    }

    lemma CheckFailed(list: Option<seq<Resource>>, got: seq<Look>, t: Topology, err: Error, calls: seq<Call>)
      requires t == Topo() && Inspected(Some(err), list, got, t)
      requires Recovering(Some(err), calls) && err != ResourcesProgressing
      ensures Faithful(cfg, RoundOf(list, got, t, [], [], Some(err), calls).(verdict := Some(Aborted(err))))
    {
      SelectIs(sorted, Failed);
      CheckSurveyed(list, got, t, [], [], Some(err), calls);
      assert Recovered(cfg, RoundOf(list, got, t, [], [], Some(err), calls).(verdict := Some(Aborted(err))));
    }

    lemma CheckProgressing(list: Option<seq<Resource>>, got: seq<Look>, t: Topology, waits: seq<Look>,
                           waited: Option<Error>)
      requires t == Topo() && Inspected(Some(ResourcesProgressing), list, got, t)
      requires Awaited(existingProgressing, waits, waited, cfg.backoffSteps)
      ensures var end := if waited.Some? then Aborted(waited.value) else Unchecked;
              Faithful(cfg, RoundOf(list, got, t, [], [], Some(ResourcesProgressing), [])
                              .(waits := waits, waited := waited, verdict := Some(end)))
    {
      var end := if waited.Some? then Aborted(waited.value) else Unchecked;
      CheckSurveyed(list, got, t, [], [], Some(ResourcesProgressing), []);
      assert Waited(cfg, RoundOf(list, got, t, [], [], Some(ResourcesProgressing), [])
                      .(waits := waits, waited := waited, verdict := Some(end)));
    }

    /** A round whose check failed ends the run, after a wait if the resources are only progressing. */
    method GiveUp(err: Error, ghost calls: seq<Call>, ghost list: Option<seq<Resource>>, ghost got: seq<Look>,
                  ghost t: Topology)
      returns (verdict: Verdict, ghost r: Round)
      requires engine.Valid() && t == Topo() && Recovering(Some(err), calls) && Inspected(Some(err), list, got, t)
      modifies engine`store, engine`next, engine`looks
      ensures engine.Valid() && Estate() == old(Estate()) && engine.looks == old(engine.looks) + r.waits
      ensures Faithful(cfg, r) && r.verdict == Some(verdict) && verdict != Completed
      ensures r.check == Some(err) && r.topology == t && r.calls == calls && r.toCreate == [] && r.toDestroy == []
      ensures r.got == got && r.listed == list
      ensures verdict == Unchecked ==> existingProgressing != []
      ensures Creations(calls) == 0 && Attempts(calls) == 0
      ensures old(Healthy()) ==> Healthy()
    {
      CountsOfOthers(calls);
      r := RoundOf(list, got, t, [], [], Some(err), calls);
      if err != ResourcesProgressing {
        verdict := Aborted(err);
        CheckFailed(list, got, t, err, calls);
        r := r.(verdict := Some(verdict));
      } else {
        var waitErr, polls;
        ghost var waits;
        waitErr, polls, waits := WaitForResources(existingProgressing);
        verdict := if waitErr.Some? then Aborted(waitErr.value) else Unchecked;
        CheckProgressing(list, got, t, waits, waitErr);
        r := r.(waits := waits, waited := waitErr, verdict := Some(verdict));
      }
    }

    /**
      * One pass through the loop of Reconcile. After a successful wait both lists are
      * empty and the loop ends: no second check is made.
      */
    method Iterate(fuel: nat) returns (verdict: Option<Verdict>, ghost r: Round)
      requires engine.Valid()
      modifies this`frontends, this`backends, this`binds, this`servers, this`sorted
      modifies this`existingUpdating, this`existingFailed, this`existingProgressing
      modifies this`portBackends, this`portFrontends
      modifies this`pendingCreate, this`pendingDestroy
      modifies engine`store, engine`next, engine`looks, engine`log
      ensures engine.Valid() && engine.log == old(engine.log) + r.calls
              && engine.looks == old(engine.looks) + r.got + r.waits
      ensures Faithful(cfg, r) && r.verdict == verdict && r.topology == old(Topo())
      ensures pendingCreate == old(pendingCreate) + Wishes(r) - Creations(r.calls)
      ensures pendingDestroy == old(pendingDestroy) + |r.toDestroy| - Attempts(r.calls)
      ensures verdict == Some(Completed) || verdict == Some(Unchecked) ==> Estate() == old(Estate())
      ensures verdict == Some(Completed) ==> existingProgressing == []
      ensures verdict == Some(Unchecked) ==> existingProgressing != []
      ensures engine.reliable ==> r.listed.Some? && Reached(r.got)
      ensures old(Healthy()) && fuel >= 3 ==> Advanced(r)
      ensures verdict.None? ==> KeptSane(old(Estate()), r)
      ensures DistinctInputs(cfg) ==> NoDup(r.toCreate)
    {
      hide Faithful, Checked, Recon.Inspected, Recon.Planned;
      ghost var t := Topo();
      var toCreate, toDestroy, err;
      ghost var calls, list, got;
      toCreate, toDestroy, err, calls, list, got := ReconcileCheck();
      if err.None? {
        assert engine.log == old(engine.log);
        CheckPlanned(list, got, t, toCreate, toDestroy);
        verdict, r := Act(RoundOf(list, got, t, toCreate, toDestroy, None, []), toCreate, toDestroy, fuel);
      } else {
        var end;
        end, r := GiveUp(err.value, calls, list, got, t);
        verdict := Some(end);
      }
    }

    /** What the run has left in the Engine's records and in the gauges. */
    ghost function Books(): (l: Ledger)
      reads this, engine
    {
      Ledger(engine.log, engine.looks, pendingCreate, pendingDestroy)
    }

    /** Sanity and uniqueness have outlived the run so far, which began with `e0`. */
    ghost predicate Steady(e0: Resources.Estate)
      reads engine
    {
      Sane(e0, cfg.tag) ==>
        && Sane(Estate(), cfg.tag)
        && (DistinctInputs(cfg) && Unique(TopologyOf(e0, cfg.tag)) ==> Unique(Topo()))
    }

    /**
      * How a run that began with `e0` may end. A nil follows a check that found nothing
      * to do exactly if that check left existingProgressing empty.
      */
    ghost predicate Ended(verdict: Verdict, rounds: seq<Round>, e0: Resources.Estate)
      reads this, engine
    {
      && (verdict == Completed || verdict == Unchecked ==>
            && rounds != [] && rounds[|rounds| - 1].topology == Topo()
            && (verdict == Completed <==> existingProgressing == []))
      && (verdict == Completed ==> Steady(e0) && (Exact(cfg, Topo()) <==> UniqueParents(Topo())))
    }

    /** One more round of a run that has not ended. */
    method Continue(fuel: nat, ghost before: seq<Round>, ghost l0: Ledger, ghost e0: Resources.Estate)
      returns (verdict: Option<Verdict>, ghost rounds: seq<Round>)
      requires engine.Valid() && Booked(before, l0, Books()) && Open(cfg, before) && Steady(e0)
      modifies this`frontends, this`backends, this`binds, this`servers, this`sorted
      modifies this`existingUpdating, this`existingFailed, this`existingProgressing
      modifies this`portBackends, this`portFrontends
      modifies this`pendingCreate, this`pendingDestroy
      modifies engine`store, engine`next, engine`looks, engine`log
      ensures engine.Valid() && Booked(rounds, l0, Books())
      ensures |rounds| == |before| + 1 && rounds[0].topology == if before == [] then old(Topo()) else before[0].topology
      ensures verdict.None? ==> Open(cfg, rounds) && Steady(e0)
      ensures verdict.Some? ==> Chronicle(cfg, rounds, verdict.value) && Ended(verdict.value, rounds, e0)
      ensures engine.reliable && AllReached(before) ==> AllReached(rounds)
      ensures old(Healthy() && OnCourse(cfg, before, Topo())) && fuel >= 3 ==>
                && Healthy()
                && if verdict.None? then OnCourse(cfg, rounds, Topo()) else Converges(cfg, rounds, verdict.value)
    {
      hide Faithful, Checked, Booked;
      ghost var l := Books();
      ghost var r;
      verdict, r := Iterate(fuel);
      rounds := before + [r];
      FirstRound(before, r);
      ReachedMore(before, r);
      BookedMore(before, r, l0, l, Books());
      OpenExtends(cfg, before, r);
      if verdict == Some(Completed) {
        CompletedIsExact(cfg, r);
      }
      if old(Healthy() && OnCourse(cfg, before, Topo())) && fuel >= 3 {
        CourseHeld(cfg, before, r, Topo());
      }
    }

    /**
      * Reconcile: rounds until one ends the run, watched for at most `fuel` rounds
      * and passes; the loop itself knows no such limit.
      */
    method Reconcile(fuel: nat) returns (verdict: Verdict, ghost rounds: seq<Round>)
      requires engine.Valid()
      modifies this`frontends, this`backends, this`binds, this`servers, this`sorted
      modifies this`existingUpdating, this`existingFailed, this`existingProgressing
      modifies this`portBackends, this`portFrontends
      modifies this`pendingCreate, this`pendingDestroy
      modifies engine`store, engine`next, engine`looks, engine`log
      ensures engine.Valid()
      ensures Booked(rounds, old(Books()), Books())
      ensures Chronicle(cfg, rounds, verdict) && |rounds| <= fuel
      ensures rounds != [] ==> rounds[0].topology == old(Topo())
      ensures Ended(verdict, rounds, old(Estate()))
      ensures verdict == Completed && Sane(old(Estate()), cfg.tag) ==> Exact(cfg, Topo())
      ensures engine.reliable ==> AllReached(rounds)
      ensures old(Healthy()) && fuel >= 5 ==> Converges(cfg, rounds, verdict) && Healthy()
    {
      rounds := [];
      ghost var e0, l0 := Estate(), Books();
      NothingBooked(l0);
      var left := fuel;
      while left > 0
        invariant |rounds| + left == fuel && engine.Valid() && Steady(e0)
        invariant Booked(rounds, l0, Books()) && Open(cfg, rounds)
        invariant if rounds == [] then Topo() == old(Topo()) else rounds[0].topology == old(Topo())
        invariant engine.reliable ==> AllReached(rounds)
        invariant old(Healthy()) && fuel >= 5 ==> Healthy() && OnCourse(cfg, rounds, Topo())
        decreases left
      {
        var end;
        end, rounds := Continue(fuel, rounds, l0, e0);
        left := left - 1;
        if end.Some? {
          return end.value, rounds;
        }
      }
      verdict := Running;
    }

    /** The loop of Status over the Binds. */
    method CollectPorts() returns (ret: Statuses.Status)
      requires forall o | o in binds :: o.spec.Bind?
      ensures ret == Statuses.Collect(binds)
    {
      ret := map[];
      for i := 0 to |binds|
        invariant ret == Statuses.Collect(binds[..i])
      {
        var bind := binds[i].spec;
        Statuses.CollectStep(binds, i);
        if bind.address !in ret {
          ret := ret[bind.address := []];
        }
        ret := ret[bind.address := ret[bind.address] + [bind.port % 0x1_0000]];
      }
      assert binds[..|binds|] == binds;
    }

    /** Status: what the Binds of the working set serve. */
    method Status() returns (ret: Option<Statuses.Status>, ghost list: Option<seq<Resource>>, ghost got: seq<Look>)
      requires engine.Valid()
      modifies this`frontends, this`backends, this`binds, this`servers, this`sorted
      modifies this`existingUpdating, this`existingFailed, this`existingProgressing
      modifies this`portBackends, this`portFrontends
      modifies engine`store, engine`next, engine`looks
      ensures engine.Valid() && Estate() == old(Estate()) && engine.looks == old(engine.looks) + got
      ensures LookedUp(list, got) && (ret.Some? <==> Succeeds(list, got))
      ensures engine.reliable ==> list.Some? && Reached(got)
      ensures ret.Some? ==>
                && Holds(Topo()) && (forall o | o in binds :: o.spec.Bind?)
                && ret.value == Statuses.Collect(binds)
      ensures ret.Some? && Exact(cfg, Topo()) ==>
                (Statuses.Reports(ret.value, Statuses.Texts(cfg.addresses), cfg.ports) <==>
                 (cfg.addresses == [] || Statuses.DistinctPorts(cfg.ports)) && Statuses.NoTwins(Topo()))
    {
      var ok;
      ok, list, got := RetrieveState();
      if !ok {
        return None, list, got;
      }
      Statuses.ShowsBinds(Topo(), binds);
      var m := CollectPorts();
      if Exact(cfg, Topo()) {
        Statuses.ExactStatus(cfg, Topo(), binds);
      }
      ret := Some(m);
    }
  }
}
