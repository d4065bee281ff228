/**
  * Bounded convergence and exactness: how the topology moves when an iteration
  * of Reconcile does what it set out to do, and what it looks like at the end.
  */
module Convergence {
  import opened Resources
  import opened Layout

  /** All that is to be destroyed is gone, and nothing else. */
  ghost predicate Swept(cfg: Config, t: Topology, l: Links, t': Topology) {
    && (forall id | id in t' :: id in t && t'[id] == t[id] && Wanted(cfg, l, t[id]))
    && (forall id | id in t && Wanted(cfg, l, t[id]) :: id in t')
  }

  /** All that is missing is there, under new identifiers; no Backend or Frontend twice. */
  ghost predicate Grown(cfg: Config, t: Topology, l: Links, t': Topology) {
    && (forall id | id in t :: id in t' && t'[id] == t[id])
    && (forall id | id in t' && id !in t :: Missing(cfg, t, l, t'[id]))
    && (forall spec | Missing(cfg, t, l, spec) :: Has(t', spec))
    && UniqueParents(t')
  }

  /** One pass through the loop of Reconcile: destroy if there is something to destroy, else create. */
  ghost predicate Iteration(cfg: Config, t: Topology, l: Links, t': Topology) {
    if !Clear(cfg, t, l) then Swept(cfg, t, l, t') else !Complete(cfg, t, l) && Grown(cfg, t, l, t')
  }

  /** How many iterations are left at most. */
  ghost function Rank(cfg: Config, t: Topology, l: Links): (rank: nat) {
    if !Clear(cfg, t, l) then 4
    else if !BackendsSettled(cfg, t) then 3
    else if !FrontendsSettled(cfg, t, l.backends) then 2
    else if !Complete(cfg, t, l) then 1
    else 0
  }

  /** The four kinds of target objects are wanted, and complete means they are there. */
  lemma TargetsPresent(cfg: Config, t: Topology, l: Links)
    requires Complete(cfg, t, l)
    ensures forall p | p in cfg.ports :: Has(t, BackendSpec(cfg, p))
    ensures forall p | p in cfg.ports && p in l.backends :: Has(t, FrontendSpec(cfg, p, l.backends[p]))
    ensures forall a, p | a in cfg.addresses && p in cfg.ports && p in l.frontends ::
            Has(t, BindSpec(cfg, a, p, l.frontends[p]))
    ensures forall n, p | n in cfg.nodes && p in cfg.ports && p in l.backends ::
            Has(t, ServerSpec(cfg, n, p, l.backends[p]))
  {
    forall p | p in cfg.ports ensures Has(t, BackendSpec(cfg, p)) {
      assert !Missing(cfg, t, l, BackendSpec(cfg, p));
    }
    forall p | p in cfg.ports && p in l.backends ensures Has(t, FrontendSpec(cfg, p, l.backends[p])) {
      assert !Missing(cfg, t, l, FrontendSpec(cfg, p, l.backends[p]));
    }
    forall a, p | a in cfg.addresses && p in cfg.ports && p in l.frontends
      ensures Has(t, BindSpec(cfg, a, p, l.frontends[p]))
    {
      assert !Missing(cfg, t, l, BindSpec(cfg, a, p, l.frontends[p]));
    }
    forall n, p | n in cfg.nodes && p in cfg.ports && p in l.backends
      ensures Has(t, ServerSpec(cfg, n, p, l.backends[p]))
    {
      assert !Missing(cfg, t, l, ServerSpec(cfg, n, p, l.backends[p]));
    }
  }

  lemma CompleteSettles(cfg: Config, t: Topology, l: Links)
    requires Clear(cfg, t, l) && Complete(cfg, t, l)
    ensures BackendsSettled(cfg, t)
    ensures FrontendsSettled(cfg, t, l.backends)
  {
    TargetsPresent(cfg, t, l);
    forall id | id in t ensures t[id].Backend? ==> WantedBackend(cfg, t[id]) {
      assert Wanted(cfg, l, t[id]);
    }
    forall id | id in t ensures t[id].Frontend? ==> WantedFrontend(cfg, l.backends, t[id]) {
      assert Wanted(cfg, l, t[id]);
    }
  }

  /** Links that still point at the same objects are found again. */
  lemma BackendLinksKept(cfg: Config, t: Topology, l: Links, t': Topology, l': Links)
    requires LinksFor(cfg, t, l) && LinksFor(cfg, t', l') && UniqueParents(t')
    requires BackendsSettled(cfg, t) && BackendsSettled(cfg, t')
    requires forall p | p in l.backends :: l.backends[p] in t' && t'[l.backends[p]] == t[l.backends[p]]
    ensures l'.backends == l.backends
  {
    hide FrontendsLinked, BackendsSettled;
    forall p | p in l.backends ensures l'.backends[p] == l.backends[p] {
      assert t'[l'.backends[p]] == BackendSpec(cfg, p) == t'[l.backends[p]];
    }
  }

  lemma FrontendLinksKept(cfg: Config, t: Topology, l: Links, t': Topology, l': Links)
    requires LinksFor(cfg, t, l) && LinksFor(cfg, t', l') && UniqueParents(t')
    requires l.backends == l'.backends
    requires FrontendsSettled(cfg, t, l.backends) && FrontendsSettled(cfg, t', l.backends)
    requires forall p | p in l.frontends :: l.frontends[p] in t' && t'[l.frontends[p]] == t[l.frontends[p]]
    ensures l'.frontends == l.frontends
  {
    hide FrontendsSettled, BackendsLinked;
    forall p | p in l.frontends ensures l'.frontends[p] == l.frontends[p] {
      assert t'[l'.frontends[p]] == FrontendSpec(cfg, p, l.backends[p]) == t'[l.frontends[p]];
    }
  }

  /** Without two equal Backends or Frontends, there is one way to link the layers. */
  lemma LinksUnique(cfg: Config, t: Topology, l: Links, l': Links)
    requires LinksFor(cfg, t, l) && LinksFor(cfg, t, l') && UniqueParents(t)
    ensures l == l'
  {
    if BackendsSettled(cfg, t) {
      BackendLinksKept(cfg, t, l, t, l');
    }
    if FrontendsSettled(cfg, t, l.backends) {
      FrontendLinksKept(cfg, t, l, t, l');
    }
  }

  // ---- Destroying ----

  lemma SweepKeepsBackends(cfg: Config, t: Topology, l: Links, t': Topology, l': Links)
    requires LinksFor(cfg, t, l) && LinksFor(cfg, t', l') && UniqueParents(t)
    requires Swept(cfg, t, l, t') && BackendsSettled(cfg, t)
    ensures BackendsSettled(cfg, t') && l'.backends == l.backends
  {
    forall p | p in cfg.ports ensures Has(t', BackendSpec(cfg, p)) && l.backends[p] in t' {
      assert WantedBackend(cfg, BackendSpec(cfg, p));
      assert Wanted(cfg, l, t[l.backends[p]]);
      assert t'[l.backends[p]] == BackendSpec(cfg, p);
    }
    BackendLinksKept(cfg, t, l, t', l');
  }

  lemma SweepKeepsFrontends(cfg: Config, t: Topology, l: Links, t': Topology, l': Links)
    requires LinksFor(cfg, t, l) && LinksFor(cfg, t', l') && UniqueParents(t')
    requires Swept(cfg, t, l, t') && l.backends == l'.backends && FrontendsSettled(cfg, t, l.backends)
    requires forall p | p in l.backends :: p in cfg.ports
    ensures FrontendsSettled(cfg, t', l.backends) && l'.frontends == l.frontends
  {
    assert FrontendLinks(cfg, t, l);
    forall p | p in l.frontends ensures l.frontends[p] in t' && t'[l.frontends[p]] == t[l.frontends[p]] {
      assert WantedFrontend(cfg, l.backends, FrontendSpec(cfg, p, l.backends[p]));
      assert Wanted(cfg, l, t[l.frontends[p]]);
    }
    FrontendsResettled(cfg, t, l, t');
    FrontendLinksKept(cfg, t, l, t', l');
  }

  /** A frontend layer that keeps its linked objects and gains no unwanted ones stays settled. */
  lemma FrontendsResettled(cfg: Config, t: Topology, l: Links, t': Topology)
    requires FrontendLinks(cfg, t, l)
    requires forall p | p in l.frontends :: l.frontends[p] in t' && t'[l.frontends[p]] == t[l.frontends[p]]
    requires forall id | id in t' && t'[id].Frontend? :: WantedFrontend(cfg, l.backends, t'[id])
    ensures FrontendsSettled(cfg, t', l.backends)
  {
    forall p | p in cfg.ports && p in l.backends ensures Has(t', FrontendSpec(cfg, p, l.backends[p])) {
      assert t'[l.frontends[p]] == FrontendSpec(cfg, p, l.backends[p]);
    }
  }

  lemma SweepKeepsUnique(cfg: Config, t: Topology, l: Links, t': Topology)
    requires UniqueParents(t) && Swept(cfg, t, l, t')
    ensures UniqueParents(t')
  {
  }

  /** A sweep keeps the links it found. */
  lemma SweepKeepsLinks(cfg: Config, t: Topology, l: Links, t': Topology, l': Links)
    requires LinksFor(cfg, t, l) && LinksFor(cfg, t', l') && UniqueParents(t)
    requires Swept(cfg, t, l, t') && UniqueParents(t')
    ensures l.backends == map[] || l.backends == l'.backends
    ensures l.frontends == map[] || l.frontends == l'.frontends
  {
    hide Swept, UniqueParents, BackendsSettled, FrontendsSettled;
    if BackendsSettled(cfg, t) {
      SweepKeepsBackends(cfg, t, l, t', l');
      if FrontendsSettled(cfg, t, l.backends) {
        SweepKeepsFrontends(cfg, t, l, t', l');
      }
    }
  }

  /** One destroying iteration is enough: what it leaves is never to be destroyed next. */
  lemma SweepClears(cfg: Config, t: Topology, l: Links, t': Topology, l': Links)
    requires LinksFor(cfg, t, l) && LinksFor(cfg, t', l') && UniqueParents(t)
    requires Swept(cfg, t, l, t')
    ensures UniqueParents(t') && Clear(cfg, t', l')
  {
    SweepKeepsUnique(cfg, t, l, t');
    SweepKeepsLinks(cfg, t, l, t', l');
    hide UniqueParents, Wanted, LinksFor;
    forall id | id in t' ensures Wanted(cfg, l', t'[id]) {
      WantedKept(cfg, l, l', t[id]);
    }
  }

  lemma WantedKept(cfg: Config, l: Links, l': Links, spec: Spec)
    requires Wanted(cfg, l, spec)
    requires l.backends == map[] || l.backends == l'.backends
    requires l.frontends == map[] || l.frontends == l'.frontends
    ensures Wanted(cfg, l', spec)
  {
  }

  // ---- Creating ----

  lemma GrowthKeepsBackends(cfg: Config, t: Topology, l: Links, t': Topology, l': Links)
    requires LinksFor(cfg, t, l) && LinksFor(cfg, t', l')
    requires Grown(cfg, t, l, t') && BackendsSettled(cfg, t)
    ensures BackendsSettled(cfg, t') && l'.backends == l.backends
  {
    forall p | p in cfg.ports ensures Has(t', BackendSpec(cfg, p)) {
      assert t'[l.backends[p]] == BackendSpec(cfg, p);
    }
    BackendLinksKept(cfg, t, l, t', l');
  }

  lemma GrowthKeepsFrontends(cfg: Config, t: Topology, l: Links, t': Topology, l': Links)
    requires LinksFor(cfg, t, l) && LinksFor(cfg, t', l')
    requires Clear(cfg, t, l) && Grown(cfg, t, l, t')
    requires l.backends == l'.backends && FrontendsSettled(cfg, t, l.backends)
    ensures FrontendsSettled(cfg, t', l.backends) && l'.frontends == l.frontends
  {
    GrowthWants(cfg, t, l, t');
    FrontendsResettled(cfg, t, l, t');
    FrontendLinksKept(cfg, t, l, t', l');
  }

  lemma GrowthWants(cfg: Config, t: Topology, l: Links, t': Topology)
    requires Clear(cfg, t, l) && Grown(cfg, t, l, t')
    ensures forall id | id in t' :: Wanted(cfg, l, t'[id])
    ensures forall spec | Wanted(cfg, l, spec) :: Has(t', spec)
  {
    forall id | id in t' ensures Wanted(cfg, l, t'[id]) {
      if id in t {
        assert Wanted(cfg, l, t[id]);
      }
    }
    forall spec | Wanted(cfg, l, spec) ensures Has(t', spec) {
      if Has(t, spec) {
        var id :| id in t && t[id] == spec;
        assert t'[id] == spec;
      } else {
        assert Missing(cfg, t, l, spec);
      }
    }
  }

  lemma GrowthSettlesBackends(cfg: Config, t: Topology, l: Links, t': Topology)
    requires Clear(cfg, t, l) && Grown(cfg, t, l, t')
    ensures BackendsSettled(cfg, t')
  {
    GrowthWants(cfg, t, l, t');
    forall p | p in cfg.ports ensures Has(t', BackendSpec(cfg, p)) {
      assert Wanted(cfg, l, BackendSpec(cfg, p));
    }
  }

  lemma GrowthSettlesFrontends(cfg: Config, t: Topology, l: Links, t': Topology)
    requires Clear(cfg, t, l) && Grown(cfg, t, l, t')
    ensures FrontendsSettled(cfg, t', l.backends)
  {
    GrowthWants(cfg, t, l, t');
    forall p | p in cfg.ports && p in l.backends ensures Has(t', FrontendSpec(cfg, p, l.backends[p])) {
      assert Wanted(cfg, l, FrontendSpec(cfg, p, l.backends[p]));
    }
  }

  lemma GrowthCompletes(cfg: Config, t: Topology, l: Links, t': Topology)
    requires Clear(cfg, t, l) && Grown(cfg, t, l, t')
    ensures Complete(cfg, t', l)
  {
    GrowthWants(cfg, t, l, t');
  }

  lemma GrowthKeepsLinks(cfg: Config, t: Topology, l: Links, t': Topology, l': Links)
    requires LinksFor(cfg, t, l) && LinksFor(cfg, t', l')
    requires Clear(cfg, t, l) && Grown(cfg, t, l, t')
    ensures l.backends == map[] || l.backends == l'.backends
    ensures l.frontends == map[] || l.frontends == l'.frontends
    ensures BackendsSettled(cfg, t) && FrontendsSettled(cfg, t, l.backends) ==> l == l'
  {
    if BackendsSettled(cfg, t) {
      GrowthKeepsBackends(cfg, t, l, t', l');
      if FrontendsSettled(cfg, t, l.backends) {
        GrowthKeepsFrontends(cfg, t, l, t', l');
      }
    }
  }

  /** Creating never makes anything superfluous. */
  lemma GrowthClears(cfg: Config, t: Topology, l: Links, t': Topology, l': Links)
    requires LinksFor(cfg, t, l) && LinksFor(cfg, t', l')
    requires Clear(cfg, t, l) && Grown(cfg, t, l, t')
    ensures Clear(cfg, t', l')
  {
    GrowthWants(cfg, t, l, t');
    GrowthKeepsLinks(cfg, t, l, t', l');
    forall id | id in t' ensures Wanted(cfg, l', t'[id]) {
      WantedKept(cfg, l, l', t'[id]);
    }
  }

  /** Creating settles one more layer. */
  lemma GrowthDescends(cfg: Config, t: Topology, l: Links, t': Topology, l': Links)
    requires LinksFor(cfg, t, l) && LinksFor(cfg, t', l')
    requires Clear(cfg, t, l) && !Complete(cfg, t, l) && Grown(cfg, t, l, t')
    ensures Clear(cfg, t', l') && Rank(cfg, t', l') < Rank(cfg, t, l)
  {
    GrowthClears(cfg, t, l, t', l');
    GrowthSettlesBackends(cfg, t, l, t');
    RankOfClear(cfg, t, l);
    RankOfClear(cfg, t', l');
    if BackendsSettled(cfg, t) {
      GrowthKeepsBackends(cfg, t, l, t', l');
      GrowthSettlesFrontends(cfg, t, l, t');
      if FrontendsSettled(cfg, t, l.backends) {
        GrowthKeepsLinks(cfg, t, l, t', l');
        GrowthCompletes(cfg, t, l, t');
      }
    }
  }

  lemma RankOfClear(cfg: Config, t: Topology, l: Links)
    requires Clear(cfg, t, l)
    ensures Rank(cfg, t, l) <= 3
    ensures !BackendsSettled(cfg, t) ==> Rank(cfg, t, l) == 3
    ensures BackendsSettled(cfg, t) ==> Rank(cfg, t, l) <= 2
    ensures BackendsSettled(cfg, t) && !FrontendsSettled(cfg, t, l.backends) ==> Rank(cfg, t, l) == 2
    ensures BackendsSettled(cfg, t) && FrontendsSettled(cfg, t, l.backends) ==>
              Rank(cfg, t, l) == if Complete(cfg, t, l) then 0 else 1
  {
  }

  // ---- Whole runs ----

  /** Every iteration brings the run closer to its end, and only the first one can destroy. */
  lemma IterationDescends(cfg: Config, t: Topology, l: Links, t': Topology, l': Links)
    requires LinksFor(cfg, t, l) && LinksFor(cfg, t', l') && UniqueParents(t)
    requires Iteration(cfg, t, l, t')
    ensures UniqueParents(t') && Clear(cfg, t', l')
    ensures Rank(cfg, t', l') < Rank(cfg, t, l)
  {
    if Clear(cfg, t, l) {
      GrowthDescends(cfg, t, l, t', l');
    } else {
      SweepClears(cfg, t, l, t', l');
    }
  }

  datatype Snapshot = Snapshot(topology: Topology, links: Links)

  ghost function Left(cfg: Config, s: Snapshot): (n: nat) {
    Rank(cfg, s.topology, s.links)
  }

  ghost predicate Seen(cfg: Config, s: Snapshot) {
    LinksFor(cfg, s.topology, s.links)
  }

  /** `s'` is what the next check sees after an iteration that did all it set out to do. */
  ghost predicate Follows(cfg: Config, s: Snapshot, s': Snapshot) {
    Iteration(cfg, s.topology, s.links, s'.topology)
  }

  lemma FollowsDescends(cfg: Config, s: Snapshot, s': Snapshot)
    requires Seen(cfg, s) && Seen(cfg, s') && UniqueParents(s.topology) && Follows(cfg, s, s')
    ensures UniqueParents(s'.topology) && Clear(cfg, s'.topology, s'.links) && Left(cfg, s') < Left(cfg, s)
  {
    IterationDescends(cfg, s.topology, s.links, s'.topology, s'.links);
  }

  /** The snapshots a run of Reconcile takes. */
  ghost predicate Run(cfg: Config, run: seq<Snapshot>) {
    && run != []
    && UniqueParents(run[0].topology)
    && (forall i | 0 <= i < |run| :: Seen(cfg, run[i]))
    && (forall i | 0 < i < |run| :: Follows(cfg, run[i - 1], run[i]))
  }

  lemma {:induction false} RunDescends(cfg: Config, run: seq<Snapshot>)
    requires Run(cfg, run)
    ensures UniqueParents(run[|run| - 1].topology)
    ensures Left(cfg, run[|run| - 1]) + |run| <= 5
  {
    if |run| > 1 {
      var shorter := run[..|run| - 1];
      assert shorter[|shorter| - 1] == run[|run| - 2];
      RunDescends(cfg, shorter);
      FollowsDescends(cfg, run[|run| - 2], run[|run| - 1]);
    }
  }

  // ---- Exactness ----

  ghost predicate PortsServed(cfg: Config, t: Topology, l: Links) {
    && l.backends.Keys == cfg.ports.Keys && l.frontends.Keys == cfg.ports.Keys
    && forall p | p in cfg.ports ::
        && l.backends[p] in t && t[l.backends[p]] == BackendSpec(cfg, p)
        && l.frontends[p] in t && t[l.frontends[p]] == FrontendSpec(cfg, p, l.backends[p])
  }

  /** `id` is the Backend or Frontend of a port, or looks like one of the Binds or Servers. */
  ghost predicate Placed(cfg: Config, l: Links, id: Id, spec: Spec) {
    || (exists p :: p in cfg.ports && p in l.backends && id == l.backends[p] && spec == BackendSpec(cfg, p))
    || (exists p :: p in cfg.ports && p in l.frontends && p in l.backends && id == l.frontends[p]
         && spec == FrontendSpec(cfg, p, l.backends[p]))
    || WantedBind(cfg, l.frontends, spec)
    || WantedServer(cfg, l.backends, spec)
  }

  /**
    * The intended topology: one Backend and one Frontend for each port, that
    * Frontend on that Backend, a Bind for each address on each Frontend, a Server
    * for each node in each Backend; and nothing besides.
    */
  ghost predicate Intended(cfg: Config, t: Topology, l: Links) {
    && PortsServed(cfg, t, l)
    && (forall a, p | a in cfg.addresses && p in cfg.ports :: Has(t, BindSpec(cfg, a, p, l.frontends[p])))
    && (forall n, p | n in cfg.nodes && p in cfg.ports :: Has(t, ServerSpec(cfg, n, p, l.backends[p])))
    && (forall id | id in t :: Placed(cfg, l, id, t[id]))
  }

  ghost predicate Exact(cfg: Config, t: Topology) {
    exists l :: Intended(cfg, t, l)
  }

  lemma WantedIsPlaced(cfg: Config, t: Topology, l: Links, id: Id)
    requires PortsServed(cfg, t, l) && UniqueParents(t)
    requires id in t && Wanted(cfg, l, t[id])
    ensures Placed(cfg, l, id, t[id])
  {
    if t[id].Backend? {
      var p :| p in cfg.ports && t[id] == BackendSpec(cfg, p);
      assert t[id] == t[l.backends[p]];
    } else if t[id].Frontend? {
      var p :| p in cfg.ports && p in l.backends && t[id] == FrontendSpec(cfg, p, l.backends[p]);
      assert t[id] == t[l.frontends[p]];
    }
  }

  lemma PlacedIsWanted(cfg: Config, l: Links, id: Id, spec: Spec)
    requires Placed(cfg, l, id, spec)
    ensures Wanted(cfg, l, spec)
  {
  }

  lemma SettledPortsServed(cfg: Config, t: Topology, l: Links)
    requires LinksFor(cfg, t, l) && BackendsSettled(cfg, t) && FrontendsSettled(cfg, t, l.backends)
    ensures PortsServed(cfg, t, l)
  {
  }

  lemma FixpointIsIntended(cfg: Config, t: Topology, l: Links)
    requires LinksFor(cfg, t, l) && UniqueParents(t)
    requires Clear(cfg, t, l) && Complete(cfg, t, l)
    ensures Intended(cfg, t, l)
  {
    CompleteSettles(cfg, t, l);
    SettledPortsServed(cfg, t, l);
    TargetsPresent(cfg, t, l);
    forall id | id in t ensures Placed(cfg, l, id, t[id]) {
      WantedIsPlaced(cfg, t, l, id);
    }
  }

  lemma ServedPortsSettled(cfg: Config, t: Topology, i: Links)
    requires Intended(cfg, t, i)
    ensures BackendsSettled(cfg, t) && FrontendsSettled(cfg, t, i.backends)
    ensures LinksFor(cfg, t, i)
  {
    forall p | p in cfg.ports ensures Has(t, BackendSpec(cfg, p)) && Has(t, FrontendSpec(cfg, p, i.backends[p])) {
      assert t[i.backends[p]] == BackendSpec(cfg, p);
    }
    forall id | id in t
      ensures t[id].Backend? ==> WantedBackend(cfg, t[id])
      ensures t[id].Frontend? ==> WantedFrontend(cfg, i.backends, t[id])
    {
      PlacedIsWanted(cfg, i, id, t[id]);
    }
    assert BackendsSettled(cfg, t);
    assert FrontendsSettled(cfg, t, i.backends);
  }

  lemma IntendedIsFixpoint(cfg: Config, t: Topology, i: Links)
    requires Intended(cfg, t, i)
    ensures LinksFor(cfg, t, i) && Clear(cfg, t, i) && Complete(cfg, t, i)
  {
    ServedPortsSettled(cfg, t, i);
    forall id | id in t ensures Wanted(cfg, i, t[id]) {
      PlacedIsWanted(cfg, i, id, t[id]);
    }
    forall spec ensures !Missing(cfg, t, i, spec) {
      if Wanted(cfg, i, spec) {
        IntendedHasWanted(cfg, t, i, spec);
      }
    }
  }

  lemma IntendedHasWanted(cfg: Config, t: Topology, i: Links, spec: Spec)
    requires Intended(cfg, t, i) && Wanted(cfg, i, spec)
    ensures Has(t, spec)
  {
    if spec.Backend? {
      var p :| p in cfg.ports && spec == BackendSpec(cfg, p);
      assert t[i.backends[p]] == spec;
    } else if spec.Frontend? {
      var p :| p in cfg.ports && p in i.backends && spec == FrontendSpec(cfg, p, i.backends[p]);
      assert t[i.frontends[p]] == spec;
    }
  }

  /** There is nothing left to create or destroy exactly in the intended topology. */
  lemma FixpointIffExact(cfg: Config, t: Topology, l: Links)
    requires LinksFor(cfg, t, l) && UniqueParents(t)
    ensures Clear(cfg, t, l) && Complete(cfg, t, l) <==> Exact(cfg, t)
    ensures Rank(cfg, t, l) == 0 <==> Exact(cfg, t)
  {
    if Clear(cfg, t, l) && Complete(cfg, t, l) {
      CompleteSettles(cfg, t, l);
      FixpointIsIntended(cfg, t, l);
    }
    if Exact(cfg, t) {
      var i :| Intended(cfg, t, i);
      IntendedIsFixpoint(cfg, t, i);
      LinksUnique(cfg, t, l, i);
      CompleteSettles(cfg, t, l);
    }
  }

  /** In the intended topology no Backend and no Frontend is there twice. */
  lemma ExactUniqueParents(cfg: Config, t: Topology)
    requires Exact(cfg, t)
    ensures UniqueParents(t)
  {
    var l :| Intended(cfg, t, l);
    forall i, j | i in t && j in t && t[i] == t[j] && (t[i].Backend? || t[i].Frontend?) ensures i == j {
      if t[i].Backend? {
        var p, q := PortOfBackend(cfg, l, i, t[i]), PortOfBackend(cfg, l, j, t[j]);
        TargetNamesDistinct(cfg, p, q);
      } else {
        var p, q := PortOfFrontend(cfg, l, i, t[i]), PortOfFrontend(cfg, l, j, t[j]);
        TargetNamesDistinct(cfg, p, q);
      }
    }
  }

  ghost function PortOfBackend(cfg: Config, l: Links, id: Id, spec: Spec): (p: string)
    requires Placed(cfg, l, id, spec) && spec.Backend?
    ensures p in cfg.ports && p in l.backends && id == l.backends[p] && spec == BackendSpec(cfg, p)
  {
    var p :| p in cfg.ports && p in l.backends && id == l.backends[p] && spec == BackendSpec(cfg, p);
    p
  }

  ghost function PortOfFrontend(cfg: Config, l: Links, id: Id, spec: Spec): (p: string)
    requires Placed(cfg, l, id, spec) && spec.Frontend?
    ensures p in cfg.ports && p in l.frontends && p in l.backends && id == l.frontends[p]
            && spec == FrontendSpec(cfg, p, l.backends[p])
  {
    var p :| p in cfg.ports && p in l.frontends && p in l.backends && id == l.frontends[p]
      && spec == FrontendSpec(cfg, p, l.backends[p]);
    p
  }

  /** Nothing to destroy and nothing to create: the exit of Reconcile that follows a check. */
  ghost predicate Done(cfg: Config, s: Snapshot) {
    Clear(cfg, s.topology, s.links) && Complete(cfg, s.topology, s.links)
  }

  /**
    * Bounded convergence: a run takes at most five snapshots, only the first one can
    * call for destroying, it is done exactly when it sees the intended topology,
    * and with the fifth it does.
    */
  lemma ConvergesWithinFive(cfg: Config, run: seq<Snapshot>)
    requires Run(cfg, run)
    ensures |run| <= 5
    ensures forall i | 0 < i < |run| :: Clear(cfg, run[i].topology, run[i].links)
    ensures Done(cfg, run[|run| - 1]) <==> Exact(cfg, run[|run| - 1].topology)
    ensures |run| == 5 ==> Exact(cfg, run[4].topology)
  {
    var last := run[|run| - 1];
    RunDescends(cfg, run);
    DoneIffExact(cfg, last);
    forall i | 0 < i < |run| ensures Clear(cfg, run[i].topology, run[i].links) {
      ClearAfterFirst(cfg, run, i);
    }
  }

  lemma ClearAfterFirst(cfg: Config, run: seq<Snapshot>, i: nat)
    requires Run(cfg, run) && 0 < i < |run|
    ensures Clear(cfg, run[i].topology, run[i].links)
  {
    var before := run[..i];
    RunDescends(cfg, before);
    assert before[|before| - 1] == run[i - 1];
    FollowsDescends(cfg, run[i - 1], run[i]);
  }

  lemma DoneIffExact(cfg: Config, s: Snapshot)
    requires LinksFor(cfg, s.topology, s.links) && UniqueParents(s.topology)
    ensures Done(cfg, s) <==> Exact(cfg, s.topology)
    ensures Left(cfg, s) == 0 <==> Exact(cfg, s.topology)
  {
    FixpointIffExact(cfg, s.topology, s.links);
  }

  /** Deleting a service: with no ports, the intended topology is the empty one. */
  lemma NoPortsNothing(cfg: Config, t: Topology)
    requires cfg.ports == map[]
    ensures Exact(cfg, t) <==> t == map[]
  {
    if t == map[] {
      assert Intended(cfg, t, Links(map[], map[]));
    }
  }
}
