/** What a round that did all it set out to do has made of the estate. */
module Progress {
  import opened Common
  import opened Resources
  import opened Layout
  import opened Engines
  import opened Compare
  import opened Retrieval
  import opened Convergence
  import opened DestroyLoop
  import opened Creating
  import opened Steps
  import opened Calls

  /** No stray below the working set, and no Backend or Frontend twice in it. */
  ghost predicate Sane(e: Estate, tag: string) {
    NoStrays(e, tag) && UniqueParents(TopologyOf(e, tag))
  }

  /** Losing all of its listed objects, the estate has lost exactly these. */
  lemma LostAll(e: Estate, e': Estate, ids: seq<Id>)
    requires OnlyLost(e, e', ids) && Holdings(e') == Holdings(e) - (set id | id in ids)
    ensures e' == e - (set id | id in ids)
  {
    forall id | id in e ensures id in e' <==> id !in ids {
      assert id in Holdings(e') <==> id in e';
      assert id in Holdings(e) && (id in Holdings(e') <==> id !in ids);
    }
  }

  /** Whatever of the estate gets lost, the working set only shrinks, and stays sane. */
  lemma LostSane(e: Estate, e': Estate, ids: seq<Id>, tag: string)
    requires OnlyLost(e, e', ids)
    ensures forall id | id in TopologyOf(e', tag) ::
            id in TopologyOf(e, tag) && TopologyOf(e', tag)[id] == TopologyOf(e, tag)[id]
    ensures Sane(e, tag) ==> Sane(e', tag)
    ensures Unique(TopologyOf(e, tag)) ==> Unique(TopologyOf(e', tag))
  {
    var t, t' := TopologyOf(e, tag), TopologyOf(e', tag);
    forall id | id in t' ensures id in t && t'[id] == t[id] {
      assert Working(e', tag, id);
    }
    if Sane(e, tag) {
      forall child | child in e' && Parent(e'[child].spec).Some? && Parent(e'[child].spec).value in t'
        ensures child in t'
      {
        assert child in t;
      }
    }
  }

  lemma DoomedSwept(cfg: Config, e: Estate, e': Estate, l: Links, doomed: seq<Id>)
    requires Doomed(cfg, TopologyOf(e, cfg.tag), l, doomed) && Sane(e, cfg.tag)
    requires e' == e - (set id | id in doomed)
    ensures Swept(cfg, TopologyOf(e, cfg.tag), l, TopologyOf(e', cfg.tag)) && Sane(e', cfg.tag)
  {
    var t, t' := TopologyOf(e, cfg.tag), TopologyOf(e', cfg.tag);
    DoomedEnclosed(cfg, e, l, doomed);
    DoomedGone(e, e', cfg.tag, doomed);
    assert t' == t - (set id | id in doomed);
    assert Swept(cfg, t, l, t');
    SweepKeepsUnique(cfg, t, l, t');
  }

  lemma MissingGrown(cfg: Config, e: Estate, e': Estate, l: Links, specs: seq<Spec>, created: seq<Object>)
    requires LinksFor(cfg, TopologyOf(e, cfg.tag), l) && Sane(e, cfg.tag) && Rooted(e)
    requires forall spec :: spec in specs <==> Missing(cfg, TopologyOf(e, cfg.tag), l, spec)
    requires SpecsOf(created, specs) && |created| == |specs| && ParentsOnce(specs)
    requires Extended(e, e', created, cfg.tag)
    ensures Grown(cfg, TopologyOf(e, cfg.tag), l, TopologyOf(e', cfg.tag)) && Sane(e', cfg.tag)
    ensures NoDup(specs) && Unique(TopologyOf(e, cfg.tag)) ==> Unique(TopologyOf(e', cfg.tag))
    ensures forall id | id in TopologyOf(e', cfg.tag) :: id in TopologyOf(e, cfg.tag) || exists o ::
            o in created && o.id == id
  {
    var t, t' := TopologyOf(e, cfg.tag), TopologyOf(e', cfg.tag);
    CreatedHasParents(cfg, e, l, specs, created);
    WorkingSetExtended(e, e', created, cfg.tag);
    CreatedIsGrown(cfg, t, t', l, specs, created);
    CreatedUnique(cfg, t, t', l, specs, created);
  }

  lemma CreatedHasParents(cfg: Config, e: Estate, l: Links, specs: seq<Spec>, created: seq<Object>)
    requires LinksFor(cfg, TopologyOf(e, cfg.tag), l)
    requires forall spec :: spec in specs <==> Missing(cfg, TopologyOf(e, cfg.tag), l, spec)
    requires SpecsOf(created, specs)
    ensures forall o | o in created && Parent(o.spec).Some? :: Tagged(e, cfg.tag, Parent(o.spec).value)
  {
    forall o | o in created && Parent(o.spec).Some? ensures Tagged(e, cfg.tag, Parent(o.spec).value) {
      var i :| 0 <= i < |created| && created[i] == o;
      assert specs[i] in specs;
      MissingFits(cfg, e, l, o.spec);
    }
  }

  /** Everything that is missing can be created: no created object refers to nothing. */
  lemma AllMissingFit(cfg: Config, e: Estate, l: Links, specs: seq<Spec>)
    requires LinksFor(cfg, TopologyOf(e, cfg.tag), l)
    requires forall spec :: spec in specs <==> Missing(cfg, TopologyOf(e, cfg.tag), l, spec)
    ensures AllFit(e, cfg.lb, specs)
  {
    forall i | 0 <= i < |specs| ensures Fits(e, cfg.lb, specs[i]) {
      assert specs[i] in specs;
      MissingFits(cfg, e, l, specs[i]);
    }
  }

  /** The identifiers of the objects to destroy are those of the working set's unwanted objects. */
  lemma DoomedIds(cfg: Config, t: Topology, l: Links, os: seq<Object>, toCreate: seq<Spec>, toDestroy: seq<Object>)
    requires Depicts(os, t) && FullDiff(cfg, t, l, os, toCreate, toDestroy)
    ensures NoDup(Ids(toDestroy))
    ensures forall id :: id in Ids(toDestroy) <==> id in t && !Wanted(cfg, l, t[id])
  {
    forall id | id in t && !Wanted(cfg, l, t[id]) ensures id in Ids(toDestroy) {
      var o :| o in os && o.id == id;
      assert o in toDestroy;
      var i :| 0 <= i < |toDestroy| && toDestroy[i] == o;
      assert Ids(toDestroy)[i] == id;
    }
    forall id | id in Ids(toDestroy) ensures id in t && !Wanted(cfg, l, t[id]) {
      var i :| 0 <= i < |toDestroy| && Ids(toDestroy)[i] == id;
      assert toDestroy[i] in toDestroy;
    }
  }

  /**
    * The lists are determined by the working set: whatever the order of the listing,
    * each of its objects has been retrieved once, as what it is, and no other.
    */
  lemma RetrievedExactly(v: Inventory, t: Topology, id: Id, spec: Spec)
    requires Retrieved(v, t) && KindOf(spec) != Others
    ensures (exists o :: o in v.sorted && o.id == id && o.spec == spec) <==> id in t && t[id] == spec
    ensures (exists o :: o in v.frontends && o.id == id && o.spec == spec) <==>
            id in t && t[id] == spec && spec.Frontend?
    ensures (exists o :: o in v.backends && o.id == id && o.spec == spec) <==> id in t && t[id] == spec && spec.Backend?
    ensures (exists o :: o in v.binds && o.id == id && o.spec == spec) <==> id in t && t[id] == spec && spec.Bind?
    ensures (exists o :: o in v.servers && o.id == id && o.spec == spec) <==> id in t && t[id] == spec && spec.Server?
    ensures DistinctIds(v.sorted)
  {
    if id in t && t[id] == spec {
      var os := match KindOf(spec)
        case Frontends => v.frontends case Backends => v.backends case Binds => v.binds
        case Servers => v.servers case Others => [];
      assert Shows(os, t, KindOf(spec));
      var o :| o in os && o.id == id;
      assert o in v.sorted;
    }
  }
}
