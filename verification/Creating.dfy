/** What creating the missing objects makes of the estate and of the working set. */
module Creating {
  import opened Common
  import opened Resources
  import opened Layout
  import opened Engines
  import opened Compare
  import opened Convergence
  import opened Steps
  import opened DestroyLoop

  /** The estate has gained exactly these objects, tagged. */
  ghost predicate Extended(e: Estate, e': Estate, created: seq<Object>, tag: string) {
    && (forall id | id in e :: id in e' && e'[id] == e[id])
    && (forall o | o in created :: o.id !in e && o.id in e' && e'[o.id] == Asset(o.spec, {tag}))
    && (forall id | id in e' && id !in e :: exists o :: o in created && o.id == id)
    && DistinctIds(created)
  }

  lemma ExtendedOneMore(e: Estate, e1: Estate, e2: Estate, created: seq<Object>, tag: string, o: Object)
    requires Extended(e, e1, created, tag) && o.id !in e1
    requires e2 == WithTag(e1[o.id := Asset(o.spec, {})], o.id, tag)
    ensures Extended(e, e2, created + [o], tag)
  {
    assert Asset(o.spec, {}).tags + {tag} == {tag};
    assert e2 == e1[o.id := Asset(o.spec, {tag})];
    assert {} + {tag} == {tag};
    forall id | id in e2 && id !in e ensures exists x :: x in created + [o] && x.id == id {
      if id == o.id {
        assert o in created + [o];
      } else {
        var x :| x in created && x.id == id;
        assert x in created + [o];
      }
    }
  }

  /** What fits into an estate still fits when the estate has grown. */
  lemma StillFits(e: Estate, e': Estate, created: seq<Object>, tag: string, me: Id, spec: Spec)
    requires Extended(e, e', created, tag) && Fits(e, me, spec)
    ensures Fits(e', me, spec)
  {
  }

  ghost predicate AllFit(e: Estate, me: Id, specs: seq<Spec>) {
    forall i | 0 <= i < |specs| :: Fits(e, me, specs[i])
  }

  /** What a check wants created fits: its parent exists. */
  lemma MissingFits(cfg: Config, e: Estate, l: Links, spec: Spec)
    requires LinksFor(cfg, TopologyOf(e, cfg.tag), l) && Wanted(cfg, l, spec)
    ensures Fits(e, cfg.lb, spec)
    ensures Parent(spec).Some? ==> Tagged(e, cfg.tag, Parent(spec).value)
  {
    if Parent(spec).Some? {
      DependencyClosure(cfg, TopologyOf(e, cfg.tag), l, spec);
    }
  }

  /** Every reference in the estate stays in the estate. */
  ghost predicate Rooted(e: Estate) {
    forall id | id in e && Parent(e[id].spec).Some? :: Parent(e[id].spec).value in e
  }

  lemma SoundRooted(s: Store, lb: Id)
    requires Sound(s)
    ensures Rooted(EstateOf(s, lb))
  {
    forall id | id in EstateOf(s, lb) && Parent(EstateOf(s, lb)[id].spec).Some?
      ensures Parent(EstateOf(s, lb)[id].spec).value in EstateOf(s, lb)
    {
      EstateSound(s, lb, id);
    }
  }

  /** The working set has gained exactly the created objects. */
  lemma WorkingSetExtended(e: Estate, e': Estate, created: seq<Object>, tag: string)
    requires Extended(e, e', created, tag) && Rooted(e)
    requires forall o | o in created && Parent(o.spec).Some? :: Tagged(e, tag, Parent(o.spec).value)
    ensures var t, t' := TopologyOf(e, tag), TopologyOf(e', tag);
            && (forall id | id in t :: id in t' && t'[id] == t[id])
            && (forall id | id in t' && id !in t :: id !in e && exists o ::
                 o in created && o.id == id && t'[id] == o.spec)
            && (forall o | o in created :: o.id in t' && t'[o.id] == o.spec)
    ensures NoStrays(e, tag) ==> NoStrays(e', tag)
  {
    forall id | id in e ensures Working(e', tag, id) <==> Working(e, tag, id) {
    }
    forall o | o in created ensures Working(e', tag, o.id) {
    }
    if NoStrays(e, tag) {
      var t, t' := TopologyOf(e, tag), TopologyOf(e', tag);
      forall child | child in e' && Parent(e'[child].spec).Some? && Parent(e'[child].spec).value in t'
        ensures child in t'
      {
        if child in e {
          assert Parent(e[child].spec).value in e;
        }
      }
    }
  }

  /** All specs of a topology are different. */
  ghost predicate Unique(t: Topology) {
    forall i, j | i in t && j in t && t[i] == t[j] :: i == j
  }

  /** There is one object of this kind and attributes, and no other. */
  ghost predicate Once(t: Topology, spec: Spec) {
    exists id :: id in t && t[id] == spec && OnlyAt(t, spec, id)
  }

  ghost predicate OnlyAt(t: Topology, spec: Spec, id: Id) {
    forall other | other in t && t[other] == spec :: other == id
  }

  lemma OnceIfUnique(t: Topology, spec: Spec)
    requires Unique(t)
    ensures Once(t, spec) <==> Has(t, spec)
  {
    if Has(t, spec) {
      var id :| id in t && t[id] == spec;
      assert OnlyAt(t, spec, id);
    }
  }

  /** In the intended topology without equal objects, everything intended is there exactly once, and nothing else. */
  lemma ExactlyOnce(cfg: Config, t: Topology, l: Links, spec: Spec)
    requires Intended(cfg, t, l) && Unique(t)
    ensures Wanted(cfg, l, spec) <==> Once(t, spec)
  {
    IntendedIsFixpoint(cfg, t, l);
    hide Intended, Wanted, LinksFor;
    OnceIfUnique(t, spec);
    assert !Missing(cfg, t, l, spec);
  }

  /** The objects created from the first of these specs, in order. */
  ghost predicate SpecsOf(created: seq<Object>, specs: seq<Spec>) {
    |created| <= |specs| && forall i | 0 <= i < |created| :: created[i].spec == specs[i]
  }

  lemma SpecsOneMore(created: seq<Object>, specs: seq<Spec>, i: nat, o: Object)
    requires i == |created| < |specs| && SpecsOf(created, specs) && o.spec == specs[i]
    ensures SpecsOf(created + [o], specs)
  {
  }

  /** Creating everything that is missing is the growth that convergence is about. */
  lemma CreatedIsGrown(cfg: Config, t: Topology, t': Topology, l: Links, specs: seq<Spec>, created: seq<Object>)
    requires forall spec :: spec in specs <==> Missing(cfg, t, l, spec)
    requires SpecsOf(created, specs) && |created| == |specs| && ParentsOnce(specs) && UniqueParents(t)
    requires forall id | id in t :: id in t' && t'[id] == t[id]
    requires forall id | id in t' && id !in t :: exists o :: o in created && o.id == id && t'[id] == o.spec
    requires forall o | o in created :: o.id in t' && t'[o.id] == o.spec
    ensures Grown(cfg, t, l, t')
  {
    forall id | id in t' && id !in t ensures Missing(cfg, t, l, t'[id]) {
      var o :| o in created && o.id == id && t'[id] == o.spec;
      var i :| 0 <= i < |created| && created[i] == o;
      assert specs[i] in specs;
    }
    forall spec | Missing(cfg, t, l, spec) ensures Has(t', spec) {
      var i :| 0 <= i < |specs| && specs[i] == spec;
      assert created[i] in created;
      assert t'[created[i].id] == spec;
    }
    CreatedUnique(cfg, t, t', l, specs, created);
  }

  lemma CreatedUnique(cfg: Config, t: Topology, t': Topology, l: Links, specs: seq<Spec>, created: seq<Object>)
    requires forall spec :: spec in specs <==> Missing(cfg, t, l, spec)
    requires SpecsOf(created, specs) && |created| == |specs| && ParentsOnce(specs) && UniqueParents(t)
    requires forall id | id in t :: id in t' && t'[id] == t[id]
    requires forall id | id in t' && id !in t :: exists o :: o in created && o.id == id && t'[id] == o.spec
    ensures UniqueParents(t')
    ensures NoDup(specs) && Unique(t) ==> Unique(t')
  {
    forall i, j | i in t' && j in t' && t'[i] == t'[j]
      && (t'[i].Backend? || t'[i].Frontend? || (NoDup(specs) && Unique(t)))
      ensures i == j
    {
      if i in t && j in t {
      } else if i !in t && j !in t {
        var a :| a in created && a.id == i && t'[i] == a.spec;
        var b :| b in created && b.id == j && t'[j] == b.spec;
        var x :| 0 <= x < |created| && created[x] == a;
        var y :| 0 <= y < |created| && created[y] == b;
        assert specs[x] == specs[y];
        assert x == y;
      } else if i in t {
        NewDiffersFromOld(cfg, t, l, specs, created, t'[j], i, j);
      } else {
        NewDiffersFromOld(cfg, t, l, specs, created, t'[i], j, i);
      }
    }
  }

  lemma NewDiffersFromOld(cfg: Config, t: Topology, l: Links, specs: seq<Spec>, created: seq<Object>, spec: Spec,
                          before: Id, after: Id)
    requires forall spec :: spec in specs <==> Missing(cfg, t, l, spec)
    requires SpecsOf(created, specs)
    requires before in t && exists o :: o in created && o.id == after && spec == o.spec
    ensures t[before] != spec
  {
    var o :| o in created && o.id == after && spec == o.spec;
    var x :| 0 <= x < |created| && created[x] == o;
    assert specs[x] in specs;
    assert !Has(t, spec);
  }
}
