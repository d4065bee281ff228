/** Facts about the target lists of the four steps and about comparing them with what exists. */
module Steps {
  import opened Common
  import opened Resources
  import opened Layout
  import opened Engines
  import opened Compare
  import opened Retrieval

  ghost function Name(cfg: Config, port: string): (name: string) {
    Names.ResourceName([port], cfg.suffix)
  }

  lemma ExistsIffHas(os: seq<Object>, t: Topology, kind: Kind, spec: Spec)
    requires Shows(os, t, kind) && KindOf(spec) == kind
    ensures Exists(spec, os) <==> Has(t, spec)
  {
    if Has(t, spec) {
      var id :| id in t && t[id] == spec;
      var o :| o in os && o.id == id;
      assert o.spec == spec;
    }
  }

  /** Target Backends, one for each port, in the order of `names`. */
  ghost predicate BackendTargets(cfg: Config, names: seq<string>, targets: seq<Spec>) {
    && NoDup(names) && (forall p :: p in names <==> p in cfg.ports)
    && |targets| == |names|
    && forall i | 0 <= i < |names| :: targets[i] == BackendSpec(cfg, names[i])
  }

  lemma BackendTargetsAre(cfg: Config, names: seq<string>, targets: seq<Spec>)
    requires BackendTargets(cfg, names, targets)
    ensures NoDup(targets)
    ensures forall spec :: spec in targets <==> WantedBackend(cfg, spec)
  {
    forall i, j | 0 <= i < j < |targets| ensures targets[i] != targets[j] {
      TargetNamesDistinct(cfg, names[i], names[j]);
    }
    forall spec | WantedBackend(cfg, spec) ensures spec in targets {
      var p :| p in cfg.ports && spec == BackendSpec(cfg, p);
      var i :| 0 <= i < |names| && names[i] == p;
      assert targets[i] == spec;
    }
    forall spec | spec in targets ensures WantedBackend(cfg, spec) {
      var i :| 0 <= i < |targets| && targets[i] == spec;
      assert names[i] in names;
    }
  }

  /** Target Frontends, one for each port that has a Backend, in the order of `names`. */
  ghost predicate FrontendTargets(cfg: Config, backends: map<string, Id>, names: seq<string>, targets: seq<Spec>) {
    && NoDup(names) && (forall p :: p in names <==> p in cfg.ports && p in backends)
    && |targets| == |names|
    && forall i | 0 <= i < |names| ::
         names[i] in backends && targets[i] == FrontendSpec(cfg, names[i], backends[names[i]])
  }

  lemma FrontendTargetsAre(cfg: Config, backends: map<string, Id>, names: seq<string>, targets: seq<Spec>)
    requires FrontendTargets(cfg, backends, names, targets)
    ensures NoDup(targets)
    ensures forall spec :: spec in targets <==> WantedFrontend(cfg, backends, spec)
  {
    forall i, j | 0 <= i < j < |targets| ensures targets[i] != targets[j] {
      TargetNamesDistinct(cfg, names[i], names[j]);
    }
    forall spec | WantedFrontend(cfg, backends, spec) ensures spec in targets {
      var p :| p in cfg.ports && p in backends && spec == FrontendSpec(cfg, p, backends[p]);
      var i :| 0 <= i < |names| && names[i] == p;
      assert targets[i] == spec;
    }
    forall spec | spec in targets ensures WantedFrontend(cfg, backends, spec) {
      var i :| 0 <= i < |targets| && targets[i] == spec;
      assert names[i] in names;
    }
  }

  /** What one step found out about one kind of object. */
  ghost predicate Compared(os: seq<Object>, targets: seq<Spec>, toCreate: seq<Spec>, toDestroy: seq<Object>) {
    && (forall spec :: spec in toCreate <==> spec in targets && !Exists(spec, os))
    && (forall o :: o in toDestroy <==> o in os && o.spec !in targets)
  }

  lemma BackendsSettledIff(cfg: Config, t: Topology, os: seq<Object>, names: seq<string>, targets: seq<Spec>,
                           toCreate: seq<Spec>, toDestroy: seq<Object>)
    requires Shows(os, t, Backends) && BackendTargets(cfg, names, targets)
    requires Compared(os, targets, toCreate, toDestroy)
    ensures toCreate == [] && toDestroy == [] <==> BackendsSettled(cfg, t)
  {
    BackendTargetsAre(cfg, names, targets);
    hide BackendTargets, BackendSpec;
    forall p | p in cfg.ports ensures BackendSpec(cfg, p) in targets {
      assert WantedBackend(cfg, BackendSpec(cfg, p));
    }
    forall spec | WantedBackend(cfg, spec) ensures Exists(spec, os) <==> Has(t, spec) {
      ExistsIffHas(os, t, Backends, spec);
    }
    EmptyIff(toCreate);
    EmptyIff(toDestroy);
    if toCreate == [] && toDestroy == [] {
      forall id | id in t && t[id].Backend? ensures WantedBackend(cfg, t[id]) {
        var o :| o in os && o.id == id;
        assert o !in toDestroy;
      }
    }
  }

  lemma FrontendsSettledIff(cfg: Config, t: Topology, backends: map<string, Id>, os: seq<Object>, names: seq<string>,
                            targets: seq<Spec>, toCreate: seq<Spec>, toDestroy: seq<Object>)
    requires Shows(os, t, Frontends) && FrontendTargets(cfg, backends, names, targets)
    requires Compared(os, targets, toCreate, toDestroy)
    ensures toCreate == [] && toDestroy == [] <==> FrontendsSettled(cfg, t, backends)
  {
    FrontendTargetsAre(cfg, backends, names, targets);
    forall p | p in cfg.ports && p in backends ensures FrontendSpec(cfg, p, backends[p]) in targets {
      assert WantedFrontend(cfg, backends, FrontendSpec(cfg, p, backends[p]));
    }
    forall spec | WantedFrontend(cfg, backends, spec) ensures Exists(spec, os) <==> Has(t, spec) {
      ExistsIffHas(os, t, Frontends, spec);
    }
    EmptyIff(toCreate);
    EmptyIff(toDestroy);
    if toCreate == [] && toDestroy == [] {
      forall id | id in t && t[id].Frontend? ensures WantedFrontend(cfg, backends, t[id]) {
        var o :| o in os && o.id == id;
        assert o !in toDestroy;
      }
    }
  }

  ghost predicate NamedAt(cfg: Config, targets: seq<Spec>, j: int, port: string) {
    && 0 <= j < |targets| && (targets[j].Backend? || targets[j].Frontend?)
    && targets[j].name == Name(cfg, port)
  }

  /** The identifiers found by looking for the name of each port among the targets. */
  ghost predicate Linked(cfg: Config, targets: seq<Spec>, ids: seq<Option<Id>>, links: map<string, Id>) {
    && |ids| == |targets|
    && (forall p | p in links :: p in cfg.ports && exists j :: NamedAt(cfg, targets, j, p) && ids[j] == Some(links[p]))
    && (forall p, j | p in cfg.ports && NamedAt(cfg, targets, j, p) :: p in links)
  }

  /** Every target that has an identifier took it over from an existing object it is equal to. */
  ghost predicate Identified(os: seq<Object>, targets: seq<Spec>, ids: seq<Option<Id>>) {
    && |ids| == |targets|
    && forall i | 0 <= i < |targets| && ids[i].Some? :: exists o ::
         o in os && o.id == ids[i].value && o.spec == targets[i]
  }

  lemma BackendFound(cfg: Config, t: Topology, os: seq<Object>, names: seq<string>, targets: seq<Spec>,
                     ids: seq<Option<Id>>, links: map<string, Id>, p: string)
    requires Shows(os, t, Backends) && BackendTargets(cfg, names, targets)
    requires Identified(os, targets, ids) && Linked(cfg, targets, ids, links)
    requires p in cfg.ports
    ensures p in links && links[p] in t && t[links[p]] == BackendSpec(cfg, p)
  {
    var i :| 0 <= i < |names| && names[i] == p;
    assert NamedAt(cfg, targets, i, p);
    var j :| NamedAt(cfg, targets, j, p) && ids[j] == Some(links[p]);
    TargetNamesDistinct(cfg, p, names[j]);
  }

  lemma LinkedBackends(cfg: Config, t: Topology, os: seq<Object>, names: seq<string>, targets: seq<Spec>,
                       ids: seq<Option<Id>>, links: map<string, Id>)
    requires Shows(os, t, Backends) && BackendTargets(cfg, names, targets)
    requires Identified(os, targets, ids) && Linked(cfg, targets, ids, links)
    ensures BackendLinks(cfg, t, links)
  {
    assert forall p | p in links :: p in cfg.ports;
    hide Linked, BackendTargets, Identified, Shows, BackendSpec;
    assert links.Keys == cfg.ports.Keys by {
      forall p | p in cfg.ports ensures p in links {
        BackendFound(cfg, t, os, names, targets, ids, links, p);
      }
    }
    forall p | p in links ensures links[p] in t && t[links[p]] == BackendSpec(cfg, p) {
      BackendFound(cfg, t, os, names, targets, ids, links, p);
    }
  }

  lemma FrontendFound(cfg: Config, t: Topology, l: Links, os: seq<Object>, names: seq<string>, targets: seq<Spec>,
                      ids: seq<Option<Id>>, p: string)
    requires Shows(os, t, Frontends) && FrontendTargets(cfg, l.backends, names, targets)
    requires Identified(os, targets, ids) && Linked(cfg, targets, ids, l.frontends)
    requires p in cfg.ports && (p in l.backends || p in l.frontends)
    ensures p in l.backends && p in l.frontends
    ensures l.frontends[p] in t && t[l.frontends[p]] == FrontendSpec(cfg, p, l.backends[p])
  {
    if p in l.backends {
      var i :| 0 <= i < |names| && names[i] == p;
      assert NamedAt(cfg, targets, i, p);
    }
    var j :| NamedAt(cfg, targets, j, p) && ids[j] == Some(l.frontends[p]);
    TargetNamesDistinct(cfg, p, names[j]);
    assert names[j] in names;
  }

  lemma LinkedFrontends(cfg: Config, t: Topology, l: Links, os: seq<Object>, names: seq<string>, targets: seq<Spec>,
                        ids: seq<Option<Id>>)
    requires Shows(os, t, Frontends) && FrontendTargets(cfg, l.backends, names, targets)
    requires forall p | p in l.backends :: p in cfg.ports
    requires Identified(os, targets, ids) && Linked(cfg, targets, ids, l.frontends)
    ensures FrontendLinks(cfg, t, l)
  {
    assert forall p | p in l.frontends :: p in cfg.ports;
    hide Linked, FrontendTargets, Identified, Shows, FrontendSpec;
    assert l.frontends.Keys == l.backends.Keys by {
      forall p ensures p in l.backends <==> p in l.frontends {
        if p in l.backends || p in l.frontends {
          FrontendFound(cfg, t, l, os, names, targets, ids, p);
        }
      }
    }
    forall p | p in l.frontends
      ensures l.frontends[p] in t && t[l.frontends[p]] == FrontendSpec(cfg, p, l.backends[p])
    {
      FrontendFound(cfg, t, l, os, names, targets, ids, p);
    }
  }

  /** No address is listed twice, and no node name. */
  ghost predicate DistinctAddresses(addresses: seq<Ip>) {
    forall i, j | 0 <= i < j < |addresses| :: addresses[i].text != addresses[j].text
  }

  ghost predicate DistinctInputs(cfg: Config) {
    && DistinctAddresses(cfg.addresses)
    && (forall i, j | 0 <= i < j < |cfg.nodes| :: cfg.nodes[i].name != cfg.nodes[j].name)
  }

  /** What a step returns: the missing targets and the unwanted objects of one kind. */
  ghost predicate Diff(cfg: Config, t: Topology, l: Links, kind: Kind, os: seq<Object>, toCreate: seq<Spec>,
                       toDestroy: seq<Object>) {
    && (forall spec :: spec in toCreate <==> Missing(cfg, t, l, spec) && KindOf(spec) == kind)
    && (forall o :: o in toDestroy <==> o in os && !Wanted(cfg, l, o.spec))
    && DistinctIds(toDestroy)
  }

  lemma DiffFromTargets(cfg: Config, t: Topology, l: Links, kind: Kind, os: seq<Object>, targets: seq<Spec>,
                        toCreate: seq<Spec>, toDestroy: seq<Object>)
    requires Shows(os, t, kind) && kind != Others
    requires Compared(os, targets, toCreate, toDestroy) && DistinctIds(toDestroy)
    requires forall spec :: spec in targets <==> Wanted(cfg, l, spec) && KindOf(spec) == kind
    ensures Diff(cfg, t, l, kind, os, toCreate, toDestroy)
  {
    forall spec | spec in targets ensures Exists(spec, os) <==> Has(t, spec) {
      ExistsIffHas(os, t, kind, spec);
    }
  }

  /** Target Binds, one for each pair: all addresses of `done` with all ports that have a Frontend. */
  ghost predicate BindTargets(cfg: Config, frontends: map<string, Id>, done: seq<Ip>, pairs: seq<(Ip, string)>,
                              targets: seq<Spec>) {
    && |pairs| == |targets|
    && (forall k | 0 <= k < |pairs| ::
          && pairs[k].0 in done && pairs[k].1 in cfg.ports && pairs[k].1 in frontends
          && targets[k] == BindSpec(cfg, pairs[k].0, pairs[k].1, frontends[pairs[k].1]))
    && (forall a, p | a in done && p in cfg.ports && p in frontends :: (a, p) in pairs)
  }

  lemma BindTargetsAre(cfg: Config, frontends: map<string, Id>, pairs: seq<(Ip, string)>, targets: seq<Spec>)
    requires BindTargets(cfg, frontends, cfg.addresses, pairs, targets)
    ensures forall spec :: spec in targets <==> WantedBind(cfg, frontends, spec)
  {
    forall spec | WantedBind(cfg, frontends, spec) ensures spec in targets {
      var a, p :| a in cfg.addresses && p in cfg.ports && p in frontends && spec == BindSpec(cfg, a, p, frontends[p]);
      assert (a, p) in pairs;
      var k :| 0 <= k < |pairs| && pairs[k] == (a, p);
      assert targets[k] == spec;
    }
    forall spec | spec in targets ensures WantedBind(cfg, frontends, spec) {
      var k :| 0 <= k < |targets| && targets[k] == spec;
      assert pairs[k].0 in cfg.addresses;
    }
  }

  lemma BindPairsDiffer(cfg: Config, t: Topology, l: Links, x: (Ip, string), y: (Ip, string))
    requires FrontendLinks(cfg, t, l) && DistinctInputs(cfg) && x != y
    requires x.0 in cfg.addresses && x.1 in cfg.ports && x.1 in l.frontends
    requires y.0 in cfg.addresses && y.1 in cfg.ports && y.1 in l.frontends
    ensures BindSpec(cfg, x.0, x.1, l.frontends[x.1]) != BindSpec(cfg, y.0, y.1, l.frontends[y.1])
  {
    TargetBindsDistinct(cfg, t, l, x.0, x.1, y.0, y.1);
    hide FrontendLinks, BindSpec;
  }

  lemma BindTargetsOnce(cfg: Config, t: Topology, l: Links, pairs: seq<(Ip, string)>, targets: seq<Spec>)
    requires BindTargets(cfg, l.frontends, cfg.addresses, pairs, targets) && NoDup(pairs)
    requires FrontendLinks(cfg, t, l) && DistinctInputs(cfg)
    ensures NoDup(targets)
  {
    hide BindSpec, FrontendLinks, DistinctInputs;
    forall i, j | 0 <= i < j < |targets| ensures targets[i] != targets[j] {
      BindPairsDiffer(cfg, t, l, pairs[i], pairs[j]);
    }
  }

  ghost predicate ServerTargets(cfg: Config, backends: map<string, Id>, done: seq<Node>, pairs: seq<(Node, string)>,
                                targets: seq<Spec>) {
    && |pairs| == |targets|
    && (forall k | 0 <= k < |pairs| ::
          && pairs[k].0 in done && pairs[k].1 in cfg.ports && pairs[k].1 in backends
          && targets[k] == ServerSpec(cfg, pairs[k].0, pairs[k].1, backends[pairs[k].1]))
    && (forall n, p | n in done && p in cfg.ports && p in backends :: (n, p) in pairs)
  }

  lemma ServerTargetsAre(cfg: Config, backends: map<string, Id>, pairs: seq<(Node, string)>, targets: seq<Spec>)
    requires ServerTargets(cfg, backends, cfg.nodes, pairs, targets)
    ensures forall spec :: spec in targets <==> WantedServer(cfg, backends, spec)
  {
    forall spec | WantedServer(cfg, backends, spec) ensures spec in targets {
      var n, p :| n in cfg.nodes && p in cfg.ports && p in backends && spec == ServerSpec(cfg, n, p, backends[p]);
      assert (n, p) in pairs;
      var k :| 0 <= k < |pairs| && pairs[k] == (n, p);
      assert targets[k] == spec;
    }
    forall spec | spec in targets ensures WantedServer(cfg, backends, spec) {
      var k :| 0 <= k < |targets| && targets[k] == spec;
      assert pairs[k].0 in cfg.nodes;
    }
  }

  lemma ServerPairsDiffer(cfg: Config, t: Topology, l: Links, x: (Node, string), y: (Node, string))
    requires BackendLinks(cfg, t, l.backends) && DistinctInputs(cfg) && x != y
    requires x.0 in cfg.nodes && x.1 in cfg.ports && x.1 in l.backends
    requires y.0 in cfg.nodes && y.1 in cfg.ports && y.1 in l.backends
    ensures ServerSpec(cfg, x.0, x.1, l.backends[x.1]) != ServerSpec(cfg, y.0, y.1, l.backends[y.1])
  {
    TargetServersDistinct(cfg, t, l, x.0, x.1, y.0, y.1);
    hide BackendLinks, ServerSpec;
  }

  lemma ServerTargetsOnce(cfg: Config, t: Topology, l: Links, pairs: seq<(Node, string)>, targets: seq<Spec>)
    requires ServerTargets(cfg, l.backends, cfg.nodes, pairs, targets) && NoDup(pairs)
    requires BackendLinks(cfg, t, l.backends) && DistinctInputs(cfg)
    ensures NoDup(targets)
  {
    hide ServerSpec, BackendLinks, DistinctInputs;
    forall i, j | 0 <= i < j < |targets| ensures targets[i] != targets[j] {
      ServerPairsDiffer(cfg, t, l, pairs[i], pairs[j]);
    }
  }

  /** All four steps together: what is missing, and what is not wanted, of the whole working set. */
  ghost predicate FullDiff(cfg: Config, t: Topology, l: Links, os: seq<Object>, toCreate: seq<Spec>,
                           toDestroy: seq<Object>) {
    && (forall spec :: spec in toCreate <==> Missing(cfg, t, l, spec))
    && (forall o :: o in toDestroy <==> o in os && !Wanted(cfg, l, o.spec))
    && DistinctIds(toDestroy)
  }

  /** No Backend and no Frontend is to be created twice. */
  ghost predicate ParentsOnce(specs: seq<Spec>) {
    forall i, j | 0 <= i < j < |specs| && (specs[i].Backend? || specs[i].Frontend?) :: specs[i] != specs[j]
  }

  /** What one step yields. */
  datatype Delta = Delta(toCreate: seq<Spec>, toDestroy: seq<Object>)

  lemma JoinDiffs(cfg: Config, t: Topology, l: Links, v: Inventory, b: Delta, f: Delta, n: Delta, s: Delta)
    requires Retrieved(v, t)
    requires Diff(cfg, t, l, Backends, v.backends, b.toCreate, b.toDestroy)
    requires Diff(cfg, t, l, Frontends, v.frontends, f.toCreate, f.toDestroy)
    requires Diff(cfg, t, l, Binds, v.binds, n.toCreate, n.toDestroy)
    requires Diff(cfg, t, l, Servers, v.servers, s.toCreate, s.toDestroy)
    ensures FullDiff(cfg, t, l, v.sorted, b.toCreate + f.toCreate + n.toCreate + s.toCreate,
                     b.toDestroy + f.toDestroy + n.toDestroy + s.toDestroy)
  {
    var toCreate := b.toCreate + f.toCreate + n.toCreate + s.toCreate;
    var toDestroy := b.toDestroy + f.toDestroy + n.toDestroy + s.toDestroy;
    forall spec ensures spec in toCreate <==> Missing(cfg, t, l, spec) {
      assert spec in toCreate <==> spec in b.toCreate || spec in f.toCreate || spec in n.toCreate || spec in s.toCreate;
      assert Missing(cfg, t, l, spec) ==> KindOf(spec) != Others;
    }
    forall o ensures o in toDestroy <==> o in v.sorted && !Wanted(cfg, l, o.spec) {
      assert o in toDestroy <==> o in b.toDestroy || o in f.toDestroy || o in n.toDestroy || o in s.toDestroy;
    }
    DistinctFour(b.toDestroy, f.toDestroy, n.toDestroy, s.toDestroy);
  }

  lemma DistinctFour(db: seq<Object>, df: seq<Object>, dn: seq<Object>, ds: seq<Object>)
    requires DistinctIds(db) && DistinctIds(df) && DistinctIds(dn) && DistinctIds(ds)
    requires forall a, b | a in db && b in df + dn + ds :: a.id != b.id
    requires forall a, b | a in df && b in dn + ds :: a.id != b.id
    requires forall a, b | a in dn && b in ds :: a.id != b.id
    ensures DistinctIds(db + df + dn + ds)
  {
    DistinctTwo(dn, ds);
    DistinctTwo(df, dn + ds);
    DistinctTwo(db, df + (dn + ds));
    assert db + df + dn + ds == db + (df + (dn + ds));
    assert df + dn + ds == df + (dn + ds);
  }

  lemma DistinctTwo(a: seq<Object>, b: seq<Object>)
    requires DistinctIds(a) && DistinctIds(b)
    requires forall x, y | x in a && y in b :: x.id != y.id
    ensures DistinctIds(a + b)
  {
    var all := a + b;
    forall i, j | 0 <= i < j < |all| ensures all[i].id != all[j].id {
      if i < |a| <= j {
        assert all[i] in a && all[j] in b;
      }
    }
  }

  lemma NewAddress(cfg: Config, frontends: map<string, Id>, i: nat, pairs: seq<(Ip, string)>, targets: seq<Spec>)
    requires i < |cfg.addresses| && DistinctInputs(cfg)
    requires BindTargets(cfg, frontends, cfg.addresses[..i], pairs, targets)
    ensures forall j | 0 <= j < |pairs| :: pairs[j].0 != cfg.addresses[i]
  {
  }

  lemma NewNode(cfg: Config, backends: map<string, Id>, i: nat, pairs: seq<(Node, string)>, targets: seq<Spec>)
    requires i < |cfg.nodes| && DistinctInputs(cfg)
    requires ServerTargets(cfg, backends, cfg.nodes[..i], pairs, targets)
    ensures forall j | 0 <= j < |pairs| :: pairs[j].0 != cfg.nodes[i]
  {
  }

  lemma NoBindTargets(cfg: Config, frontends: map<string, Id>)
    ensures cfg.addresses[..0] == [] && BindTargets(cfg, frontends, [], [], [])
  {
  }

  lemma NoServerTargets(cfg: Config, backends: map<string, Id>)
    ensures cfg.nodes[..0] == [] && ServerTargets(cfg, backends, [], [], [])
  {
  }

  lemma BindTargetsStep(cfg: Config, frontends: map<string, Id>, done: seq<Ip>, a: Ip, ports: seq<string>, before: nat,
                        pairs: seq<(Ip, string)>, targets: seq<Spec>)
    requires before <= |pairs| == |targets| && BindTargets(cfg, frontends, done, pairs[..before], targets[..before])
    requires Spread(a, ports, frontends, before, pairs) && forall p :: p in ports <==> p in cfg.ports
    requires forall k | before <= k < |pairs| && pairs[k].1 in cfg.ports && pairs[k].1 in frontends ::
               targets[k] == BindSpec(cfg, a, pairs[k].1, frontends[pairs[k].1])
    ensures BindTargets(cfg, frontends, done + [a], pairs, targets)
  {
    forall k | 0 <= k < |pairs|
      ensures && pairs[k].0 in done + [a] && pairs[k].1 in cfg.ports && pairs[k].1 in frontends
              && targets[k] == BindSpec(cfg, pairs[k].0, pairs[k].1, frontends[pairs[k].1])
    {
      if k < before {
        assert pairs[k] == pairs[..before][k] && targets[k] == targets[..before][k];
      }
    }
    forall x, p | x in done + [a] && p in cfg.ports && p in frontends ensures (x, p) in pairs {
      if x in done {
        assert (x, p) in pairs[..before];
      }
    }
  }

  lemma ServerTargetsStep(cfg: Config, backends: map<string, Id>, done: seq<Node>, n: Node, ports: seq<string>,
                          before: nat,
                          pairs: seq<(Node, string)>, targets: seq<Spec>)
    requires before <= |pairs| == |targets| && ServerTargets(cfg, backends, done, pairs[..before], targets[..before])
    requires Spread(n, ports, backends, before, pairs) && forall p :: p in ports <==> p in cfg.ports
    requires forall k | before <= k < |pairs| && pairs[k].1 in cfg.ports && pairs[k].1 in backends ::
               targets[k] == ServerSpec(cfg, n, pairs[k].1, backends[pairs[k].1])
    ensures ServerTargets(cfg, backends, done + [n], pairs, targets)
  {
    forall k | 0 <= k < |pairs|
      ensures && pairs[k].0 in done + [n] && pairs[k].1 in cfg.ports && pairs[k].1 in backends
              && targets[k] == ServerSpec(cfg, pairs[k].0, pairs[k].1, backends[pairs[k].1])
    {
      if k < before {
        assert pairs[k] == pairs[..before][k] && targets[k] == targets[..before][k];
      }
    }
    forall x, p | x in done + [n] && p in cfg.ports && p in backends ensures (x, p) in pairs {
      if x in done {
        assert (x, p) in pairs[..before];
      }
    }
  }

  /** The pairs from `before` on are those of `x` with each of these ports that has a link. */
  ghost predicate Spread<X>(x: X, ports: seq<string>, links: map<string, Id>, before: nat, pairs: seq<(X, string)>) {
    && before <= |pairs|
    && (forall j | before <= j < |pairs| :: pairs[j].0 == x && pairs[j].1 in ports && pairs[j].1 in links)
    && (forall p | p in ports && p in links :: (x, p) in pairs)
  }

  lemma SpreadStarts<X>(x: X, links: map<string, Id>, pairs: seq<(X, string)>)
    ensures Spread(x, [], links, |pairs|, pairs)
  {
  }

  lemma SpreadMore<X>(x: X, ports: seq<string>, links: map<string, Id>, before: nat, pairs: seq<(X, string)>, i: nat)
    requires i < |ports| && NoDup(ports) && Spread(x, ports[..i], links, before, pairs)
    ensures ports[i] !in links ==> Spread(x, ports[..i + 1], links, before, pairs)
    ensures ports[i] in links ==> Spread(x, ports[..i + 1], links, before, pairs + [(x, ports[i])])
    ensures NoDup(pairs) && (forall j | 0 <= j < before :: pairs[j].0 != x) ==> NoDup(pairs + [(x, ports[i])])
  {
    assert ports[..i + 1] == ports[..i] + [ports[i]];
    assert ports[i] !in ports[..i];
    if NoDup(pairs) && forall j | 0 <= j < before :: pairs[j].0 != x {
      FreshPair(pairs, before, x, ports[i]);
    }
  }

  lemma FreshPair<X>(pairs: seq<(X, string)>, before: nat, x: X, p: string)
    requires before <= |pairs| && NoDup(pairs)
    requires forall j | 0 <= j < before :: pairs[j].0 != x
    requires forall j | before <= j < |pairs| :: pairs[j].1 != p
    ensures NoDup(pairs + [(x, p)])
  {
    NoDupAppend(pairs, (x, p));
  }

  /** The Frontend step as a whole, from its comparison and from the links it stored. */
  lemma FrontendStep(cfg: Config, t: Topology, l: Links, os: seq<Object>, names: seq<string>, targets: seq<Spec>,
                     ids: seq<Option<Id>>, toCreate: seq<Spec>, toDestroy: seq<Object>)
    requires Shows(os, t, Frontends) && FrontendTargets(cfg, l.backends, names, targets)
    requires forall p | p in l.backends :: p in cfg.ports
    requires Compared(os, targets, toCreate, toDestroy) && DistinctIds(toDestroy) && Identified(os, targets, ids)
    requires if toCreate == [] && toDestroy == [] then Linked(cfg, targets, ids, l.frontends) else l.frontends == map[]
    ensures Diff(cfg, t, l, Frontends, os, toCreate, toDestroy)
    ensures FrontendsLinked(cfg, t, l)
  {
    FrontendTargetsAre(cfg, l.backends, names, targets);
    FrontendsSettledIff(cfg, t, l.backends, os, names, targets, toCreate, toDestroy);
    DiffFromTargets(cfg, t, l, Frontends, os, targets, toCreate, toDestroy);
    if toCreate == [] && toDestroy == [] {
      LinkedFrontends(cfg, t, l, os, names, targets, ids);
    }
  }

  /** The Backend step likewise. */
  lemma BackendStep(cfg: Config, t: Topology, l: Links, os: seq<Object>, names: seq<string>, targets: seq<Spec>,
                    ids: seq<Option<Id>>, toCreate: seq<Spec>, toDestroy: seq<Object>)
    requires Shows(os, t, Backends) && BackendTargets(cfg, names, targets)
    requires Compared(os, targets, toCreate, toDestroy) && DistinctIds(toDestroy) && Identified(os, targets, ids)
    requires if toCreate == [] && toDestroy == [] then Linked(cfg, targets, ids, l.backends) else l.backends == map[]
    ensures Diff(cfg, t, l, Backends, os, toCreate, toDestroy)
    ensures BackendsLinked(cfg, t, l)
  {
    BackendTargetsAre(cfg, names, targets);
    BackendsSettledIff(cfg, t, os, names, targets, toCreate, toDestroy);
    DiffFromTargets(cfg, t, l, Backends, os, targets, toCreate, toDestroy);
    if toCreate == [] && toDestroy == [] {
      LinkedBackends(cfg, t, os, names, targets, ids, l.backends);
    }
  }

  lemma BindStep(cfg: Config, t: Topology, l: Links, os: seq<Object>, pairs: seq<(Ip, string)>, targets: seq<Spec>,
                 toCreate: seq<Spec>, toDestroy: seq<Object>)
    requires Shows(os, t, Binds) && BindTargets(cfg, l.frontends, cfg.addresses, pairs, targets)
    requires Compared(os, targets, toCreate, toDestroy) && DistinctIds(toDestroy) && FrontendsLinked(cfg, t, l)
    ensures Diff(cfg, t, l, Binds, os, toCreate, toDestroy)
    ensures DistinctInputs(cfg) && NoDup(pairs) ==> NoDup(targets)
  {
    BindTargetsAre(cfg, l.frontends, pairs, targets);
    DiffFromTargets(cfg, t, l, Binds, os, targets, toCreate, toDestroy);
    if DistinctInputs(cfg) && NoDup(pairs) && l.frontends != map[] {
      BindTargetsOnce(cfg, t, l, pairs, targets);
    }
  }

  lemma ServerStep(cfg: Config, t: Topology, l: Links, os: seq<Object>, pairs: seq<(Node, string)>, targets: seq<Spec>,
                   toCreate: seq<Spec>, toDestroy: seq<Object>)
    requires Shows(os, t, Servers) && ServerTargets(cfg, l.backends, cfg.nodes, pairs, targets)
    requires Compared(os, targets, toCreate, toDestroy) && DistinctIds(toDestroy) && BackendsLinked(cfg, t, l)
    ensures Diff(cfg, t, l, Servers, os, toCreate, toDestroy)
    ensures DistinctInputs(cfg) && NoDup(pairs) ==> NoDup(targets)
  {
    ServerTargetsAre(cfg, l.backends, pairs, targets);
    DiffFromTargets(cfg, t, l, Servers, os, targets, toCreate, toDestroy);
    if DistinctInputs(cfg) && NoDup(pairs) && l.backends != map[] {
      ServerTargetsOnce(cfg, t, l, pairs, targets);
    }
  }

  /** No Backend and no Frontend twice in the joined list, nor anything else if the inputs are distinct. */
  lemma JoinOnce(cb: seq<Spec>, cf: seq<Spec>, cn: seq<Spec>, cs: seq<Spec>)
    requires NoDup(cb) && NoDup(cf)
    requires (forall s | s in cb :: s.Backend?) && (forall s | s in cf :: s.Frontend?)
    requires (forall s | s in cn :: s.Bind?) && (forall s | s in cs :: s.Server?)
    ensures ParentsOnce(cb + cf + cn + cs)
    ensures NoDup(cn) && NoDup(cs) ==> NoDup(cb + cf + cn + cs)
  {
    var all := cb + cf + cn + cs;
    assert forall k | 0 <= k < |cb| :: cb[k] in cb;
    assert forall k | 0 <= k < |cf| :: cf[k] in cf;
    assert forall k | 0 <= k < |cn| :: cn[k] in cn;
    assert forall k | 0 <= k < |cs| :: cs[k] in cs;
    forall i, j | 0 <= i < j < |all| && (all[i].Backend? || all[i].Frontend? || (NoDup(cn) && NoDup(cs)))
      ensures all[i] != all[j]
    {
      PartOf(cb, cf, cn, cs, i);
      PartOf(cb, cf, cn, cs, j);
    }
  }

  lemma PartOf(cb: seq<Spec>, cf: seq<Spec>, cn: seq<Spec>, cs: seq<Spec>, i: int)
    requires 0 <= i < |cb + cf + cn + cs|
    ensures var all := cb + cf + cn + cs;
            && (i < |cb| ==> all[i] == cb[i])
            && (|cb| <= i < |cb| + |cf| ==> all[i] == cf[i - |cb|])
            && (|cb| + |cf| <= i < |cb| + |cf| + |cn| ==> all[i] == cn[i - |cb| - |cf|])
            && (|cb| + |cf| + |cn| <= i ==> all[i] == cs[i - |cb| - |cf| - |cn|])
  {
  }
}
