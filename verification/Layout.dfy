/**
  * What one reconciliation wants to exist, given what it found. The functions
  * and predicates here specify the four steps; the lemmas say what the steps
  * achieve together.
  */
module Layout {
  import opened Common
  import opened Resources
  import Names

  datatype Port = Port(external: Port16, internal: Port16)

  /** A parsed address: whether To4 is non-nil, and what String gives. */
  datatype Ip = Ip(v4: bool, text: string)

  datatype Node = Node(name: string, address: Ip)

  datatype Config = Config(
    lb: Id,
    suffix: string,
    tag: string,
    addresses: seq<Ip>,
    ports: map<string, Port>,
    nodes: seq<Node>,
    backoffSteps: int)

  /** portBackends and portFrontends. */
  datatype Links = Links(backends: map<string, Id>, frontends: map<string, Id>)

  function Family(a: Ip): (fam: string) {
    if a.v4 then "v4" else "v6"
  }

  function BackendSpec(cfg: Config, port: string): (spec: Spec) {
    Backend(Names.ResourceName([port], cfg.suffix), TCP, TCP_CHECK, cfg.lb)
  }

  function FrontendSpec(cfg: Config, port: string, backend: Id): (spec: Spec) {
    Frontend(Names.ResourceName([port], cfg.suffix), TCP, cfg.lb, Some(backend))
  }

  function BindSpec(cfg: Config, a: Ip, port: string, frontend: Id): (spec: Spec)
    requires port in cfg.ports
  {
    Bind(Names.ResourceName([Family(a), port], cfg.suffix), a.text, cfg.ports[port].external, frontend)
  }

  function ServerSpec(cfg: Config, n: Node, port: string, backend: Id): (spec: Spec)
    requires port in cfg.ports
  {
    Server(Names.ResourceName([n.name, port], cfg.suffix), n.address.text, cfg.ports[port].internal, ENABLED, backend)
  }

  ghost predicate WantedBackend(cfg: Config, spec: Spec) {
    exists p :: p in cfg.ports && spec == BackendSpec(cfg, p)
  }

  ghost predicate WantedFrontend(cfg: Config, backends: map<string, Id>, spec: Spec) {
    exists p :: p in cfg.ports && p in backends && spec == FrontendSpec(cfg, p, backends[p])
  }

  ghost predicate WantedBind(cfg: Config, frontends: map<string, Id>, spec: Spec) {
    exists a, p :: a in cfg.addresses && p in cfg.ports && p in frontends && spec == BindSpec(cfg, a, p, frontends[p])
  }

  ghost predicate WantedServer(cfg: Config, backends: map<string, Id>, spec: Spec) {
    exists n, p :: n in cfg.nodes && p in cfg.ports && p in backends && spec == ServerSpec(cfg, n, p, backends[p])
  }

  /** `spec` is among the target objects of the four steps. */
  ghost predicate Wanted(cfg: Config, l: Links, spec: Spec) {
    match spec
    case Backend(_, _, _, _) => WantedBackend(cfg, spec)
    case Frontend(_, _, _, _) => WantedFrontend(cfg, l.backends, spec)
    case Bind(_, _, _, _) => WantedBind(cfg, l.frontends, spec)
    case Server(_, _, _, _, _) => WantedServer(cfg, l.backends, spec)
    case Foreign => false
  }

  ghost predicate Has(t: Topology, spec: Spec) {
    exists id :: id in t && t[id] == spec
  }

  ghost predicate BackendsSettled(cfg: Config, t: Topology) {
    && (forall p | p in cfg.ports :: Has(t, BackendSpec(cfg, p)))
    && (forall id | id in t && t[id].Backend? :: WantedBackend(cfg, t[id]))
  }

  ghost predicate FrontendsSettled(cfg: Config, t: Topology, backends: map<string, Id>) {
    && (forall p | p in cfg.ports && p in backends :: Has(t, FrontendSpec(cfg, p, backends[p])))
    && (forall id | id in t && t[id].Frontend? :: WantedFrontend(cfg, backends, t[id]))
  }

  ghost predicate BackendLinks(cfg: Config, t: Topology, backends: map<string, Id>) {
    && backends.Keys == cfg.ports.Keys
    && forall p | p in backends :: backends[p] in t && t[backends[p]] == BackendSpec(cfg, p)
  }

  ghost predicate FrontendLinks(cfg: Config, t: Topology, l: Links) {
    && l.frontends.Keys == l.backends.Keys
    && forall p | p in l.frontends :: l.frontends[p] in t && t[l.frontends[p]] == FrontendSpec(cfg, p, l.backends[p])
  }

  /**
    * `l` is what the steps store while they look at `t`: a layer's links are
    * filled exactly when that layer has nothing to create and nothing to destroy.
    */
  ghost predicate LinksFor(cfg: Config, t: Topology, l: Links) {
    BackendsLinked(cfg, t, l) && FrontendsLinked(cfg, t, l)
  }

  ghost predicate BackendsLinked(cfg: Config, t: Topology, l: Links) {
    if BackendsSettled(cfg, t) then BackendLinks(cfg, t, l.backends) else l.backends == map[]
  }

  ghost predicate FrontendsLinked(cfg: Config, t: Topology, l: Links) {
    if FrontendsSettled(cfg, t, l.backends) then FrontendLinks(cfg, t, l) else l.frontends == map[]
  }

  /** Nothing to destroy. */
  ghost predicate Clear(cfg: Config, t: Topology, l: Links) {
    forall id | id in t :: Wanted(cfg, l, t[id])
  }

  ghost predicate Missing(cfg: Config, t: Topology, l: Links, spec: Spec) {
    Wanted(cfg, l, spec) && !Has(t, spec)
  }

  /** Nothing to create. */
  ghost predicate Complete(cfg: Config, t: Topology, l: Links) {
    forall spec :: !Missing(cfg, t, l, spec)
  }

  /** No two Backends and no two Frontends compare equal. */
  ghost predicate UniqueParents(t: Topology) {
    forall i, j | i in t && j in t && t[i] == t[j] && (t[i].Backend? || t[i].Frontend?) :: i == j
  }

  // ---- The targets ----

  lemma TargetNamesDistinct(cfg: Config, p: string, q: string)
    ensures Names.ResourceName([p], cfg.suffix) == Names.ResourceName([q], cfg.suffix) <==> p == q
  {
    if Names.ResourceName([p], cfg.suffix) == Names.ResourceName([q], cfg.suffix) {
      assert [p] + [] == [p] && [q] + [] == [q];
      Names.FirstPartInjective(p, q, [], cfg.suffix);
    }
  }

  /**
    * No two target Servers of different nodes or ports compare equal, also
    * where their names collide.
    */
  lemma TargetServersDistinct(cfg: Config, t: Topology, l: Links, n: Node, p: string, m: Node, q: string)
    requires BackendLinks(cfg, t, l.backends)
    requires p in cfg.ports && q in cfg.ports
    ensures ServerSpec(cfg, n, p, l.backends[p]) == ServerSpec(cfg, m, q, l.backends[q]) ==> n.name == m.name && p == q
  {
    if ServerSpec(cfg, n, p, l.backends[p]) == ServerSpec(cfg, m, q, l.backends[q]) {
      TargetNamesDistinct(cfg, p, q);
      assert t[l.backends[p]] == t[l.backends[q]];
      assert [n.name, p] == [n.name] + [p] && [m.name, p] == [m.name] + [p];
      Names.FirstPartInjective(n.name, m.name, [p], cfg.suffix);
    }
  }

  lemma TargetBindsDistinct(cfg: Config, t: Topology, l: Links, a: Ip, p: string, b: Ip, q: string)
    requires FrontendLinks(cfg, t, l) && p in l.frontends && q in l.frontends && p in cfg.ports && q in cfg.ports
    ensures BindSpec(cfg, a, p, l.frontends[p]) == BindSpec(cfg, b, q, l.frontends[q]) ==> a.text == b.text && p == q
  {
    if l.frontends[p] == l.frontends[q] {
      TargetNamesDistinct(cfg, p, q);
      assert t[l.frontends[p]] == t[l.frontends[q]];
    }
  }

  // ---- Dependencies ----

  /**
    * What a wanted object refers to exists and is wanted itself. Read backwards:
    * whatever refers to an object that is to be destroyed is to be destroyed too.
    */
  lemma DependencyClosure(cfg: Config, t: Topology, l: Links, spec: Spec)
    requires LinksFor(cfg, t, l) && Wanted(cfg, l, spec)
    requires Parent(spec).Some?
    ensures Parent(spec).value in t
    ensures Wanted(cfg, l, t[Parent(spec).value])
    ensures spec.Frontend? || spec.Server? ==> t[Parent(spec).value].Backend? && t[Parent(spec).value].lb == cfg.lb
    ensures spec.Bind? ==> t[Parent(spec).value].Frontend? && t[Parent(spec).value].lb == cfg.lb
  {
    if spec.Bind? {
      var a, p :| a in cfg.addresses && p in cfg.ports && p in l.frontends
        && spec == BindSpec(cfg, a, p, l.frontends[p]);
      assert FrontendLinks(cfg, t, l);
      assert WantedFrontend(cfg, l.backends, FrontendSpec(cfg, p, l.backends[p]));
    } else if spec.Frontend? {
      var p :| p in cfg.ports && p in l.backends && spec == FrontendSpec(cfg, p, l.backends[p]);
      assert WantedBackend(cfg, BackendSpec(cfg, p));
    } else {
      var n, p :| n in cfg.nodes && p in cfg.ports && p in l.backends && spec == ServerSpec(cfg, n, p, l.backends[p]);
      assert WantedBackend(cfg, BackendSpec(cfg, p));
    }
  }
}
