/**
  * Where the intended topology leads a connection, told from the fields of its
  * resources alone.
  */
module Routing {
  import opened Common
  import opened Resources
  import opened Layout
  import opened Convergence
  import opened Statuses
  import opened Services
  import Names

  // ---- Following the references ----

  /** A Bind accepts connections there. */
  ghost predicate Accepts(t: Topology, bind: Id, address: string, port: int) {
    bind in t && t[bind].Bind? && t[bind].address == address && t[bind].port == port
  }

  /** Its Frontend passes them on to this Backend. */
  ghost predicate LeadsTo(t: Topology, bind: Id, backend: Id) {
    && bind in t && t[bind].Bind?
    && t[bind].frontend in t && t[t[bind].frontend].Frontend?
    && t[t[bind].frontend].defaultBackend == Some(backend)
  }

  /** On that Backend there is a Server for this address and port. */
  ghost predicate Offered(t: Topology, backend: Id, ip: string, port: int) {
    exists server :: server in t && t[server].Server? && t[server].backend == backend && t[server].ip == ip
                     && t[server].port == port
  }

  ghost predicate AnyNode(nodes: seq<Node>, ip: string) {
    exists n :: n in nodes && n.address.text == ip
  }

  /** A connection to `port` on `address` can end at `nodePort` on `ip`. */
  ghost predicate Reaches(t: Topology, address: string, port: int, ip: string, nodePort: int) {
    exists bind, backend ::
      Accepts(t, bind, address, port) && LeadsTo(t, bind, backend) && Offered(t, backend, ip, nodePort)
  }

  /** The ports of one name: that is the number it is known by outside, and that on the nodes. */
  ghost predicate Numbered(ports: map<string, Port>, p: string, external: int, internal: int) {
    p in ports && ports[p].external == external && ports[p].internal == internal
  }

  // ---- The intended topology ----

  lemma IntendedWants(cfg: Config, t: Topology, l: Links, id: Id)
    requires Intended(cfg, t, l) && id in t
    ensures Wanted(cfg, l, t[id])
    ensures l.backends.Keys == cfg.ports.Keys && l.frontends.Keys == cfg.ports.Keys
  {
    assert Placed(cfg, l, id, t[id]);
    hide Names.ResourceName;
    PlacedIsWanted(cfg, l, id, t[id]);
  }

  lemma FrontendLeads(cfg: Config, t: Topology, l: Links, p: string)
    requires Intended(cfg, t, l) && p in cfg.ports
    ensures p in l.frontends && p in l.backends && l.frontends[p] in t
    ensures t[l.frontends[p]].Frontend? && t[l.frontends[p]].defaultBackend == Some(l.backends[p])
  {
    hide Names.ResourceName, Placed;
    assert t[l.frontends[p]] == FrontendSpec(cfg, p, l.backends[p]);
  }

  /** Where a Bind comes from. */
  lemma BindOrigin(cfg: Config, t: Topology, l: Links, bind: Id) returns (a: Ip, p: string)
    requires Intended(cfg, t, l) && bind in t && t[bind].Bind?
    ensures a in cfg.addresses && p in cfg.ports && p in l.backends
    ensures t[bind].address == a.text && t[bind].port == cfg.ports[p].external
    ensures LeadsTo(t, bind, l.backends[p])
  {
    hide Names.ResourceName, Intended;
    IntendedWants(cfg, t, l, bind);
    a, p := WantedBindOf(cfg, l.frontends, t[bind]);
    FrontendLeads(cfg, t, l, p);
  }

  lemma WantedServerOf(cfg: Config, backends: map<string, Id>, spec: Spec) returns (n: Node, p: string)
    requires WantedServer(cfg, backends, spec)
    ensures n in cfg.nodes && p in cfg.ports && p in backends && spec == ServerSpec(cfg, n, p, backends[p])
  {
    hide ServerSpec;
    n, p :| n in cfg.nodes && p in cfg.ports && p in backends && spec == ServerSpec(cfg, n, p, backends[p]);
  }

  lemma ServerOrigin(cfg: Config, t: Topology, l: Links, server: Id) returns (n: Node, p: string)
    requires Intended(cfg, t, l) && server in t && t[server].Server?
    ensures n in cfg.nodes && p in cfg.ports && p in l.backends
    ensures t[server].ip == n.address.text && t[server].port == cfg.ports[p].internal
    ensures t[server].backend == l.backends[p]
  {
    hide Names.ResourceName, Intended;
    IntendedWants(cfg, t, l, server);
    n, p := WantedServerOf(cfg, l.backends, t[server]);
  }

  /** Different ports have different Backends. */
  lemma BackendsApart(cfg: Config, t: Topology, l: Links, p: string, q: string)
    requires Intended(cfg, t, l) && p in cfg.ports && q in cfg.ports && l.backends[p] == l.backends[q]
    ensures p == q
  {
    TargetNamesDistinct(cfg, p, q);
    assert t[l.backends[p]] == BackendSpec(cfg, p) && t[l.backends[q]] == BackendSpec(cfg, q);
  }

  /** The Backend of a port has a Server for each node, on the node port, and no other. */
  lemma BackendOffers(cfg: Config, t: Topology, l: Links, p: string, ip: string, port: int)
    requires Intended(cfg, t, l) && p in cfg.ports
    ensures Offered(t, l.backends[p], ip, port) <==> port == cfg.ports[p].internal && AnyNode(cfg.nodes, ip)
  {
    if Offered(t, l.backends[p], ip, port) {
      var server :| server in t && t[server].Server? && t[server].backend == l.backends[p] && t[server].ip == ip
        && t[server].port == port;
      var n, q := ServerOrigin(cfg, t, l, server);
      BackendsApart(cfg, t, l, p, q);
    }
    if port == cfg.ports[p].internal && AnyNode(cfg.nodes, ip) {
      var n :| n in cfg.nodes && n.address.text == ip;
      assert Has(t, ServerSpec(cfg, n, p, l.backends[p]));
    }
  }

  lemma PortAccepted(cfg: Config, t: Topology, l: Links, a: Ip, p: string) returns (bind: Id)
    requires Intended(cfg, t, l) && a in cfg.addresses && p in cfg.ports
    ensures Accepts(t, bind, a.text, cfg.ports[p].external) && LeadsTo(t, bind, l.backends[p])
  {
    assert Has(t, BindSpec(cfg, a, p, l.frontends[p]));
    bind :| bind in t && t[bind] == BindSpec(cfg, a, p, l.frontends[p]);
    assert t[l.frontends[p]] == FrontendSpec(cfg, p, l.backends[p]);
  }

  /**
    * In the intended topology every address accepts connections to the external number
    * of every port, on a Backend that has exactly the nodes for Servers, each on the
    * internal number of that very port.
    */
  lemma Routed(cfg: Config, t: Topology, a: Ip, p: string) returns (bind: Id, backend: Id)
    requires Exact(cfg, t) && a in cfg.addresses && p in cfg.ports
    ensures Accepts(t, bind, a.text, cfg.ports[p].external) && LeadsTo(t, bind, backend)
    ensures forall ip, port :: Offered(t, backend, ip, port) <==>
                               port == cfg.ports[p].internal && AnyNode(cfg.nodes, ip)
  {
    var l :| Intended(cfg, t, l);
    hide Intended, Accepts, LeadsTo, Offered, AnyNode;
    bind := PortAccepted(cfg, t, l, a, p);
    PortsHaveLinks(cfg, t, l);
    backend := l.backends[p];
    forall ip, port
      ensures Offered(t, backend, ip, port) <==> port == cfg.ports[p].internal && AnyNode(cfg.nodes, ip)
    {
      BackendOffers(cfg, t, l, p, ip, port);
    }
  }

  lemma PortsHaveLinks(cfg: Config, t: Topology, l: Links)
    requires Intended(cfg, t, l)
    ensures l.backends.Keys == cfg.ports.Keys && l.frontends.Keys == cfg.ports.Keys
  {
  }

  /**
    * A connection can end there if and only if this is intended: the address is one of
    * the service's, and some port of it has the one number outside and the other on the
    * nodes, one of which has the address it ends at.
    */
  lemma ReachesIff(cfg: Config, t: Topology, address: string, port: int, ip: string, nodePort: int)
    requires Exact(cfg, t)
    ensures Reaches(t, address, port, ip, nodePort) <==>
            && address in Texts(cfg.addresses)
            && AnyNode(cfg.nodes, ip)
            && exists p :: Numbered(cfg.ports, p, port, nodePort)
  {
    hide Intended, AnyNode, Reaches, Texts;
    var l :| Intended(cfg, t, l);
    PortsHaveLinks(cfg, t, l);
    if Reaches(t, address, port, ip, nodePort) {
      var p := ReachedIsIntended(cfg, t, l, address, port, ip, nodePort);
    }
    if address in Texts(cfg.addresses) && AnyNode(cfg.nodes, ip) && exists p :: Numbered(cfg.ports, p, port, nodePort) {
      var p :| Numbered(cfg.ports, p, port, nodePort);
      IntendedIsReached(cfg, t, l, address, port, ip, nodePort, p);
    }
  }

  lemma ReachedIsIntended(cfg: Config, t: Topology, l: Links, address: string, port: int, ip: string, nodePort: int)
    returns (p: string)
    requires Intended(cfg, t, l) && Reaches(t, address, port, ip, nodePort)
    ensures address in Texts(cfg.addresses) && AnyNode(cfg.nodes, ip) && Numbered(cfg.ports, p, port, nodePort)
  {
    hide Intended, Offered, AnyNode;
    var bind, backend :| Accepts(t, bind, address, port) && LeadsTo(t, bind, backend)
      && Offered(t, backend, ip, nodePort);
    var a;
    a, p := BindOrigin(cfg, t, l, bind);
    BackendOffers(cfg, t, l, p, ip, nodePort);
  }

  lemma IntendedIsReached(cfg: Config, t: Topology, l: Links, address: string, port: int, ip: string, nodePort: int,
                          p: string)
    requires Intended(cfg, t, l) && l.backends.Keys == cfg.ports.Keys
    requires address in Texts(cfg.addresses) && AnyNode(cfg.nodes, ip) && Numbered(cfg.ports, p, port, nodePort)
    ensures Reaches(t, address, port, ip, nodePort)
  {
    hide Intended, Offered, AnyNode, Accepts, LeadsTo;
    var a :| a in cfg.addresses && a.text == address;
    var bind := PortAccepted(cfg, t, l, a, p);
    BackendOffers(cfg, t, l, p, ip, nodePort);
  }

  /** What else is configured in a resource: names, modes and checks, and on which LoadBalancer it is. */
  ghost predicate Furnished(cfg: Config, spec: Spec) {
    match spec
    case Backend(name, mode, healthCheck, lb) =>
      mode == TCP && healthCheck == "\"adv_check\": \"tcp-check\"" && lb == cfg.lb
      && exists p :: p in cfg.ports && name == Names.ResourceName([p], cfg.suffix)
    case Frontend(name, mode, lb, backend) =>
      mode == TCP && lb == cfg.lb && backend.Some?
      && exists p :: p in cfg.ports && name == Names.ResourceName([p], cfg.suffix)
    case Bind(name, address, _, _) =>
      exists a, p :: a in cfg.addresses && p in cfg.ports && a.text == address
                     && name == Names.ResourceName([if a.v4 then "v4" else "v6", p], cfg.suffix)
    case Server(name, ip, _, check, _) =>
      check == "enabled"
      && exists n, p :: n in cfg.nodes && p in cfg.ports && n.address.text == ip
                        && name == Names.ResourceName([n.name, p], cfg.suffix)
    case Foreign => false
  }

  lemma ExactFurnished(cfg: Config, t: Topology, id: Id)
    requires Exact(cfg, t) && id in t
    ensures Furnished(cfg, t[id])
  {
    hide Names.ResourceName;
    var l :| Intended(cfg, t, l);
    IntendedWants(cfg, t, l, id);
    hide Exact, Intended;
    WantedFurnished(cfg, l, t[id]);
  }

  lemma WantedFurnished(cfg: Config, l: Links, spec: Spec)
    requires Wanted(cfg, l, spec)
    ensures Furnished(cfg, spec)
  {
    hide Names.ResourceName;
    match spec
    case Bind(_, _, _, _) =>
      var a, p := WantedBindOf(cfg, l.frontends, spec);
    case Server(_, _, _, _, _) =>
      var n, p := WantedServerOf(cfg, l.backends, spec);
    case _ =>
  }

  // ---- From the service to its nodes ----

  /** A connection to a port of the service ends at its node port on a node, once the LoadBalancer has converged. */
  lemma ServiceReachesNodes(cfg: Config, t: Topology, svcPorts: seq<ServicePort>, k: nat, a: Ip, n: Node)
    returns (port: Port16, nodePort: Port16)
    requires Exact(cfg, t) && ForPorts(cfg.ports, svcPorts) && k < |svcPorts|
    requires a in cfg.addresses && n in cfg.nodes
    ensures SameIn16(port, svcPorts[k].port) && SameIn16(nodePort, svcPorts[k].nodePort)
    ensures Reaches(t, a.text, port, n.address.text, nodePort)
  {
    hide Exact, Reaches, SameIn16, ForPorts;
    PortNumbers(cfg.ports, svcPorts, k);
    var p := svcPorts[k].name;
    port, nodePort := cfg.ports[p].external, cfg.ports[p].internal;
    assert Numbered(cfg.ports, p, port, nodePort);
    assert AnyNode(cfg.nodes, n.address.text) && a.text in Texts(cfg.addresses);
    ReachesIff(cfg, t, a.text, port, n.address.text, nodePort);
  }

  /** And nothing else is reached: whatever a connection ends at is a node, at the node port of the port it came for. */
  lemma OnlyNodesReached(cfg: Config, t: Topology, svcPorts: seq<ServicePort>, address: string, port: int, ip: string,
                         nodePort: int)
    returns (k: nat)
    requires Exact(cfg, t) && ForPorts(cfg.ports, svcPorts) && Reaches(t, address, port, ip, nodePort)
    ensures address in Texts(cfg.addresses) && AnyNode(cfg.nodes, ip) && k < |svcPorts|
    ensures 0 <= port < 0x1_0000 && SameIn16(port, svcPorts[k].port)
    ensures 0 <= nodePort < 0x1_0000 && SameIn16(nodePort, svcPorts[k].nodePort)
  {
    ReachesIff(cfg, t, address, port, ip, nodePort);
    var p :| Numbered(cfg.ports, p, port, nodePort);
    k :| 0 <= k < |svcPorts| && svcPorts[k].name == p;
    PortNumbers(cfg.ports, svcPorts, k);
  }
}
