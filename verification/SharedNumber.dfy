/** A service that uses one port number under two names, and what becomes of its status. */
module SharedNumber {
  import opened Resources
  import opened Layout
  import opened Retrieval
  import opened Convergence
  import opened Creating
  import opened Statuses
  import opened MultiRecon
  import opened Services

  /** What is there once the reconciliation of two ports on one address has converged. */
  ghost function TwoPorts(cfg: Config, p: string, q: string, a: Ip): (t: Topology)
    requires p in cfg.ports && q in cfg.ports
  {
    map[0 := BackendSpec(cfg, p), 1 := BackendSpec(cfg, q),
        2 := FrontendSpec(cfg, p, 0), 3 := FrontendSpec(cfg, q, 1),
        4 := BindSpec(cfg, a, p, 2), 5 := BindSpec(cfg, a, q, 3)]
  }

  ghost function TwoLinks(p: string, q: string): (l: Links) {
    Links(map[p := 0, q := 1], map[p := 2, q := 3])
  }

  ghost predicate TwoInputs(cfg: Config, p: string, q: string, a: Ip) {
    cfg.ports.Keys == {p, q} && p != q && cfg.addresses == [a] && cfg.nodes == []
  }

  lemma TwoPlaced(cfg: Config, p: string, q: string, a: Ip, id: Id)
    requires TwoInputs(cfg, p, q, a) && p in cfg.ports && q in cfg.ports && id in TwoPorts(cfg, p, q, a)
    ensures Placed(cfg, TwoLinks(p, q), id, TwoPorts(cfg, p, q, a)[id])
  {
    hide BackendSpec, FrontendSpec, BindSpec;
    var t, l := TwoPorts(cfg, p, q, a), TwoLinks(p, q);
    assert l.backends[p] == 0 && l.backends[q] == 1 && l.frontends[p] == 2 && l.frontends[q] == 3;
    if id == 4 {
      assert WantedBind(cfg, l.frontends, t[4]) by {
        assert a in cfg.addresses && t[4] == BindSpec(cfg, a, p, l.frontends[p]);
      }
    } else if id == 5 {
      assert WantedBind(cfg, l.frontends, t[5]) by {
        assert a in cfg.addresses && t[5] == BindSpec(cfg, a, q, l.frontends[q]);
      }
    }
  }

  lemma TwoServed(cfg: Config, p: string, q: string, a: Ip)
    requires TwoInputs(cfg, p, q, a) && p in cfg.ports && q in cfg.ports
    ensures PortsServed(cfg, TwoPorts(cfg, p, q, a), TwoLinks(p, q))
    ensures forall b, x | b in cfg.addresses && x in cfg.ports ::
              Has(TwoPorts(cfg, p, q, a), BindSpec(cfg, b, x, TwoLinks(p, q).frontends[x]))
  {
    hide BackendSpec, FrontendSpec, BindSpec;
    var t, l := TwoPorts(cfg, p, q, a), TwoLinks(p, q);
    assert l.backends[p] == 0 && l.backends[q] == 1 && l.frontends[p] == 2 && l.frontends[q] == 3;
    forall b, x | b in cfg.addresses && x in cfg.ports ensures Has(t, BindSpec(cfg, b, x, l.frontends[x])) {
      assert t[if x == p then 4 else 5] == BindSpec(cfg, b, x, l.frontends[x]);
    }
  }

  lemma TwoIntended(cfg: Config, p: string, q: string, a: Ip)
    requires TwoInputs(cfg, p, q, a) && p in cfg.ports && q in cfg.ports
    ensures Exact(cfg, TwoPorts(cfg, p, q, a))
  {
    hide TwoPorts, TwoLinks, Placed, PortsServed, BindSpec;
    var t, l := TwoPorts(cfg, p, q, a), TwoLinks(p, q);
    TwoServed(cfg, p, q, a);
    forall id | id in t ensures Placed(cfg, l, id, t[id]) {
      TwoPlaced(cfg, p, q, a, id);
    }
    assert Intended(cfg, t, l);
  }

  ghost function TwoBinds(cfg: Config, p: string, q: string, a: Ip): (binds: seq<Object>)
    requires p in cfg.ports && q in cfg.ports
  {
    [Object(4, BindSpec(cfg, a, p, 2), State(false, OK)), Object(5, BindSpec(cfg, a, q, 3), State(false, OK))]
  }

  lemma TwoShown(cfg: Config, p: string, q: string, a: Ip)
    requires p in cfg.ports && q in cfg.ports
    ensures Shows(TwoBinds(cfg, p, q, a), TwoPorts(cfg, p, q, a), Engines.Binds)
  {
    var os := TwoBinds(cfg, p, q, a);
    assert os[0] in os && os[1] in os;
  }

  /** One number under two names, as for DNS over TCP and UDP. */
  ghost function OneNumber(p: string, q: string, port: int, m: int, n: int): (svcPorts: seq<ServicePort>) {
    [ServicePort(p, port, m), ServicePort(q, port, n)]
  }

  lemma OneNumberPorts(p: string, q: string, port: int, m: int, n: int, ports: map<string, Port>)
    requires p != q && ForPorts(ports, OneNumber(p, q, port, m, n))
    ensures NamesDistinct(OneNumber(p, q, port, m, n)) && !NumbersDistinct(OneNumber(p, q, port, m, n))
    ensures p in ports && q in ports && ports.Keys == {p, q}
  {
    var svcPorts := OneNumber(p, q, port, m, n);
    assert svcPorts[0].name == p && svcPorts[1].name == q;
    assert Truncated(svcPorts[0].port) == Truncated(svcPorts[1].port);
  }

  /**
    * A service may well use one number for two protocols; nothing rejects it. There is
    * an intended topology, and once the reconciliation of a single LoadBalancer has
    * reached it, the merged status is empty all the same, and the load balancer never
    * counts as created.
    */
  lemma SameNumberIsLost(cfg: Config, p: string, q: string, port: int, m: int, n: int, a: Ip, merged: Status)
    requires p != q && ForPorts(cfg.ports, OneNumber(p, q, port, m, n)) && cfg.addresses == [a] && cfg.nodes == []
    requires p in cfg.ports && q in cfg.ports
    requires forall o | o in TwoBinds(cfg, p, q, a) :: o.spec.Bind?
    requires MergedFrom(merged, [Collect(TwoBinds(cfg, p, q, a))])
    ensures MultiRecon.Done(Part(cfg, TwoPorts(cfg, p, q, a), TwoBinds(cfg, p, q, a)), [a], cfg.ports)
    ensures merged == map[] && !ServesAll(merged, [a], OneNumber(p, q, port, m, n))
  {
    hide TwoPorts, TwoBinds, ForPorts, NamesDistinct, NumbersDistinct, Exact, Unique, Shows, MergedFrom, Collect;
    var svcPorts := OneNumber(p, q, port, m, n);
    var part := Part(cfg, TwoPorts(cfg, p, q, a), TwoBinds(cfg, p, q, a));
    OneNumberPorts(p, q, port, m, n, cfg.ports);
    TwoIntended(cfg, p, q, a);
    TwoShown(cfg, p, q, a);
    NumbersDistinctIff(cfg.ports, svcPorts);
    EndToEndStatus([part], [Collect(part.binds)], merged, [a], cfg.ports);
    assert [a][0].text !in merged;
  }
}
