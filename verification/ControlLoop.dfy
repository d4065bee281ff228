/** From the reconciliations of all LoadBalancers to the status of the service and back. */
module ControlLoop {
  import opened Common
  import opened Resources
  import opened Layout
  import opened Convergence
  import opened Statuses
  import opened MultiRecon
  import opened Services

  /** Reading the allocated addresses back gives the addresses to reconcile for, if none is unspecified. */
  lemma {:induction false} AllocatedIsExternal(parse: string -> Ip, unspecified: Ip -> bool, ips: seq<Ip>)
    requires forall ip | ip in ips :: Readable(parse, ip) && !unspecified(ip)
    ensures Specified(Parsed(parse, TextsOf(ips)), unspecified) == ips
  {
    if ips != [] {
      var rest, last := ips[..|ips| - 1], ips[|ips| - 1];
      assert ips == rest + [last];
      assert Readable(parse, last);
      AllocatedIsExternal(parse, unspecified, rest);
      assert Parsed(parse, TextsOf(ips))[..|rest|] == Parsed(parse, TextsOf(rest));
      assert Parsed(parse, TextsOf(ips))[|rest|] == last;
    }
  }

  /** It can be told which ports are served. */
  ghost predicate Tellable(svcPorts: seq<ServicePort>) {
    svcPorts != [] && NumbersDistinct(svcPorts)
  }

  /**
    * All LoadBalancers have converged for the addresses allocated to the service.
    * Then the load balancer counts as created exactly if there is a port, no two ports
    * share their number, no Bind has a twin, and the numbers fit into 16 bits. Once the
    * status is written back, the next round gives the same addresses without asking for
    * a prefix exactly if the first three are so and no hostname is written instead. With
    * a hostname, or without ports that can be told apart, it begins anew.
    */
  lemma ConvergedServiceIsAtRest(parse: string -> Ip, svc: Service, prefixes: Option<seq<Prefix>>,
                                 later: Option<seq<Prefix>>,
                                 ports: map<string, Port>, parts: seq<Part>, statuses: seq<Status>, m: Status,
                                 ingress: seq<Ingress>)
    requires Answer(parse, svc, prefixes).Some? && PrefixesFit(prefixes)
    requires forall ip | ip in Answer(parse, svc, prefixes).value :: Readable(parse, ip)
    requires NamesDistinct(svc.ports) && ForPorts(ports, svc.ports)
    requires AllDone(parts, statuses, Answer(parse, svc, prefixes).value, ports)
    requires MergedFrom(m, statuses) && LbStatus(ingress, m, svc.hostname)
    ensures var ips := Answer(parse, svc, prefixes).value;
            var svc' := svc.(ingress := ingress);
            var told := Tellable(svc.ports) && NoneTwins(parts);
            && (ServesAll(m, ips, svc.ports) <==> ips == [] || (told && AllFit16(svc.ports)))
            && (SameAddresses(Answer(parse, svc', None), ips) <==> ips == [] || (told && svc.hostname == ""))
            && (told && svc.hostname == "" ==> SameAddresses(Answer(parse, svc', later), ips))
            && (svc.hostname != "" || !Tellable(svc.ports) ==>
                  Answer(parse, svc', later) == Shares([], later, Families(svc).value))
  {
    var ips := Answer(parse, svc, prefixes).value;
    NumbersDistinctIff(ports, svc.ports);
    EndToEndStatus(parts, statuses, m, ips, ports);
    hide ServesAll, AllFit16, LbStatus, Answer, PrefixesFit, MergedFrom, AllDone, NoneTwins, Readable, SameAddresses;
    MergedKeys(m, ips, ports, svc.ports);
    MergedCreated(m, ips, ports, svc.ports);
    hide Reports, NumbersDistinct, DistinctPorts, ForPorts;
    if svc.hostname != "" || !Tellable(svc.ports) {
      AllocationAnew(parse, svc, prefixes, m, ingress, later);
    }
    AllocatedAgain(parse, svc, prefixes, m, ingress, later);
  }

  /** The merged status lists all addresses exactly if there is something to list and it can be told. */
  lemma MergedKeys(m: Status, ips: seq<Ip>, ports: map<string, Port>, svcPorts: seq<ServicePort>)
    requires ForPorts(ports, svcPorts) && (DistinctPorts(ports) <==> NumbersDistinct(svcPorts))
    requires !Reports(m, Texts(ips), ports) ==> !(Texts(ips) <= m.Keys)
    requires m.Keys <= Texts(ips) && (!DistinctPorts(ports) || ports == map[] ==> m == map[])
    ensures !Tellable(svcPorts) ==> m == map[]
    ensures ips != [] ==> (m.Keys == Texts(ips) <==> Tellable(svcPorts) && Reports(m, Texts(ips), ports))
  {
    if svcPorts != [] {
      assert svcPorts[0].name in ports;
    }
    if ips != [] {
      assert ips[0] in ips && ips[0].text in Texts(ips);
    }
  }

  lemma MergedCreated(m: Status, ips: seq<Ip>, ports: map<string, Port>, svcPorts: seq<ServicePort>)
    requires ForPorts(ports, svcPorts)
    requires !Reports(m, Texts(ips), ports) ==> !(Texts(ips) <= m.Keys)
    ensures ServesAll(m, ips, svcPorts) <==>
            ips == [] || (svcPorts != [] && AllFit16(svcPorts) && Reports(m, Texts(ips), ports))
  {
    if Reports(m, Texts(ips), ports) {
      IntendedIsCreated(m, ips, ports, svcPorts);
    } else {
      var a :| a in Texts(ips) && a !in m;
      var i :| 0 <= i < |ips| && ips[i].text == a;
    }
  }

  lemma AllocatedAgain(parse: string -> Ip, svc: Service, prefixes: Option<seq<Prefix>>, m: Status,
                       ingress: seq<Ingress>, later: Option<seq<Prefix>>)
    requires Answer(parse, svc, prefixes).Some? && PrefixesFit(prefixes) && LbStatus(ingress, m, svc.hostname)
    requires forall ip | ip in Answer(parse, svc, prefixes).value :: Readable(parse, ip)
    requires m.Keys <= Texts(Answer(parse, svc, prefixes).value)
    ensures var ips := Answer(parse, svc, prefixes).value;
            var svc' := svc.(ingress := ingress);
            && (SameAddresses(Answer(parse, svc', None), ips) <==>
                  ips == [] || (m.Keys == Texts(ips) && svc.hostname == ""))
            && (m.Keys == Texts(ips) && svc.hostname == "" ==> SameAddresses(Answer(parse, svc', later), ips))
  {
    var ips := Answer(parse, svc, prefixes).value;
    hide Answer, LbStatus, PrefixesFit, Readable;
    if svc.hostname != "" || ips == [] {
      AllocationAnew(parse, svc, prefixes, m, ingress, None);
      AllocationAnew(parse, svc, prefixes, m, ingress, later);
    }
    if svc.hostname == "" && m.Keys == Texts(ips) {
      AllocationIsStable(parse, svc, prefixes, m, ingress, None);
      AllocationIsStable(parse, svc, prefixes, m, ingress, later);
    } else if svc.hostname == "" {
      LostIsForgotten(parse, svc, m, ingress, ips);
    }
  }

  /** A port is listed for the service: some port of it has this number once it is cut to 16 bits. */
  ghost predicate ServicePortOf(x: int, svcPorts: seq<ServicePort>) {
    0 < x < 0x1_0000 && exists k :: 0 <= k < |svcPorts| && SameIn16(x, svcPorts[k].port)
  }

  /**
    * The status written back for a service whose merged status is the intended one: one
    * entry for each address, or a single one with the hostname and no address; each lists
    * the numbers of the service's ports, cut to 16 bits, strictly increasing and without zero.
    */
  lemma WrittenStatus(m: Status, addresses: seq<Ip>, ports: map<string, Port>, svcPorts: seq<ServicePort>,
                      ingress: seq<Ingress>, hostname: string)
    requires Reports(m, Texts(addresses), ports) && ForPorts(ports, svcPorts) && addresses != []
    requires LbStatus(ingress, m, hostname)
    ensures forall i, x | 0 <= i < |ingress| :: x in ingress[i].ports <==> ServicePortOf(x, svcPorts)
    ensures forall i, j, k | 0 <= i < |ingress| && 0 <= j < k < |ingress[i].ports| ::
              ingress[i].ports[j] < ingress[i].ports[k]
    ensures hostname != "" ==> |ingress| == 1 && ingress[0].ip == "" && ingress[0].hostname == hostname
    ensures hostname == "" && svcPorts != [] ==> forall a :: a in Texts(addresses) <==>
              exists i :: 0 <= i < |ingress| && ingress[i].ip == a
  {
    assert addresses[0] in addresses;
    if svcPorts != [] {
      assert svcPorts[0].name in ports;
    }
    forall x ensures x != 0 && InSome(m, x) <==> ServicePortOf(x, svcPorts) {
      PortInSome(m, addresses, ports, svcPorts, x);
    }
    forall i, j, k | 0 <= i < |ingress| && 0 <= j < k < |ingress[i].ports|
      ensures ingress[i].ports[j] < ingress[i].ports[k]
    {
      assert ReportedPorts(ingress[i].ports, m);
    }
  }

  lemma PortInSome(m: Status, addresses: seq<Ip>, ports: map<string, Port>, svcPorts: seq<ServicePort>, x: int)
    requires Reports(m, Texts(addresses), ports) && ForPorts(ports, svcPorts) && addresses != []
    ensures x != 0 && InSome(m, x) <==> ServicePortOf(x, svcPorts)
  {
    var a := addresses[0].text;
    assert addresses[0] in addresses && a in Texts(addresses);
    if x != 0 && InSome(m, x) {
      var b :| b in m && Carries(m[b], x);
      var j :| 0 <= j < |m[b]| && m[b][j] as int == x;
      assert m[b][j] in m[b];
      var p :| p in ports && ports[p].external == m[b][j];
      var k :| 0 <= k < |svcPorts| && svcPorts[k].name == p;
      PortNumbers(ports, svcPorts, k);
    }
    if ServicePortOf(x, svcPorts) {
      var k :| 0 <= k < |svcPorts| && SameIn16(x, svcPorts[k].port);
      PortNumbers(ports, svcPorts, k);
      SameIn16Once(x, ports[svcPorts[k].name].external, svcPorts[k].port);
      var y: Port16 := x;
      assert External(ports, y);
      assert y in m[a];
      var j :| 0 <= j < |m[a]| && m[a][j] == y;
      assert Carries(m[a], x);
    }
  }

  lemma SameIn16Once(x: Port16, y: Port16, number: int)
    requires SameIn16(x, number) && SameIn16(y, number)
    ensures x == y
  {
    var v :| number == x + 0x1_0000 * v;
    var w :| number == y + 0x1_0000 * w;
  }

  /** What the callers of the provider's methods configure once. */
  datatype Setup = Setup(loadBalancers: seq<Id>, suffix: string, tag: string, backoffSteps: int)

  ghost predicate Configured(cfgs: seq<Config>, setup: Setup, addresses: seq<Ip>, ports: map<string, Port>,
                             nodes: seq<Node>) {
    && |cfgs| == |setup.loadBalancers|
    && forall k | 0 <= k < |cfgs| ::
         cfgs[k] == Config(setup.loadBalancers[k], setup.suffix, setup.tag, addresses, ports, nodes, setup.backoffSteps)
  }

  /**
    * reconciliationForService: one reconciliation for each LoadBalancer. A service
    * that is being deleted is reconciled for nothing at all. A node is None if it
    * has no usable address, which is an error, and so is a LoadBalancer that cannot be
    * fetched; `present` are those that can.
    */
  method ReconciliationForService(parse: string -> Ip, unspecified: Ip -> bool, svc: Service, nodes: seq<Option<Node>>,
                                  prefixes: Option<seq<Prefix>>, taken: Option<seq<Ip>>, setup: Setup, present: set<Id>)
    returns (cfgs: Option<seq<Config>>, externalAddresses: seq<Ip>)
    ensures svc.deleted ==> (cfgs.Some? <==> AllPresent(setup, present))
    ensures svc.deleted && cfgs.Some? ==> externalAddresses == [] && Configured(cfgs.value, setup, [], map[], [])
    ensures !svc.deleted ==>
              (cfgs.Some? <==>
                && AllPresent(setup, present)
                && NamesDistinct(svc.ports) && (forall k | 0 <= k < |nodes| :: nodes[k].Some?)
                && Answer(parse, svc, prefixes).Some?
                && AllFree(parse, unspecified, TextsOf(Answer(parse, svc, prefixes).value), taken))
    ensures !svc.deleted && cfgs.Some? ==>
              && externalAddresses == Specified(Parsed(parse, TextsOf(Answer(parse, svc, prefixes).value)), unspecified)
              && exists ports, servers ::
                   && ForPorts(ports, svc.ports)
                   && |servers| == |nodes| && (forall k | 0 <= k < |nodes| :: servers[k] == nodes[k].value)
                   && Configured(cfgs.value, setup, externalAddresses, ports, servers)
  {
    externalAddresses := [];
    var ports: map<string, Port> := map[];
    var servers: seq<Node> := [];
    if !svc.deleted {
      var named := PortsOf(svc.ports);
      if named.None? {
        return None, [];
      }
      ports := named.value;
      for i := 0 to |nodes|
        invariant |servers| == i && forall k | 0 <= k < i :: nodes[k].Some? && servers[k] == nodes[k].value
      {
        if nodes[i].None? {
          return None, [];
        }
        servers := servers + [nodes[i].value];
      }
      var given := AllocateAddresses(parse, svc, prefixes);
      if given.None? {
        return None, [];
      }
      var external := ExternalAddresses(parse, unspecified, given.value, taken);
      if external.None? {
        return None, [];
      }
      externalAddresses := external.value;
    }
    cfgs := NewReconciliations(setup, present, externalAddresses, ports, servers);
  }

  /** Every LoadBalancer can be fetched. */
  ghost predicate AllPresent(setup: Setup, present: set<Id>) {
    forall k | 0 <= k < |setup.loadBalancers| :: setup.loadBalancers[k] in present
  }

  /** The loop over the LoadBalancers; New fetches each of them first. */
  method NewReconciliations(setup: Setup, present: set<Id>, addresses: seq<Ip>, ports: map<string, Port>,
                            nodes: seq<Node>)
    returns (cfgs: Option<seq<Config>>)
    ensures cfgs.Some? <==> AllPresent(setup, present)
    ensures cfgs.Some? ==> Configured(cfgs.value, setup, addresses, ports, nodes)
  {
    var result: seq<Config> := [];
    for i := 0 to |setup.loadBalancers|
      invariant |result| == i && forall k | 0 <= k < i :: setup.loadBalancers[k] in present
      invariant forall k | 0 <= k < i ::
                  result[k] == Config(setup.loadBalancers[k], setup.suffix, setup.tag, addresses, ports, nodes,
                    setup.backoffSteps)
    {
      if setup.loadBalancers[i] !in present {
        return None;
      }
      result := result + [Config(setup.loadBalancers[i], setup.suffix, setup.tag, addresses, ports, nodes,
        setup.backoffSteps)];
    }
    cfgs := Some(result);
  }

  /** Reconciling a deleted service is finished when nothing is left of it, and only then. */
  lemma DeletedMeansGone(cfgs: seq<Config>, setup: Setup, k: nat, t: Topology)
    requires Configured(cfgs, setup, [], map[], []) && k < |cfgs|
    ensures Exact(cfgs[k], t) <==> t == map[]
  {
    NoPortsNothing(cfgs[k], t);
  }
}
