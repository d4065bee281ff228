/** The status of one reconciliation: which ports its Binds serve on which address. */
module Statuses {
  import opened Common
  import opened Resources
  import opened Layout
  import opened Engines
  import opened Retrieval
  import opened Convergence
  import opened Creating
  import opened Steps

  /** Ports by address. */
  type Status = map<string, seq<Port16>>

  /** Go's conversion of an int to uint16. */
  function Truncated(port: int): (p: Port16) {
    port % 0x1_0000
  }

  /** Both are the same number once they are cut to 16 bits; small enough numbers are the same anyway. */
  ghost predicate SameIn16(p: Port16, number: int) {
    && (exists wraps: int :: number == p + 0x1_0000 * wraps)
    && (0 <= number < 0x1_0000 ==> p == number)
  }

  lemma TruncatedIs(number: int)
    ensures SameIn16(Truncated(number), number)
  {
    assert number == Truncated(number) + 0x1_0000 * (number / 0x1_0000);
  }

  ghost predicate Serves(o: Object, address: string, port: Port16) {
    o.spec.Bind? && o.spec.address == address && Truncated(o.spec.port) == port
  }

  ghost predicate Offers(m: Status, address: string, port: Port16) {
    address in m && port in m[address]
  }

  /** One more port for an address. */
  ghost function WithPort(m: Status, address: string, port: Port16): (m': Status) {
    m[address := (if address in m then m[address] else []) + [port]]
  }

  /** What Status collects from the Binds, in their order. */
  ghost function Collect(binds: seq<Object>): (m: Status)
    requires forall o | o in binds :: o.spec.Bind?
  {
    if binds == [] then map[]
    else
      var last := binds[|binds| - 1].spec;
      WithPort(Collect(binds[..|binds| - 1]), last.address, Truncated(last.port))
  }

  lemma CollectAppend(binds: seq<Object>, o: Object)
    requires (forall x | x in binds :: x.spec.Bind?) && o.spec.Bind?
    ensures forall x | x in binds + [o] :: x.spec.Bind?
    ensures Collect(binds + [o]) == WithPort(Collect(binds), o.spec.address, Truncated(o.spec.port))
  {
    assert (binds + [o])[..|binds|] == binds;
  }

  lemma CollectStep(binds: seq<Object>, i: nat)
    requires (forall x | x in binds :: x.spec.Bind?) && i < |binds|
    ensures Collect(binds[..i + 1]) ==
            WithPort(Collect(binds[..i]), binds[i].spec.address, Truncated(binds[i].spec.port))
  {
    assert binds[..i + 1] == binds[..i] + [binds[i]];
    CollectAppend(binds[..i], binds[i]);
  }

  /** An address is listed with a port exactly if a Bind serves the port there, and is never listed with none. */
  lemma {:induction false} CollectHas(binds: seq<Object>, address: string, port: Port16)
    requires forall o | o in binds :: o.spec.Bind?
    ensures Offers(Collect(binds), address, port) <==> exists o :: o in binds && Serves(o, address, port)
    ensures address in Collect(binds) ==> Collect(binds)[address] != []
  {
    if binds != [] {
      var rest, last := binds[..|binds| - 1], binds[|binds| - 1];
      assert binds == rest + [last];
      CollectHas(rest, address, port);
      CollectAppend(rest, last);
      if exists o :: o in binds && Serves(o, address, port) {
        var o :| o in binds && Serves(o, address, port);
        assert o in rest || o == last;
      }
      if exists o :: o in rest && Serves(o, address, port) {
        var o :| o in rest && Serves(o, address, port);
        assert o in binds;
      }
      assert last in binds;
    }
  }

  ghost function BindsAt(binds: seq<Object>, address: string): (places: set<nat>) {
    set i: nat | i < |binds| && binds[i].spec.Bind? && binds[i].spec.address == address
  }

  /** What is listed for an address are the ports of the Binds there, one by one, in their order. */
  ghost predicate PortsInOrder(ports: seq<Port16>, there: seq<Object>) {
    && |ports| == |there|
    && forall j | 0 <= j < |there| :: there[j].spec.Bind? && SameIn16(ports[j], there[j].spec.port)
  }

  lemma PortsOneMore(ports: seq<Port16>, there: seq<Object>, bind: Object)
    requires (ports == [] && there == []) || PortsInOrder(ports, there)
    requires bind.spec.Bind?
    ensures PortsInOrder(ports + [Truncated(bind.spec.port)], there + [bind])
  {
    TruncatedIs(bind.spec.port);
  }

  lemma {:induction false} CollectPicked(binds: seq<Object>, address: string) returns (there: seq<Object>)
    requires forall o | o in binds :: o.spec.Bind?
    ensures Picks(there, binds, BindsAt(binds, address))
    ensures address in Collect(binds) <==> there != []
    ensures address in Collect(binds) ==> PortsInOrder(Collect(binds)[address], there)
  {
    hide Picks, SameIn16, Truncated, PortsInOrder;
    if binds == [] {
      PicksNothing<Object>([]);
      there := [];
      assert BindsAt(binds, address) == {};
    } else {
      var rest, last := binds[..|binds| - 1], binds[|binds| - 1];
      assert binds == rest + [last] && last in binds;
      there := CollectPicked(rest, address);
      PicksMore(there, rest, BindsAt(rest, address), last);
      CollectAppend(rest, last);
      if last.spec.address == address {
        var before := if address in Collect(rest) then Collect(rest)[address] else [];
        PortsOneMore(before, there, last);
        there := there + [last];
        assert BindsAt(binds, address) == BindsAt(rest, address) + {|rest|};
      } else {
        assert BindsAt(binds, address) == BindsAt(rest, address);
      }
    }
  }

  /** No two Binds serve the same port on the same address. */
  ghost predicate ServedOnce(binds: seq<Object>) {
    forall i, j | 0 <= i < j < |binds| && binds[i].spec.Bind? && binds[j].spec.Bind? ::
      !Serves(binds[j], binds[i].spec.address, Truncated(binds[i].spec.port))
  }

  lemma {:induction false} CollectOnce(binds: seq<Object>, address: string)
    requires forall o | o in binds :: o.spec.Bind?
    requires ServedOnce(binds)
    ensures address in Collect(binds) ==> NoDup(Collect(binds)[address])
  {
    if binds != [] {
      var rest, last := binds[..|binds| - 1], binds[|binds| - 1];
      assert binds == rest + [last];
      CollectOnce(rest, address);
      CollectAppend(rest, last);
      var port := Truncated(last.spec.port);
      if last.spec.address == address && address in Collect(rest) {
        CollectHas(rest, address, port);
        forall o | o in rest ensures !Serves(o, address, port) {
          var i :| 0 <= i < |rest| && rest[i] == o;
          assert binds[i] == o;
        }
        NoDupAppend(Collect(rest)[address], port);
      }
    }
  }

  /** External ports of different ports differ. */
  ghost predicate DistinctPorts(ports: map<string, Port>) {
    forall p, q | p in ports && q in ports && ports[p].external == ports[q].external :: p == q
  }

  /** Two differently named ports have this number. */
  ghost predicate Shared(ports: map<string, Port>, x: Port16) {
    exists p, q :: p in ports && q in ports && p != q && ports[p].external == x && ports[q].external == x
  }

  ghost predicate External(ports: map<string, Port>, port: Port16) {
    exists p :: p in ports && ports[p].external == port
  }

  /** Exactly these addresses, each with exactly the external ports, each of them once. */
  ghost predicate Reports(m: Status, addresses: set<string>, ports: map<string, Port>) {
    && m.Keys == (if ports == map[] then {} else addresses)
    && forall a | a in m ::
         && NoDup(m[a])
         && (forall x: Port16 :: x in m[a] <==> External(ports, x))
  }

  ghost function Texts(addresses: seq<Ip>): (texts: set<string>) {
    set a | a in addresses :: a.text
  }

  /** Every Bind is an intended one. */
  ghost predicate BindsWanted(cfg: Config, t: Topology, frontends: map<string, Id>) {
    frontends.Keys == cfg.ports.Keys && forall id | id in t && t[id].Bind? :: WantedBind(cfg, frontends, t[id])
  }

  /** Every intended Bind is there. */
  ghost predicate BindsPresent(cfg: Config, t: Topology, frontends: map<string, Id>) {
    && frontends.Keys == cfg.ports.Keys
    && forall a, p | a in cfg.addresses && p in cfg.ports :: Has(t, BindSpec(cfg, a, p, frontends[p]))
  }

  lemma IntendedBinds(cfg: Config, t: Topology, l: Links)
    requires Intended(cfg, t, l)
    ensures BindsWanted(cfg, t, l.frontends) && BindsPresent(cfg, t, l.frontends)
  {
    assert BindsPresent(cfg, t, l.frontends);
    hide BindsPresent;
    forall id | id in t && t[id].Bind? ensures WantedBind(cfg, l.frontends, t[id]) {
      PlacedIsWanted(cfg, l, id, t[id]);
    }
  }

  /** Where a Bind of the intended topology comes from. */
  lemma BindOf(cfg: Config, t: Topology, fs: map<string, Id>, binds: seq<Object>, o: Object) returns (a: Ip, p: string)
    requires BindsWanted(cfg, t, fs) && Shows(binds, t, Binds) && o in binds
    ensures a in cfg.addresses && p in cfg.ports && p in fs && o.spec == BindSpec(cfg, a, p, fs[p])
    ensures Serves(o, a.text, cfg.ports[p].external)
  {
    assert o.id in t && t[o.id] == o.spec && o.spec.Bind?;
    a, p := WantedBindOf(cfg, fs, o.spec);
    BindServes(cfg, o, a, p, fs[p]);
  }

  lemma WantedBindOf(cfg: Config, fs: map<string, Id>, spec: Spec) returns (a: Ip, p: string)
    requires WantedBind(cfg, fs, spec)
    ensures a in cfg.addresses && p in cfg.ports && p in fs && spec == BindSpec(cfg, a, p, fs[p])
  {
    hide BindSpec;
    a, p :| a in cfg.addresses && p in cfg.ports && p in fs && spec == BindSpec(cfg, a, p, fs[p]);
  }

  lemma BindServes(cfg: Config, o: Object, a: Ip, p: string, f: Id)
    requires p in cfg.ports && o.spec == BindSpec(cfg, a, p, f)
    ensures Serves(o, a.text, cfg.ports[p].external)
  {
  }

  /** No two Binds on the same Frontend serve the same port on the same address. */
  ghost predicate NoTwins(t: Topology) {
    forall i, j | i in t && j in t && Twins(t[i], t[j]) :: i == j
  }

  ghost predicate Twins(x: Spec, y: Spec) {
    x.Bind? && y.Bind? && x.address == y.address && x.port == y.port && x.frontend == y.frontend
  }

  lemma IntendedServedOnce(cfg: Config, t: Topology, fs: map<string, Id>, binds: seq<Object>)
    requires BindsWanted(cfg, t, fs) && NoTwins(t) && Shows(binds, t, Binds) && DistinctPorts(cfg.ports)
    ensures ServedOnce(binds)
  {
    forall i, j | 0 <= i < j < |binds| && binds[i].spec.Bind? && binds[j].spec.Bind?
      ensures !Serves(binds[j], binds[i].spec.address, Truncated(binds[i].spec.port))
    {
      assert binds[i] in binds && binds[j] in binds;
      var a, p := BindOf(cfg, t, fs, binds, binds[i]);
      var b, q := BindOf(cfg, t, fs, binds, binds[j]);
      SameBind(cfg, t, fs, binds[i], a, p, binds[j], b, q);
    }
  }

  lemma SameBind(cfg: Config, t: Topology, fs: map<string, Id>, x: Object, a: Ip, p: string, y: Object, b: Ip,
                 q: string)
    requires DistinctPorts(cfg.ports) && NoTwins(t)
    requires p in cfg.ports && q in cfg.ports && p in fs && q in fs
    requires x.spec == BindSpec(cfg, a, p, fs[p]) && y.spec == BindSpec(cfg, b, q, fs[q])
    requires x.id in t && y.id in t && t[x.id] == x.spec && t[y.id] == y.spec
    ensures Serves(y, x.spec.address, Truncated(x.spec.port)) ==> x.id == y.id
  {
    if Serves(y, x.spec.address, Truncated(x.spec.port)) {
      assert p == q;
      assert Twins(t[x.id], t[y.id]);
    }
  }

  /** With distinct addresses, objects that are all different have no twins among them. */
  lemma UniqueNoTwins(cfg: Config, t: Topology)
    requires Exact(cfg, t) && Unique(t) && DistinctAddresses(cfg.addresses)
    ensures NoTwins(t)
  {
    var l :| Intended(cfg, t, l);
    IntendedBinds(cfg, t, l);
    ServedPortsSettled(cfg, t, l);
    hide Intended;
    forall i, j | i in t && j in t && Twins(t[i], t[j]) ensures i == j {
      var a, p := WantedBindOf(cfg, l.frontends, t[i]);
      var b, q := WantedBindOf(cfg, l.frontends, t[j]);
      FrontendsApart(cfg, t, l, p, q);
      assert a.text == b.text;
      SameAddress(cfg, a, b);
    }
  }

  lemma FrontendsApart(cfg: Config, t: Topology, l: Links, p: string, q: string)
    requires FrontendLinks(cfg, t, l) && p in l.frontends && q in l.frontends
    ensures l.frontends[p] == l.frontends[q] ==> p == q
  {
    if l.frontends[p] == l.frontends[q] {
      TargetNamesDistinct(cfg, p, q);
      assert t[l.frontends[p]] == t[l.frontends[q]];
    }
  }

  lemma SameAddress(cfg: Config, a: Ip, b: Ip)
    requires DistinctAddresses(cfg.addresses) && a in cfg.addresses && b in cfg.addresses && a.text == b.text
    ensures a == b
  {
  }

  lemma ServedIsIntended(cfg: Config, t: Topology, fs: map<string, Id>, binds: seq<Object>, o: Object, address: string,
                         port: Port16)
    requires BindsWanted(cfg, t, fs) && Shows(binds, t, Binds) && o in binds && Serves(o, address, port)
    ensures address in Texts(cfg.addresses) && External(cfg.ports, port)
  {
    var a, p := BindOf(cfg, t, fs, binds, o);
  }

  lemma IntendedIsServed(cfg: Config, t: Topology, fs: map<string, Id>, binds: seq<Object>, a: Ip, p: string)
    requires BindsPresent(cfg, t, fs) && Shows(binds, t, Binds) && a in cfg.addresses && p in cfg.ports
    ensures exists o :: o in binds && Serves(o, a.text, cfg.ports[p].external)
  {
    var id :| id in t && t[id] == BindSpec(cfg, a, p, fs[p]);
    var o :| o in binds && o.id == id;
    assert Serves(o, a.text, cfg.ports[p].external);
  }

  lemma IntendedServes(cfg: Config, t: Topology, fs: map<string, Id>, binds: seq<Object>, address: string, port: Port16)
    requires BindsWanted(cfg, t, fs) && BindsPresent(cfg, t, fs) && Shows(binds, t, Binds)
    ensures (exists o :: o in binds && Serves(o, address, port)) <==>
              address in Texts(cfg.addresses) && External(cfg.ports, port)
  {
    hide BindsWanted, BindsPresent, Shows;
    if exists o :: o in binds && Serves(o, address, port) {
      var o :| o in binds && Serves(o, address, port);
      ServedIsIntended(cfg, t, fs, binds, o, address, port);
    }
    if address in Texts(cfg.addresses) && External(cfg.ports, port) {
      var a :| a in cfg.addresses && a.text == address;
      var p :| p in cfg.ports && cfg.ports[p].external == port;
      IntendedIsServed(cfg, t, fs, binds, a, p);
    }
  }

  /** A status that lists these pairs only, each once, and no address without ports. */
  lemma PairsReport(m: Status, addresses: set<string>, ports: map<string, Port>)
    requires forall a, x: Port16 :: Offers(m, a, x) <==> a in addresses && External(ports, x)
    requires forall a | a in m :: m[a] != [] && (a in addresses ==> NoDup(m[a]))
    ensures Reports(m, addresses, ports)
  {
    forall a | a in m ensures a in addresses && ports != map[] {
      assert Offers(m, a, m[a][0]);
    }
    forall a, x: Port16 | a in m ensures x in m[a] <==> External(ports, x) {
      assert Offers(m, a, x) <==> x in m[a];
    }
    if ports != map[] {
      var p :| p in ports;
      assert External(ports, ports[p].external);
      forall a | a in addresses ensures a in m {
        assert Offers(m, a, ports[p].external);
      }
    }
  }

  ghost predicate Twice(m: Status, address: string, port: Port16) {
    Offers(m, address, port) && multiset(m[address])[port] >= 2
  }

  ghost predicate ListsTwice(m: Status) {
    exists address, port: Port16 :: Twice(m, address, port)
  }

  lemma {:induction false} CollectTwice(binds: seq<Object>, i: nat, j: nat, address: string, port: Port16)
    requires (forall o | o in binds :: o.spec.Bind?) && i < j < |binds|
    requires Serves(binds[i], address, port) && Serves(binds[j], address, port)
    ensures Twice(Collect(binds), address, port)
  {
    var rest, last := binds[..|binds| - 1], binds[|binds| - 1];
    assert binds == rest + [last];
    CollectAppend(rest, last);
    if j < |rest| {
      CollectTwice(rest, i, j, address, port);
    } else {
      assert rest[i] in rest;
      CollectHas(rest, address, port);
    }
  }

  /** The Binds of two ports with the same number serve it twice, on every address. */
  lemma SharedPortTwice(cfg: Config, t: Topology, l: Links, binds: seq<Object>, a: Ip, p: string, q: string)
    requires Intended(cfg, t, l) && Shows(binds, t, Binds) && forall o | o in binds :: o.spec.Bind?
    requires a in cfg.addresses && p in cfg.ports && q in cfg.ports && p != q
    requires cfg.ports[p].external == cfg.ports[q].external
    ensures Twice(Collect(binds), a.text, cfg.ports[p].external)
  {
    ServedPortsSettled(cfg, t, l);
    TargetBindsDistinct(cfg, t, l, a, p, a, q);
    var i := BindAt(cfg, t, l.frontends, binds, a, p);
    var j := BindAt(cfg, t, l.frontends, binds, a, q);
    if i < j {
      CollectTwice(binds, i, j, a.text, cfg.ports[p].external);
    } else {
      CollectTwice(binds, j, i, a.text, cfg.ports[p].external);
    }
  }

  lemma BindAt(cfg: Config, t: Topology, fs: map<string, Id>, binds: seq<Object>, a: Ip, p: string) returns (i: nat)
    requires p in cfg.ports && p in fs && Has(t, BindSpec(cfg, a, p, fs[p])) && Shows(binds, t, Binds)
    ensures i < |binds| && binds[i].spec == BindSpec(cfg, a, p, fs[p])
    ensures Serves(binds[i], a.text, cfg.ports[p].external)
  {
    var id :| id in t && t[id] == BindSpec(cfg, a, p, fs[p]);
    var o :| o in binds && o.id == id;
    i :| 0 <= i < |binds| && binds[i] == o;
  }

  /** Two Binds that are twins serve their port twice. */
  lemma TwinsTwice(t: Topology, binds: seq<Object>) returns (address: string, port: Port16)
    requires !NoTwins(t) && Shows(binds, t, Binds) && forall o | o in binds :: o.spec.Bind?
    ensures Twice(Collect(binds), address, port)
  {
    var i, j :| i in t && j in t && Twins(t[i], t[j]) && i != j;
    address, port := t[i].address, Truncated(t[i].port);
    var x := ShownAt(t, binds, i);
    var y := ShownAt(t, binds, j);
    if x < y {
      CollectTwice(binds, x, y, address, port);
    } else {
      CollectTwice(binds, y, x, address, port);
    }
  }

  lemma ShownAt(t: Topology, binds: seq<Object>, id: Id) returns (i: nat)
    requires Shows(binds, t, Binds) && id in t && t[id].Bind?
    ensures i < |binds| && binds[i].id == id && binds[i].spec == t[id]
  {
    var o :| o in binds && o.id == id;
    i :| 0 <= i < |binds| && binds[i] == o;
  }

  lemma ShowsBinds(t: Topology, binds: seq<Object>)
    requires Shows(binds, t, Binds)
    ensures forall o | o in binds :: o.spec.Bind?
  {
    forall o | o in binds ensures o.spec.Bind? {
      assert KindOf(o.spec) == Binds;
    }
  }

  /** On the intended topology the status lists the external ports for the external addresses, and no others. */
  lemma ExactPairs(cfg: Config, t: Topology, binds: seq<Object>)
    requires Exact(cfg, t) && Shows(binds, t, Binds)
    ensures forall o | o in binds :: o.spec.Bind?
    ensures forall a, x: Port16 :: Offers(Collect(binds), a, x) <==> a in Texts(cfg.addresses) && External(cfg.ports, x)
    ensures forall a, x: Port16 | a in Texts(cfg.addresses) && Shared(cfg.ports, x) :: Twice(Collect(binds), a, x)
  {
    var l :| Intended(cfg, t, l);
    hide Intended, BindsWanted, BindsPresent, Shows, Serves;
    IntendedBinds(cfg, t, l);
    ShowsBinds(t, binds);
    forall a, x: Port16 ensures Offers(Collect(binds), a, x) <==> a in Texts(cfg.addresses) && External(cfg.ports, x) {
      CollectHas(binds, a, x);
      IntendedServes(cfg, t, l.frontends, binds, a, x);
    }
    forall a, x: Port16 | a in Texts(cfg.addresses) && Shared(cfg.ports, x) ensures Twice(Collect(binds), a, x) {
      var ip :| ip in cfg.addresses && ip.text == a;
      var p, q :| p in cfg.ports && q in cfg.ports && p != q && cfg.ports[p].external == x
        && cfg.ports[q].external == x;
      SharedPortTwice(cfg, t, l, binds, ip, p, q);
    }
  }

  lemma ExactOnce(cfg: Config, t: Topology, binds: seq<Object>)
    requires Exact(cfg, t) && NoTwins(t) && Shows(binds, t, Binds) && DistinctPorts(cfg.ports)
    ensures (forall o | o in binds :: o.spec.Bind?) && forall a | a in Collect(binds) :: NoDup(Collect(binds)[a])
  {
    var l :| Intended(cfg, t, l);
    hide Intended, BindsWanted, BindsPresent, Shows, Serves, ServedOnce, NoTwins, DistinctPorts;
    IntendedBinds(cfg, t, l);
    ShowsBinds(t, binds);
    IntendedServedOnce(cfg, t, l.frontends, binds);
    forall a | a in Collect(binds) ensures NoDup(Collect(binds)[a]) {
      CollectOnce(binds, a);
    }
  }

  /**
    * On the intended topology the status is the intended one if and only if no two
    * ports share their number and no Bind has a twin;
    * what is served twice is listed twice.
    */
  lemma ExactStatus(cfg: Config, t: Topology, binds: seq<Object>)
    requires Exact(cfg, t) && Shows(binds, t, Binds)
    ensures forall o | o in binds :: o.spec.Bind?
    ensures Reports(Collect(binds), Texts(cfg.addresses), cfg.ports) <==>
            (cfg.addresses == [] || DistinctPorts(cfg.ports)) && NoTwins(t)
    ensures !Reports(Collect(binds), Texts(cfg.addresses), cfg.ports) ==> ListsTwice(Collect(binds))
  {
    hide Exact, NoTwins, Shows;
    ExactPairs(cfg, t, binds);
    var m := Collect(binds);
    forall a | a in m ensures m[a] != [] {
      CollectHas(binds, a, 0);
    }
    if !NoTwins(t) {
      var a, x := TwinsTwice(t, binds);
      TwiceReportsNot(m, a, x, Texts(cfg.addresses), cfg.ports);
    } else if DistinctPorts(cfg.ports) {
      ExactOnce(cfg, t, binds);
      PairsReport(m, Texts(cfg.addresses), cfg.ports);
    } else if cfg.addresses == [] {
      PairsReport(m, Texts(cfg.addresses), cfg.ports);
    } else {
      var x := SharedPort(cfg.ports);
      assert cfg.addresses[0] in cfg.addresses;
      TwiceReportsNot(m, cfg.addresses[0].text, x, Texts(cfg.addresses), cfg.ports);
    }
  }

  lemma SharedPort(ports: map<string, Port>) returns (x: Port16)
    requires !DistinctPorts(ports)
    ensures Shared(ports, x)
  {
    var p, q :| p in ports && q in ports && ports[p].external == ports[q].external && p != q;
    x := ports[p].external;
  }

  lemma TwiceReportsNot(m: Status, address: string, port: Port16, addresses: set<string>, ports: map<string, Port>)
    requires Twice(m, address, port)
    ensures !Reports(m, addresses, ports)
  {
    if NoDup(m[address]) {
      NoDupMultiset(m[address], port);
    }
  }
}
