/** mergeReconStatus: the ports that every one of several statuses lists for an address. */
module MultiRecon {
  import opened Common
  import opened Resources
  import opened Layout
  import opened Engines
  import opened Retrieval
  import opened Convergence
  import opened Creating
  import opened Steps
  import opened Statuses

  type Counts = map<Port16, nat>

  ghost predicate Positive(c: Counts) {
    forall p | p in c :: c[p] >= 1
  }

  ghost function CountOf(c: Counts, p: Port16): (n: nat) {
    if p in c then c[p] else 0
  }

  /** How often a status lists the port for the address. */
  ghost function Occurrences(s: Status, address: string, port: Port16): (n: nat) {
    if address in s then multiset(s[address])[port] else 0
  }

  ghost function Total(statuses: seq<Status>, address: string, port: Port16): (n: nat) {
    if statuses == [] then 0
    else Total(statuses[..|statuses| - 1], address, port) + Occurrences(statuses[|statuses| - 1], address, port)
  }

  ghost predicate Mentioned(statuses: seq<Status>, address: string) {
    exists s :: s in statuses && address in s
  }

  lemma TotalAppend(statuses: seq<Status>, s: Status, address: string, port: Port16)
    ensures Total(statuses + [s], address, port) == Total(statuses, address, port) + Occurrences(s, address, port)
  {
    assert (statuses + [s])[..|statuses|] == statuses;
  }

  /** portCount[port]++ for all the ports. */
  method CountPorts(c: Counts, ports: seq<Port16>) returns (c': Counts)
    requires Positive(c)
    ensures Positive(c')
    ensures forall p: Port16 :: CountOf(c', p) == CountOf(c, p) + multiset(ports)[p]
  {
    c' := c;
    for i := 0 to |ports|
      invariant Positive(c')
      invariant forall p: Port16 :: CountOf(c', p) == CountOf(c, p) + multiset(ports[..i])[p]
    {
      assert ports[..i + 1] == ports[..i] + [ports[i]];
      var port := ports[i];
      c' := c'[port := if port in c' then c'[port] + 1 else 1];
    }
    assert ports[..|ports|] == ports;
  }

  ghost function CountAt(counts: map<string, Counts>, address: string, port: Port16): (n: nat) {
    if address in counts then CountOf(counts[address], port) else 0
  }

  /** The counters after some statuses. */
  ghost predicate Counted(counts: map<string, Counts>, statuses: seq<Status>) {
    && (forall a | a in counts :: Positive(counts[a]))
    && (forall a :: a in counts <==> Mentioned(statuses, a))
    && (forall a, p: Port16 :: CountAt(counts, a, p) == Total(statuses, a, p))
  }

  /** Counting one status, address by address. */
  method CountStatus(counts: map<string, Counts>, s: Status) returns (counts': map<string, Counts>)
    requires forall a | a in counts :: Positive(counts[a])
    ensures forall a | a in counts' :: Positive(counts'[a])
    ensures forall a :: a in counts' <==> a in counts || a in s
    ensures forall a, p: Port16 :: CountAt(counts', a, p) == CountAt(counts, a, p) + Occurrences(s, a, p)
  {
    counts' := counts;
    var addresses := Enumerate(s);
    for k := 0 to |addresses|
      invariant forall a | a in counts' :: Positive(counts'[a])
      invariant forall a :: a in counts' <==> a in counts || a in addresses[..k]
      invariant forall a, p: Port16 ::
                CountAt(counts', a, p) == CountAt(counts, a, p) + if a in addresses[..k] then Occurrences(s, a, p)
                else 0
    {
      assert addresses[..k + 1] == addresses[..k] + [addresses[k]];
      assert addresses[k] !in addresses[..k];
      var address := addresses[k];
      var portCount: Counts := map[];
      if address in counts' {
        portCount := counts'[address];
      }
      portCount := CountPorts(portCount, s[address]);
      counts' := counts'[address := portCount];
    }
    assert addresses[..|addresses|] == addresses;
  }

  lemma CountedMore(counts: map<string, Counts>, counts': map<string, Counts>, statuses: seq<Status>, s: Status)
    requires Counted(counts, statuses)
    requires forall a | a in counts' :: Positive(counts'[a])
    requires forall a :: a in counts' <==> a in counts || a in s
    requires forall a, p: Port16 :: CountAt(counts', a, p) == CountAt(counts, a, p) + Occurrences(s, a, p)
    ensures Counted(counts', statuses + [s])
  {
    forall a, p: Port16 ensures CountAt(counts', a, p) == Total(statuses + [s], a, p) {
      TotalAppend(statuses, s, a, p);
    }
    forall a ensures a in counts' <==> Mentioned(statuses + [s], a) {
      if a in s {
        assert s in statuses + [s];
      }
      if Mentioned(statuses, a) {
        var x :| x in statuses && a in x;
        assert x in statuses + [s];
      }
    }
  }

  ghost predicate Qualifies(portCount: Counts, n: nat) {
    (exists p: Port16 :: p in portCount && portCount[p] == n)
      && (forall p: Port16 | p in portCount :: portCount[p] <= n)
  }

  /** The ports counted `n` times, provided that none is counted more often and there is one. */
  method SelectPorts(portCount: Counts, n: nat) returns (keep: bool, ports: seq<Port16>)
    requires Positive(portCount)
    ensures n >= 1 ==> (keep <==> Qualifies(portCount, n))
    ensures keep ==> NoDup(ports) && forall p: Port16 :: p in ports <==> p in portCount && portCount[p] == n
  {
    var maxPortCount := 0;
    var all := Enumerate(portCount);
    for i := 0 to |all|
      invariant forall k | 0 <= k < i :: portCount[all[k]] <= maxPortCount
      invariant if i == 0 then maxPortCount == 0 else exists k :: 0 <= k < i && portCount[all[k]] == maxPortCount
    {
      if portCount[all[i]] > maxPortCount {
        maxPortCount := portCount[all[i]];
      }
    }
    keep, ports := maxPortCount == n, [];
    if keep {
      var again := Enumerate(portCount);
      for i := 0 to |again|
        invariant NoDup(ports) && (forall p :: p in ports <==> p in again[..i] && portCount[p] == n)
      {
        assert again[..i + 1] == again[..i] + [again[i]];
        if portCount[again[i]] == n {
          assert again[i] !in again[..i];
          NoDupAppend(ports, again[i]);
          ports := ports + [again[i]];
        }
      }
      assert again[..|again|] == again;
    }
  }

  /** What an address gets to keep. */
  ghost predicate Kept(statuses: seq<Status>, address: string) {
    && (exists p: Port16 :: Total(statuses, address, p) == |statuses|)
    && (forall p: Port16 :: Total(statuses, address, p) <= |statuses|)
  }

  ghost predicate MergedFrom(m: Status, statuses: seq<Status>) {
    && (forall a :: a in m <==> Kept(statuses, a))
    && (forall a | a in m :: NoDup(m[a]) && forall p: Port16 :: p in m[a] <==> Total(statuses, a, p) == |statuses|)
  }

  method MergeReconStatus(statuses: seq<Status>) returns (ret: Status)
    ensures statuses != [] ==> MergedFrom(ret, statuses)
    ensures statuses == [] ==> ret == map[]
  {
    var counts: map<string, Counts> := map[];
    for i := 0 to |statuses|
      invariant Counted(counts, statuses[..i])
    {
      var more := CountStatus(counts, statuses[i]);
      CountedMore(counts, more, statuses[..i], statuses[i]);
      assert statuses[..i + 1] == statuses[..i] + [statuses[i]];
      counts := more;
    }
    assert statuses[..|statuses|] == statuses;
    ret := SelectAll(counts, statuses);
  }

  /** The second half: address by address. */
  method SelectAll(counts: map<string, Counts>, statuses: seq<Status>) returns (ret: Status)
    requires Counted(counts, statuses)
    ensures statuses != [] ==> MergedFrom(ret, statuses)
    ensures statuses == [] ==> ret == map[]
  {
    ret := map[];
    var addresses := Enumerate(counts);
    for k := 0 to |addresses|
      invariant forall a | a in ret :: a in addresses[..k]
      invariant statuses != [] ==> forall a | a in addresses[..k] :: a in ret <==> Kept(statuses, a)
      invariant statuses != [] ==> forall a | a in ret :: NoDup(ret[a]) && forall p: Port16 :: p in ret[a] <==>
                Total(statuses, a, p) == |statuses|
    {
      assert addresses[..k + 1] == addresses[..k] + [addresses[k]];
      var address := addresses[k];
      var keep, ports := SelectPorts(counts[address], |statuses|);
      if statuses != [] {
        KeptIff(counts, statuses, address);
      }
      if keep {
        ret := ret[address := ports];
      }
    }
    assert addresses[..|addresses|] == addresses;
    forall a | statuses != [] && a !in counts ensures !Kept(statuses, a) {
      assert forall p: Port16 :: CountAt(counts, a, p) == Total(statuses, a, p);
    }
  }

  lemma KeptIff(counts: map<string, Counts>, statuses: seq<Status>, address: string)
    requires Counted(counts, statuses) && address in counts && statuses != []
    ensures Kept(statuses, address) <==> Qualifies(counts[address], |statuses|)
    ensures var c := counts[address];
            forall p: Port16 :: (p in c && c[p] == |statuses|) <==> Total(statuses, address, p) == |statuses|
  {
    var c := counts[address];
    forall p: Port16 ensures Total(statuses, address, p) == CountOf(c, p) {
      assert CountAt(counts, address, p) == Total(statuses, address, p);
    }
    if Kept(statuses, address) {
      var p: Port16 :| Total(statuses, address, p) == |statuses|;
      assert CountOf(c, p) == |statuses|;
      forall q: Port16 | q in c ensures c[q] <= |statuses| {
        assert Total(statuses, address, q) == CountOf(c, q);
      }
    }
    if Qualifies(c, |statuses|) {
      var p: Port16 :| p in c && c[p] == |statuses|;
      assert Total(statuses, address, p) == |statuses|;
      forall q: Port16 ensures Total(statuses, address, q) <= |statuses| {
        assert Total(statuses, address, q) == CountOf(c, q);
      }
    }
  }

  // ---- What merging means ----

  ghost predicate DuplicateFree(statuses: seq<Status>) {
    forall s, a | s in statuses && a in s :: NoDup(s[a])
  }

  ghost predicate InAll(statuses: seq<Status>, address: string, port: Port16) {
    forall s | s in statuses :: Offers(s, address, port)
  }

  /** Without duplicates a total counts the statuses that list the port, so it is full when all do. */
  lemma {:induction false} TotalIsFull(statuses: seq<Status>, address: string, port: Port16)
    requires DuplicateFree(statuses)
    ensures Total(statuses, address, port) <= |statuses|
    ensures Total(statuses, address, port) == |statuses| <==> InAll(statuses, address, port)
  {
    if statuses != [] {
      var rest, last := statuses[..|statuses| - 1], statuses[|statuses| - 1];
      assert statuses == rest + [last];
      TotalIsFull(rest, address, port);
      if address in last {
        NoDupMultiset(last[address], port);
      }
      assert InAll(statuses, address, port) <==> InAll(rest, address, port) && Offers(last, address, port);
    }
  }

  /** Merging statuses without duplicates is taking the intersection; addresses without common ports are dropped. */
  lemma MergeIsIntersection(statuses: seq<Status>, m: Status)
    requires statuses != [] && DuplicateFree(statuses) && MergedFrom(m, statuses)
    ensures forall a, p: Port16 :: Offers(m, a, p) <==> InAll(statuses, a, p)
    ensures forall a :: a in m <==> exists p: Port16 :: InAll(statuses, a, p)
    ensures forall a | a in m :: NoDup(m[a])
  {
    forall a, p: Port16
      ensures Total(statuses, a, p) <= |statuses| && (Total(statuses, a, p) == |statuses| <==> InAll(statuses, a, p))
    {
      TotalIsFull(statuses, a, p);
    }
    forall a, p: Port16 ensures Offers(m, a, p) <==> InAll(statuses, a, p) {
      if InAll(statuses, a, p) {
        assert Total(statuses, a, p) == |statuses|;
        assert Kept(statuses, a);
      }
    }
    forall a ensures a in m <==> exists p: Port16 :: InAll(statuses, a, p) {
      if a in m {
        var p: Port16 :| Total(statuses, a, p) == |statuses|;
        assert InAll(statuses, a, p);
      }
    }
  }

  ghost predicate Intersection(m: Status, statuses: seq<Status>) {
    && (forall a, p: Port16 :: Offers(m, a, p) <==> InAll(statuses, a, p))
    && (forall a :: a in m <==> exists p: Port16 :: InAll(statuses, a, p))
  }

  /**
    * Counting gives the right ports for the address: every port counted as often as
    * there are statuses, or more, is listed by all of them and once by each; or else no
    * port is listed by all, and some port is counted more often.
    */
  ghost predicate Undistorted(statuses: seq<Status>, address: string) {
    || (forall p: Port16 | Total(statuses, address, p) >= |statuses| ::
          InAll(statuses, address, p) && Total(statuses, address, p) == |statuses|)
    || ((forall p: Port16 :: !InAll(statuses, address, p)) && exists p: Port16 ::
         Total(statuses, address, p) > |statuses|)
  }

  lemma {:induction false} InAllCounts(statuses: seq<Status>, address: string, port: Port16)
    ensures InAll(statuses, address, port) ==> Total(statuses, address, port) >= |statuses|
  {
    if statuses != [] && InAll(statuses, address, port) {
      var rest, last := statuses[..|statuses| - 1], statuses[|statuses| - 1];
      assert statuses == rest + [last] && last in statuses;
      assert forall s | s in rest :: s in statuses;
      InAllCounts(rest, address, port);
      assert Offers(last, address, port);
    }
  }

  /** What is kept for one address is what all statuses list, exactly if the counting is not distorted there. */
  lemma AddressIntersected(statuses: seq<Status>, m: Status, a: string)
    requires statuses != [] && MergedFrom(m, statuses)
    ensures Undistorted(statuses, a) <==>
              (forall p: Port16 :: Offers(m, a, p) <==> InAll(statuses, a, p))
    ensures Undistorted(statuses, a) ==> (a in m <==> exists p: Port16 :: InAll(statuses, a, p))
  {
    var n := |statuses|;
    forall p: Port16 ensures InAll(statuses, a, p) ==> Total(statuses, a, p) >= n {
      InAllCounts(statuses, a, p);
    }
    hide InAll, Total;
    forall p: Port16 ensures Offers(m, a, p) <==> Kept(statuses, a) && Total(statuses, a, p) == n {
      assert a in m <==> Kept(statuses, a);
    }
    if Undistorted(statuses, a) && a in m {
      var p: Port16 :| Total(statuses, a, p) == n;
      assert InAll(statuses, a, p);
    }
  }

  /** Merging is taking the intersection if and only if the counting is distorted for no address. */
  lemma MergeIntersectsIff(statuses: seq<Status>, m: Status)
    requires statuses != [] && MergedFrom(m, statuses)
    ensures Intersection(m, statuses) <==> forall a :: Undistorted(statuses, a)
    ensures DuplicateFree(statuses) ==> Intersection(m, statuses)
    ensures forall a | a in m :: NoDup(m[a])
  {
    if DuplicateFree(statuses) {
      MergeIsIntersection(statuses, m);
    }
    assert forall a | a in m :: NoDup(m[a]);
    hide Undistorted, MergedFrom, InAll, DuplicateFree, Total;
    forall a
      ensures Undistorted(statuses, a) <==> (forall p: Port16 :: Offers(m, a, p) <==> InAll(statuses, a, p))
      ensures Undistorted(statuses, a) ==> (a in m <==> exists p: Port16 :: InAll(statuses, a, p))
    {
      AddressIntersected(statuses, m, a);
    }
  }

  /** Two statuses say the same. */
  ghost predicate SameStatus(m: Status, m': Status) {
    m.Keys == m'.Keys && forall a | a in m :: multiset(m[a]) == multiset(m'[a])
  }

  lemma {:induction false} TotalOfMultiset(statuses: seq<Status>, others: seq<Status>, address: string, port: Port16)
    requires multiset(statuses) == multiset(others)
    ensures Total(statuses, address, port) == Total(others, address, port)
    decreases |statuses|
  {
    if statuses == [] {
      assert |multiset(others)| == 0;
    } else {
      var i := TakeOut(statuses, others);
      TotalOfMultiset(statuses[..|statuses| - 1], others[..i] + others[i + 1..], address, port);
      TotalInsert(others[..i], others[i], others[i + 1..], address, port);
    }
  }

  lemma {:induction false} TotalInsert(a: seq<Status>, s: Status, b: seq<Status>, address: string, port: Port16)
    ensures Total(a + [s] + b, address, port) == Total(a + b, address, port) + Occurrences(s, address, port)
  {
    if b == [] {
      assert a + [s] + b == a + [s] && a + b == a;
      TotalAppend(a, s, address, port);
    } else {
      var b', last := b[..|b| - 1], b[|b| - 1];
      assert a + [s] + b == (a + [s] + b') + [last] && a + b == (a + b') + [last];
      TotalAppend(a + [s] + b', last, address, port);
      TotalAppend(a + b', last, address, port);
      TotalInsert(a, s, b', address, port);
    }
  }

  /** The order in which the results arrive does not matter, with duplicates or without. */
  lemma MergeIsOrderFree(statuses: seq<Status>, others: seq<Status>, m: Status, m': Status)
    requires statuses != [] && multiset(statuses) == multiset(others)
    requires MergedFrom(m, statuses) && MergedFrom(m', others)
    ensures SameStatus(m, m')
  {
    assert |statuses| == |multiset(statuses)| == |multiset(others)| == |others|;
    forall a, p: Port16 ensures Total(statuses, a, p) == Total(others, a, p) {
      TotalOfMultiset(statuses, others, a, p);
    }
    forall a ensures Kept(statuses, a) <==> Kept(others, a) {
    }
    forall a | a in m ensures multiset(m[a]) == multiset(m'[a]) {
      forall p: Port16 ensures multiset(m[a])[p] == multiset(m'[a])[p] {
        NoDupMultiset(m[a], p);
        NoDupMultiset(m'[a], p);
      }
    }
  }

  /** A status that lists one port twice, and some that list nothing. */
  ghost function OneTwice(address: string, port: Port16, others: nat): (statuses: seq<Status>) {
    [map[address := [port, port]]] + seq(others, i requires 0 <= i < others => map[])
  }

  lemma {:induction false} OneTwiceTotal(address: string, port: Port16, others: nat, a: string, p: Port16)
    ensures Total(OneTwice(address, port, others), a, p) == if a == address && p == port then 2 else 0
    ensures InAll(OneTwice(address, port, others), a, p) <==> others == 0 && a == address && p == port
  {
    var all, s := OneTwice(address, port, others), map[address := [port, port]];
    if others == 0 {
      TotalAppend([], s, a, p);
      assert [] + [s] == all == [s];
      assert multiset([port, port])[p] == if p == port then 2 else 0;
      assert s in all && InAll(all, a, p) <==> Offers(s, a, p);
    } else {
      OneTwiceTotal(address, port, others - 1, a, p);
      var fewer := OneTwice(address, port, others - 1);
      assert all == fewer + [map[]];
      TotalAppend(fewer, map[], a, p);
      assert all[others] == map[] && all[others] in all;
    }
  }

  /**
    * A port listed twice by a single status: alone, the status loses the address; beside
    * one other, which does not list the port, the port is reported all the same; only
    * beside two or more is the result what all of them list.
    */
  lemma DuplicatesGetLost(address: string, port: Port16, others: nat, m: Status)
    requires MergedFrom(m, OneTwice(address, port, others))
    ensures Offers(m, address, port) <==> others == 1
    ensures InAll(OneTwice(address, port, others), address, port) <==> others == 0
    ensures Intersection(m, OneTwice(address, port, others)) <==> others >= 2
  {
    var all := OneTwice(address, port, others);
    forall a, p: Port16
      ensures Total(all, a, p) == if a == address && p == port then 2 else 0
      ensures InAll(all, a, p) <==> others == 0 && a == address && p == port
    {
      OneTwiceTotal(address, port, others, a, p);
    }
    assert |all| == others + 1;
    hide Total, InAll, OneTwice;
    if others == 1 {
      assert Total(all, address, port) == |all|;
      assert Kept(all, address);
    }
    if others >= 2 {
      forall a ensures Undistorted(all, a) {
      }
      MergeIntersectsIff(all, m);
    }
  }

  // ---- The merged status of reconciliations that are done ----

  lemma ReportsMerge(statuses: seq<Status>, m: Status, addresses: set<string>, ports: map<string, Port>)
    requires statuses != [] && MergedFrom(m, statuses)
    requires forall s | s in statuses :: Reports(s, addresses, ports)
    ensures Reports(m, addresses, ports)
  {
    MergeIsIntersection(statuses, m);
    var first := statuses[0];
    forall a, p: Port16 ensures InAll(statuses, a, p) <==> Offers(first, a, p) {
      ReportsAgree(statuses, addresses, ports, a, p);
    }
    forall a, p: Port16 ensures Offers(m, a, p) <==> a in addresses && External(ports, p) {
      ReportsLists(first, addresses, ports, a, p);
    }
    forall a | a in m ensures NoDup(m[a]) && m[a] != [] {
      var p: Port16 :| InAll(statuses, a, p);
      assert Offers(m, a, p);
    }
    PairsReport(m, addresses, ports);
  }

  lemma ReportsLists(s: Status, addresses: set<string>, ports: map<string, Port>, a: string, p: Port16)
    requires Reports(s, addresses, ports)
    ensures Offers(s, a, p) <==> a in addresses && External(ports, p)
  {
  }

  lemma ReportsAgree(statuses: seq<Status>, addresses: set<string>, ports: map<string, Port>, a: string, p: Port16)
    requires statuses != [] && forall s | s in statuses :: Reports(s, addresses, ports)
    ensures InAll(statuses, a, p) <==> Offers(statuses[0], a, p)
  {
    forall s | s in statuses ensures Offers(s, a, p) <==> a in addresses && External(ports, p) {
      ReportsLists(s, addresses, ports, a, p);
    }
    assert statuses[0] in statuses;
  }

  /** One reconciliation that has reached its intended topology: what it was to do, what there is, and its Binds. */
  datatype Part = Part(cfg: Config, topology: Topology, binds: seq<Object>)

  ghost predicate Done(part: Part, addresses: seq<Ip>, ports: map<string, Port>) {
    && part.cfg.addresses == addresses && part.cfg.ports == ports
    && Exact(part.cfg, part.topology) && Shows(part.binds, part.topology, Binds)
  }

  /** All statuses list the port twice. */
  lemma {:induction false} TotalOfDoubled(statuses: seq<Status>, address: string, port: Port16)
    requires forall s | s in statuses :: Twice(s, address, port)
    ensures Total(statuses, address, port) >= 2 * |statuses|
  {
    if statuses != [] {
      var rest, last := statuses[..|statuses| - 1], statuses[|statuses| - 1];
      assert statuses == rest + [last] && last in statuses;
      TotalOfDoubled(rest, address, port);
    }
  }

  lemma {:induction false} TotalIsListed(statuses: seq<Status>, address: string, port: Port16) returns (s: Status)
    requires Total(statuses, address, port) > 0
    ensures s in statuses && Offers(s, address, port)
  {
    var rest, last := statuses[..|statuses| - 1], statuses[|statuses| - 1];
    assert statuses == rest + [last];
    if Occurrences(last, address, port) > 0 {
      s := last;
    } else {
      s := TotalIsListed(rest, address, port);
    }
  }

  /** The status lists the external ports for the external addresses, and nothing else. */
  ghost predicate Serving(s: Status, addresses: set<string>, ports: map<string, Port>) {
    forall a, x: Port16 :: Offers(s, a, x) <==> a in addresses && External(ports, x)
  }

  /** It lists a number that two ports share twice. */
  ghost predicate Doubling(s: Status, addresses: set<string>, ports: map<string, Port>) {
    forall a, x: Port16 | a in addresses && Shared(ports, x) :: Twice(s, a, x)
  }

  /** When two ports share their number, no address is kept. */
  lemma SharedPortsLose(statuses: seq<Status>, m: Status, addresses: set<string>, ports: map<string, Port>, x: Port16)
    requires statuses != [] && MergedFrom(m, statuses) && Shared(ports, x)
    requires forall k | 0 <= k < |statuses| ::
             Serving(statuses[k], addresses, ports) && Doubling(statuses[k], addresses, ports)
    ensures m == map[]
  {
    if m != map[] {
      var a :| a in m;
      var p: Port16 :| Total(statuses, a, p) == |statuses|;
      var s := TotalIsListed(statuses, a, p);
      var k :| 0 <= k < |statuses| && statuses[k] == s;
      assert a in addresses;
      forall s' | s' in statuses ensures Twice(s', a, x) {
        var j :| 0 <= j < |statuses| && statuses[j] == s';
      }
      TotalOfDoubled(statuses, a, x);
    }
  }

  /** The statuses of parts that are done. */
  ghost predicate AllDone(parts: seq<Part>, statuses: seq<Status>, addresses: seq<Ip>, ports: map<string, Port>) {
    && parts != [] && |statuses| == |parts|
    && (forall k | 0 <= k < |parts| :: Done(parts[k], addresses, ports))
    && (forall k | 0 <= k < |parts| ::
          (forall o | o in parts[k].binds :: o.spec.Bind?) && statuses[k] == Collect(parts[k].binds))
  }

  /** No reconciliation has left a Bind with a twin. */
  ghost predicate NoneTwins(parts: seq<Part>) {
    forall k | 0 <= k < |parts| :: NoTwins(parts[k].topology)
  }

  lemma PartStatus(parts: seq<Part>, statuses: seq<Status>, addresses: seq<Ip>, ports: map<string, Port>, k: nat)
    requires AllDone(parts, statuses, addresses, ports) && k < |statuses|
    ensures Reports(statuses[k], Texts(addresses), ports) <==>
            (addresses == [] || DistinctPorts(ports)) && NoTwins(parts[k].topology)
    ensures !Reports(statuses[k], Texts(addresses), ports) ==> ListsTwice(statuses[k])
    ensures Serving(statuses[k], Texts(addresses), ports) && Doubling(statuses[k], Texts(addresses), ports)
  {
    var part := parts[k];
    assert Done(part, addresses, ports);
    hide Exact, Shows, Reports, DistinctPorts, Texts, NoTwins;
    ExactStatus(part.cfg, part.topology, part.binds);
    ExactPairs(part.cfg, part.topology, part.binds);
  }

  lemma {:induction false} TotalOfTwice(statuses: seq<Status>, k: nat, address: string, port: Port16)
    requires k < |statuses| && InAll(statuses, address, port) && Twice(statuses[k], address, port)
    ensures Total(statuses, address, port) > |statuses|
  {
    var rest, last := statuses[..|statuses| - 1], statuses[|statuses| - 1];
    assert statuses == rest + [last] && last in statuses;
    assert forall s | s in rest :: s in statuses;
    assert Offers(last, address, port);
    if k < |rest| {
      TotalOfTwice(rest, k, address, port);
    } else {
      InAllCounts(rest, address, port);
    }
  }

  /** An address loses all its ports if a single status lists one of them twice. */
  lemma TwiceLoses(statuses: seq<Status>, m: Status, addresses: set<string>, ports: map<string, Port>, k: nat,
                   a: string,
                   x: Port16)
    requires k < |statuses| && MergedFrom(m, statuses) && Twice(statuses[k], a, x)
    requires forall j | 0 <= j < |statuses| :: Serving(statuses[j], addresses, ports)
    ensures a in addresses && a !in m && !Reports(m, addresses, ports)
  {
    assert Offers(statuses[k], a, x);
    forall s | s in statuses ensures Offers(s, a, x) {
      var j :| 0 <= j < |statuses| && statuses[j] == s;
    }
    TotalOfTwice(statuses, k, a, x);
    assert ports != map[];
  }

  /**
    * Once every reconciliation has converged, the merged status has exactly the external
    * addresses, each with exactly the external ports, if and only if no two ports share
    * their number and no Bind has a twin; if two do, nothing is left of it.
    */
  lemma EndToEndStatus(parts: seq<Part>, statuses: seq<Status>, m: Status, addresses: seq<Ip>, ports: map<string, Port>)
    requires AllDone(parts, statuses, addresses, ports) && MergedFrom(m, statuses)
    ensures Reports(m, Texts(addresses), ports) <==> (addresses == [] || DistinctPorts(ports)) && NoneTwins(parts)
    ensures !DistinctPorts(ports) ==> m == map[]
    ensures m.Keys <= Texts(addresses) && (ports == map[] ==> m == map[])
    ensures !Reports(m, Texts(addresses), ports) ==> !(Texts(addresses) <= m.Keys)
  {
    assert statuses != [] && |statuses| == |parts|;
    hide AllDone, MergedFrom, Done, NoTwins, DistinctPorts, Reports, ListsTwice, Shared, Texts, Serving, Doubling;
    var texts := Texts(addresses);
    forall k | 0 <= k < |statuses|
      ensures Reports(statuses[k], texts, ports) <==>
              (addresses == [] || DistinctPorts(ports)) && NoTwins(parts[k].topology)
      ensures !Reports(statuses[k], texts, ports) ==> ListsTwice(statuses[k])
      ensures Serving(statuses[k], texts, ports) && Doubling(statuses[k], texts, ports)
    {
      PartStatus(parts, statuses, addresses, ports, k);
    }
    MergedReportsIff(statuses, m, texts, ports);
    if !DistinctPorts(ports) {
      var x := SharedPort(ports);
      SharedPortsLose(statuses, m, texts, ports, x);
    }
  }

  /** The merged status is the intended one exactly if all of them are. */
  lemma MergedReportsIff(statuses: seq<Status>, m: Status, addresses: set<string>, ports: map<string, Port>)
    requires statuses != [] && MergedFrom(m, statuses)
    requires forall k | 0 <= k < |statuses| :: Serving(statuses[k], addresses, ports)
    requires forall k | 0 <= k < |statuses| && !Reports(statuses[k], addresses, ports) :: ListsTwice(statuses[k])
    ensures Reports(m, addresses, ports) <==> forall k | 0 <= k < |statuses| :: Reports(statuses[k], addresses, ports)
    ensures m.Keys <= addresses && (ports == map[] ==> m == map[])
    ensures !Reports(m, addresses, ports) ==> !(addresses <= m.Keys)
  {
    hide MergedFrom, Reports, Serving, Twice;
    MergedWithin(statuses, m, addresses, ports);
    if k :| 0 <= k < |statuses| && !Reports(statuses[k], addresses, ports) {
      var a, x: Port16 :| Twice(statuses[k], a, x);
      TwiceLoses(statuses, m, addresses, ports, k, a, x);
    } else {
      ReportsMerge(statuses, m, addresses, ports);
    }
  }

  lemma MergedWithin(statuses: seq<Status>, m: Status, addresses: set<string>, ports: map<string, Port>)
    requires statuses != [] && MergedFrom(m, statuses)
    requires forall k | 0 <= k < |statuses| :: Serving(statuses[k], addresses, ports)
    ensures m.Keys <= addresses && (ports == map[] ==> m == map[])
  {
    forall a | a in m ensures a in addresses && ports != map[] {
      var p: Port16 :| Total(statuses, a, p) == |statuses|;
      var s := TotalIsListed(statuses, a, p);
      var k :| 0 <= k < |statuses| && statuses[k] == s;
      assert Offers(statuses[k], a, p);
    }
  }
}
