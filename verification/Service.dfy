/**
  * The loop around the reconciliation: which addresses a service is to have, what
  * is reconciled for it, and the status that is written back to it.
  */
module Services {
  import opened Common
  import opened Resources
  import opened Layout
  import opened Statuses
  import opened Text

  const IPV4: string := "IPv4"
  const IPV6: string := "IPv6"

  datatype ServicePort = ServicePort(name: string, port: int, nodePort: int)

  datatype Ingress = Ingress(ip: string, hostname: string, ports: seq<int>)

  /** The hostname is the annotation's value in lower case, empty if there is none. */
  datatype Service = Service(
    families: seq<string>,
    familiesAnnotation: Option<string>,
    hostname: string,
    ports: seq<ServicePort>,
    ingress: seq<Ingress>,
    deleted: bool)

  datatype Prefix = Prefix(family: string, address: Ip)

  // ---- Families and addresses ----

  predicate ValidFamilies(families: seq<string>) {
    forall f | f in families :: f == IPV4 || f == IPV6
  }

  /** The families of an annotation: what its text is made of, with commas between them, and nothing else. */
  ghost predicate Annotated(text: string, families: seq<string>) {
    && families != [] && Join(families, ",") == text
    && forall f | f in families :: f == "IPv4" || f == "IPv6"
  }

  /** There is at most one such list, and it is found by splitting the text. */
  lemma AnnotatedIff(text: string, families: seq<string>)
    ensures Annotated(text, families) <==> families == Split(text, ',') && ValidFamilies(families)
  {
    SplitJoins(text, ',');
    if Annotated(text, families) {
      forall f | f in families ensures ',' !in f {
      }
      JoinSplits(families, ',');
    }
  }

  /** What is asked for: the families of the annotation, or without one those of the specification. */
  lemma FamiliesIff(svc: Service, families: seq<string>)
    ensures Families(svc) == Some(families) <==>
            if svc.familiesAnnotation.None? then families == svc.families
            else Annotated(svc.familiesAnnotation.value, families)
  {
    if svc.familiesAnnotation.Some? {
      AnnotatedIff(svc.familiesAnnotation.value, families);
    }
  }

  /** An error only if there is an annotation, and it is not made of valid families. */
  lemma NoFamiliesIff(svc: Service)
    ensures Families(svc).None? <==> svc.familiesAnnotation.Some? && forall families ::
            !Annotated(svc.familiesAnnotation.value, families)
  {
    if svc.familiesAnnotation.Some? {
      var text := svc.familiesAnnotation.value;
      AnnotatedIff(text, Split(text, ','));
      forall families ensures Annotated(text, families) ==> Families(svc) == Some(families) {
        AnnotatedIff(text, families);
      }
    }
  }

  /** The families asked for: those of the annotation if there is one, which must all be valid. */
  method ServiceAddressFamilies(svc: Service) returns (families: Option<seq<string>>)
    ensures families == Families(svc)
    ensures svc.familiesAnnotation.None? ==> families == Some(svc.families)
    ensures svc.familiesAnnotation.Some? && families.Some? ==>
              Annotated(svc.familiesAnnotation.value, families.value)
    ensures families.None? ==> svc.familiesAnnotation.Some? && forall fs ::
              !Annotated(svc.familiesAnnotation.value, fs)
  {
    NoFamiliesIff(svc);
    if svc.familiesAnnotation.None? {
      return Some(svc.families);
    }
    var familyStrings := Split(svc.familiesAnnotation.value, ',');
    var result: seq<string> := [];
    for i := 0 to |familyStrings|
      invariant result == familyStrings[..i] && ValidFamilies(result)
    {
      var valid := false;
      var validFamilies := [IPV4, IPV6];
      for k := 0 to |validFamilies|
        invariant valid <==> familyStrings[i] in validFamilies[..k]
      {
        if familyStrings[i] == validFamilies[k] {
          valid := true;
          break;
        }
      }
      assert valid <==> familyStrings[i] in validFamilies by {
        assert validFamilies[..|validFamilies|] == validFamilies;
      }
      if !valid {
        assert familyStrings[i] in familyStrings;
        return None;
      }
      result := result + [familyStrings[i]];
    }
    assert familyStrings[..|familyStrings|] == familyStrings;
    families := Some(result);
    FamiliesIff(svc, result);
  }

  function IngressIps(ingress: seq<Ingress>): (ips: seq<string>) {
    if ingress == [] then []
    else
      var last := ingress[|ingress| - 1].ip;
      IngressIps(ingress[..|ingress| - 1]) + if last != "" then [last] else []
  }

  ghost function NonEmptyIps(ingress: seq<Ingress>): (places: set<nat>) {
    set i: nat | i < |ingress| && ingress[i].ip != ""
  }

  ghost predicate IpsFrom(ips: seq<string>, from: seq<Ingress>) {
    |ips| == |from| && forall j | 0 <= j < |from| :: ips[j] == from[j].ip
  }

  /** The addresses are those of the entries that have one, in order. */
  lemma {:induction false} IngressIpsPicked(ingress: seq<Ingress>) returns (from: seq<Ingress>)
    ensures Picks(from, ingress, NonEmptyIps(ingress)) && IpsFrom(IngressIps(ingress), from)
  {
    hide Picks;
    if ingress == [] {
      PicksNothing<Ingress>([]);
      from := [];
      assert NonEmptyIps(ingress) == {};
    } else {
      var rest, last := ingress[..|ingress| - 1], ingress[|ingress| - 1];
      assert ingress == rest + [last];
      from := IngressIpsPicked(rest);
      PicksMore(from, rest, NonEmptyIps(rest), last);
      if last.ip != "" {
        from := from + [last];
        assert NonEmptyIps(ingress) == NonEmptyIps(rest) + {|rest|};
      } else {
        assert NonEmptyIps(ingress) == NonEmptyIps(rest);
      }
    }
  }

  method ServiceAddresses(svc: Service) returns (ret: seq<string>)
    ensures ret == IngressIps(svc.ingress)
    ensures exists from :: Picks(from, svc.ingress, NonEmptyIps(svc.ingress)) && IpsFrom(ret, from)
  {
    ghost var from := IngressIpsPicked(svc.ingress);
    ret := [];
    for i := 0 to |svc.ingress|
      invariant ret == IngressIps(svc.ingress[..i])
    {
      assert svc.ingress[..i + 1][..i] == svc.ingress[..i];
      if svc.ingress[i].ip != "" {
        ret := ret + [svc.ingress[i].ip];
      }
    }
    assert svc.ingress[..|svc.ingress|] == svc.ingress;
  }

  function FamilyOf(ip: Ip): (family: string) {
    if ip.v4 then IPV4 else IPV6
  }

  /** The addresses of one family, in order. */
  function OfFamily(ips: seq<Ip>, family: string): (some: seq<Ip>) {
    if ips == [] then []
    else
      var last := ips[|ips| - 1];
      OfFamily(ips[..|ips| - 1], family) + if FamilyOf(last) == family then [last] else []
  }

  /** An address is of a family by what To4 says of it. */
  predicate IsOf(ip: Ip, family: string) {
    if ip.v4 then family == "IPv4" else family == "IPv6"
  }

  ghost function PlacesOf(ips: seq<Ip>, family: string): (places: set<nat>) {
    set i: nat | i < |ips| && IsOf(ips[i], family)
  }

  lemma FamilyIs(ip: Ip, family: string)
    ensures FamilyOf(ip) == family <==> IsOf(ip, family)
  {
  }

  lemma {:induction false} OfFamilyPicked(ips: seq<Ip>, family: string)
    ensures Picks(OfFamily(ips, family), ips, PlacesOf(ips, family))
  {
    hide Picks, FamilyOf, IsOf;
    if ips == [] {
      PicksNothing<Ip>([]);
      assert PlacesOf(ips, family) == {};
    } else {
      var rest, last := ips[..|ips| - 1], ips[|ips| - 1];
      assert ips == rest + [last];
      OfFamilyPicked(rest, family);
      FamilyIs(last, family);
      PicksMore(OfFamily(rest, family), rest, PlacesOf(rest, family), last);
      if IsOf(last, family) {
        assert PlacesOf(ips, family) == PlacesOf(rest, family) + {|rest|};
      } else {
        assert PlacesOf(ips, family) == PlacesOf(rest, family) && OfFamily(ips, family) == OfFamily(rest, family);
      }
    }
  }

  ghost function TextsOf(ips: seq<Ip>): (texts: seq<string>) {
    seq(|ips|, i requires 0 <= i < |ips| => ips[i].text)
  }

  /** The first prefix of the family provides the address. */
  function FirstOf(prefixes: seq<Prefix>, family: string): (ip: Option<Ip>) {
    if prefixes == [] then None
    else if prefixes[0].family == family then Some(prefixes[0].address)
    else FirstOf(prefixes[1..], family)
  }

  /** Prefix `i` is of the family, and none before it is. */
  ghost predicate FirstAt(prefixes: seq<Prefix>, family: string, i: nat) {
    && i < |prefixes| && prefixes[i].family == family
    && forall k | 0 <= k < i :: prefixes[k].family != family
  }

  lemma {:induction false} FirstOfIff(prefixes: seq<Prefix>, family: string, ip: Ip)
    ensures FirstOf(prefixes, family) == Some(ip) <==>
            exists i: nat :: FirstAt(prefixes, family, i) && prefixes[i].address == ip
    ensures FirstOf(prefixes, family).None? <==> forall p | p in prefixes :: p.family != family
  {
    if prefixes != [] {
      var rest := prefixes[1..];
      FirstOfIff(rest, family, ip);
      if i: nat :| FirstAt(prefixes, family, i) && prefixes[i].address == ip && i > 0 {
        assert FirstAt(rest, family, i - 1) && rest[i - 1].address == ip;
      }
      if prefixes[0].family == family {
        assert FirstAt(prefixes, family, 0);
      } else if i: nat :| FirstAt(rest, family, i) && rest[i].address == ip {
        assert FirstAt(prefixes, family, i + 1) && prefixes[i + 1].address == ip;
      }
    }
  }

  /** `prefixes` is None if they cannot be listed. */
  method AllocateAddress(prefixes: Option<seq<Prefix>>, family: string) returns (ip: Option<Ip>)
    ensures ip == if prefixes.None? then None else FirstOf(prefixes.value, family)
    ensures ip.Some? ==> prefixes.Some? && exists i: nat ::
              FirstAt(prefixes.value, family, i) && prefixes.value[i].address == ip.value
    ensures ip.None? ==> prefixes.None? || forall p | p in prefixes.value :: p.family != family
  {
    if prefixes.None? {
      return None;
    }
    for i := 0 to |prefixes.value|
      invariant FirstOf(prefixes.value, family) == FirstOf(prefixes.value[i..], family)
      invariant forall k | 0 <= k < i :: prefixes.value[k].family != family
    {
      assert prefixes.value[i..][1..] == prefixes.value[i + 1..];
      if prefixes.value[i].family == family {
        assert FirstAt(prefixes.value, family, i);
        return Some(prefixes.value[i].address);
      }
    }
    ip := None;
  }

  /** The addresses for one family: those there are, or else a new one. */
  ghost function Share(ips: seq<Ip>, prefixes: Option<seq<Prefix>>, family: string): (share: Option<seq<Ip>>) {
    if OfFamily(ips, family) != [] then Some(OfFamily(ips, family))
    else if prefixes.None? || FirstOf(prefixes.value, family).None? then None
    else Some([FirstOf(prefixes.value, family).value])
  }

  /** The addresses for all families, or None if there are none for one of them. */
  ghost function Shares(ips: seq<Ip>, prefixes: Option<seq<Prefix>>, families: seq<string>): (shares: Option<seq<Ip>>) {
    if families == [] then Some([])
    else
      var before := Shares(ips, prefixes, families[..|families| - 1]);
      var share := Share(ips, prefixes, families[|families| - 1]);
      if before.None? || share.None? then None else Some(before.value + share.value)
  }

  lemma TextsJoin(a: seq<Ip>, b: seq<Ip>)
    ensures TextsOf(a + b) == TextsOf(a) + TextsOf(b)
  {
  }

  /** The map of the current addresses by family. */
  ghost predicate ByFamily(current: map<string, seq<Ip>>, ips: seq<Ip>) {
    forall f :: OfFamily(ips, f) == if f in current then current[f] else []
  }

  lemma OfFamilyAppend(ips: seq<Ip>, ip: Ip, family: string)
    ensures OfFamily(ips + [ip], family) == OfFamily(ips, family) + if FamilyOf(ip) == family then [ip] else []
  {
    assert (ips + [ip])[..|ips|] == ips;
  }

  /** `parse` stands for net.ParseIP and `String`; how addresses are written is not part of this model. */
  ghost function Parsed(parse: string -> Ip, texts: seq<string>): (ips: seq<Ip>) {
    seq(|texts|, i requires 0 <= i < |texts| => parse(texts[i]))
  }

  function WithAddress(current: map<string, seq<Ip>>, ip: Ip): (current': map<string, seq<Ip>>) {
    var fam := FamilyOf(ip);
    current[fam := (if fam in current then current[fam] else []) + [ip]]
  }

  lemma ByFamilyMore(current: map<string, seq<Ip>>, ips: seq<Ip>, ip: Ip)
    requires ByFamily(current, ips)
    ensures ByFamily(WithAddress(current, ip), ips + [ip])
  {
    forall f ensures OfFamily(ips + [ip], f) == OfFamily(ips, f) + if FamilyOf(ip) == f then [ip] else [] {
      OfFamilyAppend(ips, ip, f);
    }
  }

  lemma ParsedStep(parse: string -> Ip, texts: seq<string>, i: nat)
    requires i < |texts|
    ensures Parsed(parse, texts[..i + 1]) == Parsed(parse, texts[..i]) + [parse(texts[i])]
  {
  }

  method CurrentAddresses(parse: string -> Ip, addresses: seq<string>) returns (current: map<string, seq<Ip>>)
    ensures ByFamily(current, Parsed(parse, addresses))
    ensures forall f | f in current :: current[f] != []
  {
    current := map[];
    assert ByFamily(current, Parsed(parse, addresses[..0]));
    hide ByFamily, FamilyOf;
    for i := 0 to |addresses|
      invariant ByFamily(current, Parsed(parse, addresses[..i]))
      invariant forall f | f in current :: current[f] != []
    {
      var ip := parse(addresses[i]);
      ParsedStep(parse, addresses, i);
      ByFamilyMore(current, Parsed(parse, addresses[..i]), ip);
      current := WithAddress(current, ip);
    }
    assert addresses[..|addresses|] == addresses;
  }

  /** What the annotation or else the specification asks for, if it is valid. */
  ghost function Families(svc: Service): (families: Option<seq<string>>) {
    if svc.familiesAnnotation.None? then Some(svc.families)
    else
      var parts := Split(svc.familiesAnnotation.value, ',');
      if ValidFamilies(parts) then Some(parts) else None
  }

  ghost function Answer(parse: string -> Ip, svc: Service, prefixes: Option<seq<Prefix>>): (shares: Option<seq<Ip>>) {
    if Families(svc).None? then None
    else Shares(Parsed(parse, IngressIps(svc.ingress)), prefixes, Families(svc).value)
  }

  // ---- What is allocated, said by places ----

  /** For one family: all addresses it has, in order, or else a single one from the first prefix of the family. */
  ghost predicate ShareOf(share: seq<Ip>, ips: seq<Ip>, prefixes: Option<seq<Prefix>>, family: string) {
    if PlacesOf(ips, family) != {} then Picks(share, ips, PlacesOf(ips, family))
    else
      && prefixes.Some?
      && exists i: nat :: FirstAt(prefixes.value, family, i) && share == [prefixes.value[i].address]
  }

  /** There is neither an address of the family nor a prefix. */
  ghost predicate Lacking(ips: seq<Ip>, prefixes: Option<seq<Prefix>>, family: string) {
    PlacesOf(ips, family) == {} && (prefixes.Some? ==> forall p | p in prefixes.value :: p.family != family)
  }

  /** The shares of the families one after the other, cut out of `all` at these places. */
  ghost predicate CutInShares(all: seq<Ip>, cuts: seq<nat>, ips: seq<Ip>, prefixes: Option<seq<Prefix>>,
                              families: seq<string>) {
    && |cuts| == |families| + 1 && cuts[0] == 0 && cuts[|families|] == |all|
    && forall i: nat | i < |families| :: CutAt(all, cuts, i, ips, prefixes, families[i])
  }

  ghost predicate CutAt(all: seq<Ip>, cuts: seq<nat>, i: nat, ips: seq<Ip>, prefixes: Option<seq<Prefix>>,
                        family: string)
    requires i + 1 < |cuts|
  {
    cuts[i] <= cuts[i + 1] <= |all| && ShareOf(all[cuts[i]..cuts[i + 1]], ips, prefixes, family)
  }

  /** `texts` are addresses that consist of the shares of all families. */
  ghost predicate GivenOut(texts: seq<string>, ips: seq<Ip>, prefixes: Option<seq<Prefix>>, families: seq<string>) {
    exists all: seq<Ip>, cuts: seq<nat> ::
      && CutInShares(all, cuts, ips, prefixes, families)
      && |texts| == |all| && forall i | 0 <= i < |all| :: texts[i] == all[i].text
  }

  lemma ShareIs(ips: seq<Ip>, prefixes: Option<seq<Prefix>>, family: string)
    ensures Share(ips, prefixes, family).None? <==> Lacking(ips, prefixes, family)
    ensures Share(ips, prefixes, family).Some? ==> ShareOf(Share(ips, prefixes, family).value, ips, prefixes, family)
  {
    OfFamilyPicked(ips, family);
    PicksCount(OfFamily(ips, family), ips, PlacesOf(ips, family));
    hide Picks, PlacesOf, OfFamily;
    if prefixes.Some? {
      var first := FirstOf(prefixes.value, family);
      FirstOfIff(prefixes.value, family, if first.Some? then first.value else Ip(true, ""));
    }
  }

  lemma {:induction false} SharesAre(ips: seq<Ip>, prefixes: Option<seq<Prefix>>, families: seq<string>)
    returns (cuts: seq<nat>)
    ensures Shares(ips, prefixes, families).None? <==> exists f :: f in families && Lacking(ips, prefixes, f)
    ensures Shares(ips, prefixes, families).Some? ==>
              CutInShares(Shares(ips, prefixes, families).value, cuts, ips, prefixes, families)
  {
    hide Lacking, Share, ShareOf;
    cuts := [0];
    if families != [] {
      var rest, last := families[..|families| - 1], families[|families| - 1];
      assert families == rest + [last];
      ShareIs(ips, prefixes, last);
      cuts := SharesAre(ips, prefixes, rest);
      if Shares(ips, prefixes, families).Some? {
        var before, share := Shares(ips, prefixes, rest).value, Share(ips, prefixes, last).value;
        CutOneMore(before, cuts, ips, prefixes, rest, last, share);
        cuts := cuts + [|before + share|];
      }
    }
  }

  lemma CutOneMore(all: seq<Ip>, cuts: seq<nat>, ips: seq<Ip>, prefixes: Option<seq<Prefix>>, families: seq<string>,
                   family: string, share: seq<Ip>)
    requires CutInShares(all, cuts, ips, prefixes, families) && ShareOf(share, ips, prefixes, family)
    ensures CutInShares(all + share, cuts + [|all + share|], ips, prefixes, families + [family])
  {
    hide ShareOf;
    var all', cuts', families' := all + share, cuts + [|all + share|], families + [family];
    forall i: nat | i < |families'| ensures CutAt(all', cuts', i, ips, prefixes, families'[i]) {
      if i < |families| {
        assert CutAt(all, cuts, i, ips, prefixes, families[i]);
        assert all'[cuts'[i]..cuts'[i + 1]] == all[cuts[i]..cuts[i + 1]];
      } else {
        assert all'[cuts'[i]..cuts'[i + 1]] == share;
      }
    }
  }

  /** What is allocated, family by family, and when it cannot be. */
  lemma AllocationIs(parse: string -> Ip, svc: Service, prefixes: Option<seq<Prefix>>)
    ensures var texts, answer := IngressIps(svc.ingress), Answer(parse, svc, prefixes);
            var ips := Parsed(parse, texts);
            && |ips| == |texts| && (forall i | 0 <= i < |texts| :: ips[i] == parse(texts[i]))
            && (answer.None? <==>
                 Families(svc).None? || exists f :: f in Families(svc).value && Lacking(ips, prefixes, f))
            && (answer.Some? ==> GivenOut(TextsOf(answer.value), ips, prefixes, Families(svc).value))
  {
    if Families(svc).Some? {
      hide Lacking, CutInShares;
      var cuts := SharesAre(Parsed(parse, IngressIps(svc.ingress)), prefixes, Families(svc).value);
    }
  }

  /** The addresses for one family, from the map or from a prefix. */
  method AddressesFor(current: map<string, seq<Ip>>, prefixes: Option<seq<Prefix>>, family: string, ghost ips: seq<Ip>)
    returns (addresses: Option<seq<Ip>>)
    requires ByFamily(current, ips) && forall f | f in current :: current[f] != []
    ensures addresses == Share(ips, prefixes, family)
  {
    assert OfFamily(ips, family) == if family in current then current[family] else [];
    if family in current {
      return Some(current[family]);
    }
    var ip := AllocateAddress(prefixes, family);
    addresses := if ip.None? then None else Some([ip.value]);
  }

  method AppendTexts(texts: seq<string>, addresses: seq<Ip>) returns (more: seq<string>)
    ensures more == texts + TextsOf(addresses)
  {
    more := texts;
    for k := 0 to |addresses|
      invariant more == texts + TextsOf(addresses[..k])
    {
      more := more + [addresses[k].text];
    }
    assert addresses[..|addresses|] == addresses;
  }

  method AllocateAddresses(parse: string -> Ip, svc: Service, prefixes: Option<seq<Prefix>>)
    returns (ret: Option<seq<string>>)
    ensures ret == if Answer(parse, svc, prefixes).None? then None
            else Some(TextsOf(Answer(parse, svc, prefixes).value))
    ensures ret.None? <==> Families(svc).None? || exists f ::
            f in Families(svc).value && Lacking(Parsed(parse, IngressIps(svc.ingress)), prefixes, f)
    ensures ret.Some? ==>
              GivenOut(ret.value, Parsed(parse, IngressIps(svc.ingress)), prefixes, Families(svc).value)
  {
    AllocationIs(parse, svc, prefixes);
    hide Lacking, GivenOut;
    var families := ServiceAddressFamilies(svc);
    if families.None? {
      return None;
    }
    var texts := ServiceAddresses(svc);
    ghost var ips := Parsed(parse, texts);
    var current := CurrentAddresses(parse, texts);
    ret := AllShares(current, prefixes, families.value, ips);
  }

  /** The loop over the families. */
  method AllShares(current: map<string, seq<Ip>>, prefixes: Option<seq<Prefix>>, families: seq<string>,
                   ghost ips: seq<Ip>)
    returns (ret: Option<seq<string>>)
    requires ByFamily(current, ips) && forall f | f in current :: current[f] != []
    ensures var shares := Shares(ips, prefixes, families);
            ret == if shares.None? then None else Some(TextsOf(shares.value))
  {
    var all: seq<string> := [];
    for i := 0 to |families|
      invariant Shares(ips, prefixes, families[..i]).Some?
      invariant all == TextsOf(Shares(ips, prefixes, families[..i]).value)
    {
      var addresses := AddressesFor(current, prefixes, families[i], ips);
      if addresses.None? {
        SharesFail(ips, prefixes, families, i);
        return None;
      }
      SharesStep(ips, prefixes, families, i, addresses.value);
      all := AppendTexts(all, addresses.value);
    }
    assert families[..|families|] == families;
    ret := Some(all);
  }

  lemma SharesStep(ips: seq<Ip>, prefixes: Option<seq<Prefix>>, families: seq<string>, i: nat, share: seq<Ip>)
    requires i < |families| && Shares(ips, prefixes, families[..i]).Some?
             && Share(ips, prefixes, families[i]) == Some(share)
    ensures Shares(ips, prefixes, families[..i + 1]).Some?
    ensures TextsOf(Shares(ips, prefixes, families[..i + 1]).value) ==
            TextsOf(Shares(ips, prefixes, families[..i]).value) + TextsOf(share)
  {
    SharesAppend(ips, prefixes, families[..i], families[i]);
    assert families[..i + 1] == families[..i] + [families[i]];
    hide Shares, Share, TextsOf;
    TextsJoin(Shares(ips, prefixes, families[..i]).value, share);
  }

  lemma SharesAppend(ips: seq<Ip>, prefixes: Option<seq<Prefix>>, families: seq<string>, family: string)
    requires Shares(ips, prefixes, families).Some? && Share(ips, prefixes, family).Some?
    ensures Shares(ips, prefixes, families + [family]) ==
            Some(Shares(ips, prefixes, families).value + Share(ips, prefixes, family).value)
  {
    assert (families + [family])[..|families|] == families;
  }

  lemma {:induction false} SharesFail(ips: seq<Ip>, prefixes: Option<seq<Prefix>>, families: seq<string>, i: nat)
    requires i < |families| && Share(ips, prefixes, families[i]).None?
    ensures Shares(ips, prefixes, families).None?
    decreases |families|
  {
    if i < |families| - 1 {
      SharesFail(ips, prefixes, families[..|families| - 1], i);
    }
  }

  // ---- What is reconciled for a service ----

  function PortOf(port: ServicePort): (p: Port) {
    Port(Truncated(port.port), Truncated(port.nodePort))
  }

  /** The first `i` ports are under their names, with both numbers cut to 16 bits, and nothing else. */
  ghost predicate FirstPorts(ports: map<string, Port>, svcPorts: seq<ServicePort>, i: nat)
    requires i <= |svcPorts|
  {
    && (forall n :: n in ports <==> exists k :: 0 <= k < i && svcPorts[k].name == n)
    && (forall k | 0 <= k < i :: svcPorts[k].name in ports && ports[svcPorts[k].name] == PortOf(svcPorts[k]))
  }

  /** The port is known outside by its number, and on the nodes by its node port. */
  ghost predicate NumbersOf(ports: map<string, Port>, port: ServicePort) {
    && port.name in ports
    && SameIn16(ports[port.name].external, port.port)
    && SameIn16(ports[port.name].internal, port.nodePort)
  }

  lemma PortNumbers(ports: map<string, Port>, svcPorts: seq<ServicePort>, k: nat)
    requires ForPorts(ports, svcPorts) && k < |svcPorts|
    ensures NumbersOf(ports, svcPorts[k])
  {
    TruncatedIs(svcPorts[k].port);
    TruncatedIs(svcPorts[k].nodePort);
  }

  ghost predicate ForPorts(ports: map<string, Port>, svcPorts: seq<ServicePort>) {
    FirstPorts(ports, svcPorts, |svcPorts|)
  }

  ghost predicate FirstDistinct(svcPorts: seq<ServicePort>, i: nat)
    requires i <= |svcPorts|
  {
    forall a, b | 0 <= a < b < i :: svcPorts[a].name != svcPorts[b].name
  }

  lemma FirstPortsMore(ports: map<string, Port>, svcPorts: seq<ServicePort>, i: nat)
    requires i < |svcPorts| && FirstPorts(ports, svcPorts, i) && FirstDistinct(svcPorts, i)
    ensures svcPorts[i].name in ports ==> !NamesDistinct(svcPorts)
    ensures svcPorts[i].name !in ports ==>
              FirstPorts(ports[svcPorts[i].name := PortOf(svcPorts[i])], svcPorts, i + 1)
                && FirstDistinct(svcPorts, i + 1)
  {
  }

  /** Ports by name; two ports of the same name are an error. */
  method PortsOf(svcPorts: seq<ServicePort>) returns (ports: Option<map<string, Port>>)
    ensures ports.Some? <==> NamesDistinct(svcPorts)
    ensures ports.Some? ==> ForPorts(ports.value, svcPorts)
    ensures ports.Some? ==> forall k | 0 <= k < |svcPorts| :: NumbersOf(ports.value, svcPorts[k])
  {
    var result: map<string, Port> := map[];
    for i := 0 to |svcPorts|
      invariant FirstPorts(result, svcPorts, i) && FirstDistinct(svcPorts, i)
    {
      var port := svcPorts[i];
      FirstPortsMore(result, svcPorts, i);
      if port.name in result {
        return None;
      }
      result := result[port.name := Port(port.port % 0x1_0000, port.nodePort % 0x1_0000)];
    }
    ports := Some(result);
    forall k | 0 <= k < |svcPorts| ensures NumbersOf(result, svcPorts[k]) {
      PortNumbers(result, svcPorts, k);
    }
  }

  /** The numbers of different ports still differ after they are cut to 16 bits. */
  ghost predicate NumbersDistinct(svcPorts: seq<ServicePort>) {
    forall i, j | 0 <= i < j < |svcPorts| :: Truncated(svcPorts[i].port) != Truncated(svcPorts[j].port)
  }

  lemma NumbersDistinctIff(ports: map<string, Port>, svcPorts: seq<ServicePort>)
    requires NamesDistinct(svcPorts) && ForPorts(ports, svcPorts)
    ensures DistinctPorts(ports) <==> NumbersDistinct(svcPorts)
  {
    forall k | 0 <= k < |svcPorts|
      ensures svcPorts[k].name in ports && ports[svcPorts[k].name].external == Truncated(svcPorts[k].port)
    {
    }
    if NumbersDistinct(svcPorts) {
      forall p, q | p in ports && q in ports && ports[p].external == ports[q].external ensures p == q {
        var i :| 0 <= i < |svcPorts| && svcPorts[i].name == p;
        var j :| 0 <= j < |svcPorts| && svcPorts[j].name == q;
        assert !(i < j) && !(j < i);
      }
    }
  }

  ghost predicate Collides(ip: Ip, taken: seq<Ip>) {
    exists k :: 0 <= k < |taken| && taken[k].text == ip.text
  }

  /** The services can be listed, and none of them has the address; `taken` is what the others have. */
  ghost predicate Free(ip: Ip, taken: Option<seq<Ip>>) {
    taken.Some? && !Collides(ip, taken.value)
  }

  /** No address that will be used belongs to another service. */
  ghost predicate AllFree(parse: string -> Ip, unspecified: Ip -> bool, addresses: seq<string>,
                          taken: Option<seq<Ip>>) {
    forall i | 0 <= i < |addresses| && !unspecified(parse(addresses[i])) :: Free(parse(addresses[i]), taken)
  }

  ghost predicate NamesDistinct(svcPorts: seq<ServicePort>) {
    forall i, j | 0 <= i < j < |svcPorts| :: svcPorts[i].name != svcPorts[j].name
  }

  ghost function Specified(ips: seq<Ip>, unspecified: Ip -> bool): (some: seq<Ip>) {
    if ips == [] then []
    else Specified(ips[..|ips| - 1], unspecified) + if unspecified(ips[|ips| - 1]) then [] else [ips[|ips| - 1]]
  }

  ghost function SpecifiedPlaces(ips: seq<Ip>, unspecified: Ip -> bool): (places: set<nat>) {
    set i: nat | i < |ips| && !unspecified(ips[i])
  }

  lemma {:induction false} SpecifiedPicked(ips: seq<Ip>, unspecified: Ip -> bool)
    ensures Picks(Specified(ips, unspecified), ips, SpecifiedPlaces(ips, unspecified))
  {
    hide Picks;
    if ips == [] {
      PicksNothing<Ip>([]);
      assert SpecifiedPlaces(ips, unspecified) == {};
    } else {
      var rest, last := ips[..|ips| - 1], ips[|ips| - 1];
      assert ips == rest + [last];
      SpecifiedPicked(rest, unspecified);
      PicksMore(Specified(rest, unspecified), rest, SpecifiedPlaces(rest, unspecified), last);
      if unspecified(last) {
        assert SpecifiedPlaces(ips, unspecified) == SpecifiedPlaces(rest, unspecified);
        assert Specified(ips, unspecified) == Specified(rest, unspecified);
      } else {
        assert SpecifiedPlaces(ips, unspecified) == SpecifiedPlaces(rest, unspecified) + {|rest|};
      }
    }
  }

  /** checkIPCollision; `taken` is None if the services cannot be listed, and empty without a Kubernetes client. */
  method CheckIpCollision(ip: Ip, taken: Option<seq<Ip>>) returns (ok: bool)
    ensures ok <==> Free(ip, taken)
  {
    if taken.None? {
      return false;
    }
    for k := 0 to |taken.value|
      invariant forall j | 0 <= j < k :: taken.value[j].text != ip.text
    {
      if taken.value[k].text == ip.text {
        return false;
      }
    }
    return true;
  }

  /** The addresses to reconcile for: without unspecified ones, and none that another service has already. */
  method ExternalAddresses(parse: string -> Ip, unspecified: Ip -> bool, addresses: seq<string>, taken: Option<seq<Ip>>)
    returns (ips: Option<seq<Ip>>)
    ensures ips.Some? <==> AllFree(parse, unspecified, addresses, taken)
    ensures ips.Some? ==> ips.value == Specified(Parsed(parse, addresses), unspecified)
    ensures ips.Some? ==> var all := Parsed(parse, addresses);
              && |all| == |addresses| && (forall i | 0 <= i < |addresses| :: all[i] == parse(addresses[i]))
              && Picks(ips.value, all, SpecifiedPlaces(all, unspecified))
  {
    hide Picks, SpecifiedPlaces;
    SpecifiedPicked(Parsed(parse, addresses), unspecified);
    var result: seq<Ip> := [];
    for i := 0 to |addresses|
      invariant forall k | 0 <= k < i && !unspecified(parse(addresses[k])) :: Free(parse(addresses[k]), taken)
      invariant result == Specified(Parsed(parse, addresses[..i]), unspecified)
    {
      var ip := parse(addresses[i]);
      assert Parsed(parse, addresses[..i + 1])[..i] == Parsed(parse, addresses[..i]);
      if !unspecified(ip) {
        var free := CheckIpCollision(ip, taken);
        if !free {
          return None;
        }
        result := result + [ip];
      }
    }
    assert addresses[..|addresses|] == addresses;
    ips := Some(result);
  }

  // ---- GetLoadBalancer ----

  ghost predicate Carries(ports: seq<Port16>, port: int) {
    exists j :: 0 <= j < |ports| && ports[j] as int == port
  }

  /** Every address serves every port of the service, at its full width. */
  ghost predicate ServesAll(m: Status, addresses: seq<Ip>, svcPorts: seq<ServicePort>) {
    forall i | 0 <= i < |addresses| :: addresses[i].text in m && CarriesAll(m[addresses[i].text], svcPorts)
  }

  ghost predicate CarriesAll(ports: seq<Port16>, svcPorts: seq<ServicePort>) {
    forall k | 0 <= k < |svcPorts| :: Carries(ports, svcPorts[k].port)
  }

  method PortFound(ports: seq<Port16>, port: int) returns (found: bool)
    ensures found <==> Carries(ports, port)
  {
    for k := 0 to |ports|
      invariant forall j | 0 <= j < k :: ports[j] as int != port
    {
      if ports[k] as int == port {
        return true;
      }
    }
    return false;
  }

  method AllPortsFound(ports: seq<Port16>, svcPorts: seq<ServicePort>) returns (all: bool)
    ensures all <==> CarriesAll(ports, svcPorts)
  {
    for i := 0 to |svcPorts|
      invariant forall k | 0 <= k < i :: Carries(ports, svcPorts[k].port)
    {
      var portFound := PortFound(ports, svcPorts[i].port);
      if !portFound {
        return false;
      }
    }
    return true;
  }

  /** GetLoadBalancer's answer to whether the load balancer is created. */
  method Created(m: Status, addresses: seq<Ip>, svcPorts: seq<ServicePort>) returns (created: bool)
    ensures created <==> ServesAll(m, addresses, svcPorts)
  {
    created := true;
    for i := 0 to |addresses|
      invariant created <==> forall k | 0 <= k < i ::
                addresses[k].text in m && CarriesAll(m[addresses[k].text], svcPorts)
    {
      if addresses[i].text !in m {
        return false;
      }
      var all := AllPortsFound(m[addresses[i].text], svcPorts);
      if !all {
        created := false;
      }
    }
  }

  /**
    * Once the merged status is the intended one, the load balancer counts as created
    * exactly if every port number fits into 16 bits and there is one, or if there is
    * no address to look at.
    */
  lemma IntendedIsCreated(m: Status, addresses: seq<Ip>, ports: map<string, Port>, svcPorts: seq<ServicePort>)
    requires Reports(m, Texts(addresses), ports) && ForPorts(ports, svcPorts)
    ensures ServesAll(m, addresses, svcPorts) <==>
              || addresses == []
              || (svcPorts != [] && AllFit16(svcPorts))
  {
    if addresses != [] {
      assert addresses[0] in addresses;
      if svcPorts == [] {
        assert ports == map[];
      } else {
        assert svcPorts[0].name in ports;
        forall i | 0 <= i < |addresses|
          ensures addresses[i].text in m
          ensures CarriesAll(m[addresses[i].text], svcPorts) <==> AllFit16(svcPorts)
        {
          assert addresses[i] in addresses;
          forall k | 0 <= k < |svcPorts|
            ensures Carries(m[addresses[i].text], svcPorts[k].port) <==> 0 <= svcPorts[k].port < 0x1_0000
          {
            PortReported(m, addresses, ports, svcPorts, addresses[i].text, k);
          }
        }
      }
    }
  }

  predicate AllFit16(svcPorts: seq<ServicePort>) {
    forall k | 0 <= k < |svcPorts| :: 0 <= svcPorts[k].port < 0x1_0000
  }

  lemma PortReported(m: Status, addresses: seq<Ip>, ports: map<string, Port>, svcPorts: seq<ServicePort>, a: string,
                     k: nat)
    requires Reports(m, Texts(addresses), ports) && ForPorts(ports, svcPorts) && a in m && k < |svcPorts|
    ensures Carries(m[a], svcPorts[k].port) <==> 0 <= svcPorts[k].port < 0x1_0000
  {
    if 0 <= svcPorts[k].port < 0x1_0000 {
      var p: Port16 := svcPorts[k].port;
      assert ports[svcPorts[k].name].external == p;
      assert External(ports, p);
      assert p in m[a];
    }
  }

  // ---- The status written back ----

  ghost predicate Ascending(s: seq<int>) {
    forall i, j | 0 <= i < j < |s| :: s[i] <= s[j]
  }

  ghost predicate StrictlyAscending(s: seq<int>) {
    forall i, j | 0 <= i < j < |s| :: s[i] < s[j]
  }

  /** Go's slices.Sort, of which only the contract matters. */
  method Sort(s: seq<int>) returns (sorted: seq<int>)
    ensures Ascending(sorted) && forall x :: x in sorted <==> x in s
  {
    sorted := [];
    for i := 0 to |s|
      invariant Ascending(sorted) && forall x :: x in sorted <==> x in s[..i]
    {
      assert s[..i + 1] == s[..i] + [s[i]];
      sorted := Insert(sorted, s[i]);
    }
    assert s[..|s|] == s;
  }

  lemma AscendJoin(a: seq<int>, b: seq<int>)
    requires Ascending(a) && Ascending(b) && forall i, j | 0 <= i < |a| && 0 <= j < |b| :: a[i] <= b[j]
    ensures Ascending(a + b)
  {
  }

  lemma InsertedAscends(s: seq<int>, k: nat, x: int)
    requires Ascending(s) && k <= |s| && (forall i | 0 <= i < k :: s[i] < x) && (k < |s| ==> x <= s[k])
    ensures Ascending(s[..k] + [x] + s[k..]) && forall y :: y in s[..k] + [x] + s[k..] <==> y in s || y == x
  {
    assert s == s[..k] + s[k..];
    assert Ascending(s[..k]) && Ascending(s[k..]) && Ascending([x]);
    forall j | 0 <= j < |s[k..]| ensures x <= s[k..][j] && forall i | 0 <= i < k :: s[i] <= s[k..][j] {
      assert s[k..][j] == s[k + j];
    }
    hide Ascending;
    AscendJoin(s[..k], [x]);
    AscendJoin(s[..k] + [x], s[k..]);
  }

  method Insert(s: seq<int>, x: int) returns (longer: seq<int>)
    requires Ascending(s)
    ensures Ascending(longer) && forall y :: y in longer <==> y in s || y == x
  {
    var k := 0;
    while k < |s| && s[k] < x
      invariant 0 <= k <= |s| && forall i | 0 <= i < k :: s[i] < x
    {
      k := k + 1;
    }
    longer := s[..k] + [x] + s[k..];
    InsertedAscends(s, k, x);
  }

  /** Go's slices.Compact on a sorted slice. */
  method Compact(s: seq<int>) returns (distinct: seq<int>)
    requires Ascending(s)
    ensures StrictlyAscending(distinct) && forall x :: x in distinct <==> x in s
  {
    distinct := [];
    for i := 0 to |s|
      invariant StrictlyAscending(distinct) && forall x :: x in distinct <==> x in s[..i]
      invariant if i == 0 then distinct == [] else distinct != [] && distinct[|distinct| - 1] == s[i - 1]
    {
      assert s[..i + 1] == s[..i] + [s[i]];
      if i == 0 || s[i] != s[i - 1] {
        distinct := distinct + [s[i]];
      }
    }
    assert s[..|s|] == s;
  }

  ghost predicate InSome(m: Status, port: int) {
    exists a :: a in m && Carries(m[a], port)
  }

  /** All ports of all addresses, in any order. */
  method AllPorts(m: Status) returns (numbers: seq<int>)
    ensures forall x :: x in numbers <==> InSome(m, x)
  {
    numbers := [];
    var addresses := Enumerate(m);
    for i := 0 to |addresses|
      invariant forall x :: x in numbers <==> exists k :: 0 <= k < i && Carries(m[addresses[k]], x)
    {
      var more := Widen(m[addresses[i]]);
      numbers := numbers + more;
    }
    forall x ensures x in numbers <==> InSome(m, x) {
      if InSome(m, x) {
        var a :| a in m && Carries(m[a], x);
        assert a in addresses;
      }
      if x in numbers {
        var k :| 0 <= k < |addresses| && Carries(m[addresses[k]], x);
        assert addresses[k] in addresses;
      }
    }
  }

  method Widen(ports: seq<Port16>) returns (wide: seq<int>)
    ensures forall x :: x in wide <==> Carries(ports, x)
  {
    wide := [];
    for k := 0 to |ports|
      invariant forall x :: x in wide <==> exists j :: 0 <= j < k && ports[j] as int == x
    {
      wide := wide + [ports[k] as int];
    }
  }

  /** The reported ports: strictly increasing, and all but zero of what some address serves. */
  ghost predicate ReportedPorts(ports: seq<int>, m: Status) {
    StrictlyAscending(ports) && forall x :: x in ports <==> x != 0 && InSome(m, x)
  }

  ghost predicate LbStatus(ingress: seq<Ingress>, m: Status, hostname: string) {
    && (forall i | 0 <= i < |ingress| :: ReportedPorts(ingress[i].ports, m))
    && (hostname != "" ==> |ingress| == 1 && ingress[0].hostname == hostname && ingress[0].ip == "")
    && (hostname == "" ==>
          && (forall i, j | 0 <= i < j < |ingress| :: ingress[i].ip != ingress[j].ip)
          && (forall i | 0 <= i < |ingress| :: ingress[i].hostname == "" && ingress[i].ip in m)
          && (forall a | a in m :: exists i :: 0 <= i < |ingress| && ingress[i].ip == a))
  }

  method LbStatusFromReconcileStatus(m: Status, hostname: string) returns (ingress: seq<Ingress>)
    ensures LbStatus(ingress, m, hostname)
  {
    var portNumbers := AllPorts(m);
    portNumbers := Sort(portNumbers);
    portNumbers := Compact(portNumbers);
    var ports: seq<int> := [];
    for i := 0 to |portNumbers|
      invariant StrictlyAscending(ports) && forall x :: x in ports <==> x in portNumbers[..i] && x != 0
    {
      assert portNumbers[..i + 1] == portNumbers[..i] + [portNumbers[i]];
      if portNumbers[i] != 0 {
        assert forall k | 0 <= k < |ports| :: ports[k] in ports;
        ports := ports + [portNumbers[i]];
      }
    }
    assert portNumbers[..|portNumbers|] == portNumbers;
    if hostname != "" {
      return [Ingress("", hostname, ports)];
    }
    ingress := PerAddress(m, ports);
  }

  method PerAddress(m: Status, ports: seq<int>) returns (ingress: seq<Ingress>)
    requires ReportedPorts(ports, m)
    ensures LbStatus(ingress, m, "")
  {
    ingress := [];
    var addresses := Enumerate(m);
    for i := 0 to |addresses|
      invariant |ingress| == i && forall k | 0 <= k < i :: ingress[k] == Ingress(addresses[k], "", ports)
    {
      ingress := ingress + [Ingress(addresses[i], "", ports)];
    }
    forall a | a in m ensures exists i :: 0 <= i < |ingress| && ingress[i].ip == a {
      assert a in addresses;
      var i :| 0 <= i < |addresses| && addresses[i] == a;
      assert ingress[i].ip == a;
    }
    forall i | 0 <= i < |ingress| ensures ingress[i].ip in m {
      assert addresses[i] in addresses;
    }
  }

  // ---- The fixed point ----

  /** Reading an address back from how it was written gives that address; no address is written as nothing. */
  ghost predicate Readable(parse: string -> Ip, ip: Ip) {
    parse(ip.text) == ip && ip.text != ""
  }

  lemma {:induction false} OfFamilyHas(ips: seq<Ip>, family: string, ip: Ip)
    ensures ip in OfFamily(ips, family) <==> ip in ips && FamilyOf(ip) == family
  {
    if ips != [] {
      assert ips == ips[..|ips| - 1] + [ips[|ips| - 1]];
      OfFamilyHas(ips[..|ips| - 1], family, ip);
    }
  }

  /** The prefixes of a family provide addresses of that family. */
  ghost predicate PrefixesFit(prefixes: Option<seq<Prefix>>) {
    prefixes.Some? ==> forall p | p in prefixes.value :: FamilyOf(p.address) == p.family
  }

  lemma {:induction false} FirstOfFits(prefixes: seq<Prefix>, family: string)
    requires forall p | p in prefixes :: FamilyOf(p.address) == p.family
    ensures FirstOf(prefixes, family).Some? ==> FamilyOf(FirstOf(prefixes, family).value) == family
  {
    if prefixes != [] && prefixes[0].family != family {
      FirstOfFits(prefixes[1..], family);
    }
  }

  ghost predicate Present(ips: seq<Ip>, family: string) {
    exists ip :: ip in ips && FamilyOf(ip) == family
  }

  /** Every share is of its family and not empty. */
  lemma ShareOfFamily(ips: seq<Ip>, prefixes: Option<seq<Prefix>>, family: string)
    requires PrefixesFit(prefixes) && Share(ips, prefixes, family).Some?
    ensures Share(ips, prefixes, family).value != []
    ensures forall ip | ip in Share(ips, prefixes, family).value :: FamilyOf(ip) == family
  {
    if OfFamily(ips, family) != [] {
      forall ip | ip in OfFamily(ips, family) ensures FamilyOf(ip) == family {
        OfFamilyHas(ips, family, ip);
      }
    } else {
      FirstOfFits(prefixes.value, family);
    }
  }

  lemma {:induction false} SharesOfFamilies(ips: seq<Ip>, prefixes: Option<seq<Prefix>>, families: seq<string>)
    requires PrefixesFit(prefixes) && Shares(ips, prefixes, families).Some?
    ensures forall ip | ip in Shares(ips, prefixes, families).value :: FamilyOf(ip) in families
    ensures forall f | f in families :: Present(Shares(ips, prefixes, families).value, f)
  {
    if families != [] {
      var rest, last := families[..|families| - 1], families[|families| - 1];
      assert families == rest + [last];
      SharesOfFamilies(ips, prefixes, rest);
      ShareOfFamily(ips, prefixes, last);
      var all, before, share := Shares(ips, prefixes, families).value, Shares(ips, prefixes, rest).value,
        Share(ips, prefixes, last).value;
      assert all == before + share;
      forall f | f in families ensures Present(all, f) {
        if f == last {
          assert share[0] in all && share[0] in share;
        } else {
          var ip :| ip in before && FamilyOf(ip) == f;
          assert ip in all;
        }
      }
    }
  }

  /** When every family has an address already, the shares are just these addresses, and no prefix is asked. */
  lemma {:induction false} SharesOfPresent(ips: seq<Ip>, prefixes: Option<seq<Prefix>>, families: seq<string>)
    requires forall f | f in families :: Present(ips, f)
    ensures Shares(ips, prefixes, families).Some?
    ensures Shares(ips, prefixes, families) == Shares(ips, None, families)
    ensures forall ip :: ip in Shares(ips, prefixes, families).value <==> ip in ips && FamilyOf(ip) in families
  {
    if families != [] {
      var rest, last := families[..|families| - 1], families[|families| - 1];
      assert families == rest + [last];
      forall f | f in rest ensures Present(ips, f) {
        assert f in families;
      }
      SharesOfPresent(ips, prefixes, rest);
      assert last in families && Present(ips, last);
      var ip :| ip in ips && FamilyOf(ip) == last;
      OfFamilyHas(ips, last, ip);
      assert OfFamily(ips, last) != [];
      forall x ensures x in OfFamily(ips, last) <==> x in ips && FamilyOf(x) == last {
        OfFamilyHas(ips, last, x);
      }
    }
  }

  lemma {:induction false} IngressIpsHas(ingress: seq<Ingress>, ip: string)
    ensures ip in IngressIps(ingress) <==> ip != "" && exists i :: 0 <= i < |ingress| && ingress[i].ip == ip
  {
    if ingress != [] {
      var rest, last := ingress[..|ingress| - 1], ingress[|ingress| - 1];
      IngressIpsHas(rest, ip);
      if exists i :: 0 <= i < |ingress| && ingress[i].ip == ip {
        var i :| 0 <= i < |ingress| && ingress[i].ip == ip;
        assert i < |rest| ==> rest[i].ip == ip;
      }
    }
  }

  /** The addresses read back from a status written for `ips`. */
  lemma WrittenBack(parse: string -> Ip, ingress: seq<Ingress>, m: Status, ips: seq<Ip>)
    requires LbStatus(ingress, m, "") && m.Keys == Texts(ips)
    requires forall ip | ip in ips :: Readable(parse, ip)
    ensures forall ip :: ip in Parsed(parse, IngressIps(ingress)) <==> ip in ips
  {
    var texts := IngressIps(ingress);
    var back := Parsed(parse, texts);
    forall t ensures t in texts <==> t in Texts(ips) {
      IngressIpsHas(ingress, t);
      if t in Texts(ips) {
        var ip :| ip in ips && ip.text == t;
        assert Readable(parse, ip);
      }
    }
    forall ip | ip in ips ensures ip in back {
      assert ip.text in texts;
      var i :| 0 <= i < |texts| && texts[i] == ip.text;
      assert back[i] == ip;
    }
    forall ip | ip in back ensures ip in ips {
      var i :| 0 <= i < |back| && back[i] == ip;
      assert texts[i] in texts;
      var x :| x in ips && x.text == texts[i];
      assert Readable(parse, x);
    }
  }

  /**
    * The loop comes to rest: once the status written back lists the addresses that
    * were allocated, allocating again gives the same addresses, whatever the
    * prefixes have become meanwhile, and even if they can no longer be listed.
    */
  lemma AllocationIsStable(parse: string -> Ip, svc: Service, prefixes: Option<seq<Prefix>>, m: Status,
                           ingress: seq<Ingress>, later: Option<seq<Prefix>>)
    requires Answer(parse, svc, prefixes).Some? && PrefixesFit(prefixes)
    requires forall ip | ip in Answer(parse, svc, prefixes).value :: Readable(parse, ip)
    requires m.Keys == Texts(Answer(parse, svc, prefixes).value)
    requires svc.hostname == "" && LbStatus(ingress, m, svc.hostname)
    ensures var again := Answer(parse, svc.(ingress := ingress), later);
            && again.Some?
            && again == Answer(parse, svc.(ingress := ingress), None)
            && forall ip :: ip in again.value <==> ip in Answer(parse, svc, prefixes).value
  {
    var ips := Answer(parse, svc, prefixes).value;
    var families := Families(svc).value;
    var svc' := svc.(ingress := ingress);
    assert Families(svc') == Families(svc);
    SharesOfFamilies(Parsed(parse, IngressIps(svc.ingress)), prefixes, families);
    WrittenBack(parse, ingress, m, ips);
    var back := Parsed(parse, IngressIps(ingress));
    forall f | f in families ensures Present(back, f) {
      var ip :| ip in ips && FamilyOf(ip) == f;
      assert ip in back;
    }
    SharesOfPresent(back, later, families);
  }

  lemma {:induction false} SharesOfNothing(families: seq<string>)
    ensures Shares([], None, families).Some? <==> families == []
  {
    if families != [] {
      assert families == families[..|families| - 1] + [families[|families| - 1]];
    }
  }

  lemma WrittenFrom(ingress: seq<Ingress>, m: Status)
    requires LbStatus(ingress, m, "")
    ensures ingress != [] ==> m != map[]
  {
    if ingress != [] {
      assert ingress[0].ip in m;
    }
  }

  /** A status with a hostname, or that lists nothing, gives no address back. */
  lemma NothingToRead(ingress: seq<Ingress>, m: Status, hostname: string)
    requires LbStatus(ingress, m, hostname) && (hostname != "" || m == map[])
    ensures IngressIps(ingress) == []
  {
    if hostname == "" {
      WrittenFrom(ingress, m);
    } else {
      assert ingress == [ingress[0]];
      assert [ingress[0]][..0] == [];
    }
  }

  /** With a hostname, or if the status lists nothing, the next allocation begins anew. */
  lemma AllocationAnew(parse: string -> Ip, svc: Service, prefixes: Option<seq<Prefix>>, m: Status,
                       ingress: seq<Ingress>, later: Option<seq<Prefix>>)
    requires Answer(parse, svc, prefixes).Some? && PrefixesFit(prefixes)
    requires LbStatus(ingress, m, svc.hostname) && (svc.hostname != "" || m == map[])
    ensures Answer(parse, svc.(ingress := ingress), later) == Shares([], later, Families(svc).value)
    ensures Answer(parse, svc.(ingress := ingress), None).Some? <==> Answer(parse, svc, prefixes).value == []
  {
    var families := Families(svc).value;
    NothingToRead(ingress, m, svc.hostname);
    assert Parsed(parse, IngressIps(ingress)) == [];
    assert Families(svc.(ingress := ingress)) == Families(svc);
    SharesOfNothing(families);
    SharesOfFamilies(Parsed(parse, IngressIps(svc.ingress)), prefixes, families);
    if families != [] {
      assert families[0] in families;
    }
  }

  /** Without prefixes only the present addresses can be given out. */
  lemma {:induction false} SharesKnown(ips: seq<Ip>, families: seq<string>)
    requires Shares(ips, None, families).Some?
    ensures forall ip | ip in Shares(ips, None, families).value :: ip in ips
  {
    if families != [] {
      var rest, last := families[..|families| - 1], families[|families| - 1];
      SharesKnown(ips, rest);
      forall ip | ip in OfFamily(ips, last) ensures ip in ips {
        OfFamilyHas(ips, last, ip);
      }
    }
  }

  ghost predicate SameAddresses(shares: Option<seq<Ip>>, ips: seq<Ip>) {
    shares.Some? && forall ip :: ip in shares.value <==> ip in ips
  }

  /** An address that the status does not list is not among the next ones, unless a prefix gives it again. */
  lemma LostIsForgotten(parse: string -> Ip, svc: Service, m: Status, ingress: seq<Ingress>, ips: seq<Ip>)
    requires svc.hostname == "" && LbStatus(ingress, m, svc.hostname)
    requires (forall ip | ip in ips :: Readable(parse, ip)) && m.Keys <= Texts(ips) && !(Texts(ips) <= m.Keys)
    ensures !SameAddresses(Answer(parse, svc.(ingress := ingress), None), ips)
  {
    var texts, again := IngressIps(ingress), Answer(parse, svc.(ingress := ingress), None);
    var back := Parsed(parse, texts);
    var lost :| lost in ips && lost.text !in m;
    forall ip | ip in back ensures ip.text in m {
      var i :| 0 <= i < |back| && back[i] == ip;
      IngressIpsHas(ingress, texts[i]);
      assert texts[i] in texts && texts[i] in Texts(ips);
      var x :| x in ips && x.text == texts[i];
      assert Readable(parse, x);
    }
    if again.Some? {
      SharesKnown(back, Families(svc).value);
    }
  }
}
