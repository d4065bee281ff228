/**
  * The Engine's resources as this program sees them, and the part of the Engine
  * that belongs to one LBaaS LoadBalancer.
  */
module Resources {
  import opened Common

  /** Identifiers the Engine hands out; only ever compared for equality. */
  type Id = nat

  /** Go's uint16. */
  type Port16 = x: nat | x < 0x1_0000

  datatype Mode = TCP | HTTP

  const TCP_CHECK: string := "\"adv_check\": \"tcp-check\""
  const ENABLED: string := "enabled"

  /**
    * What is configured in a resource. Every attribute of the first four kinds
    * is one that the reconciliation steps compare, so equality of two values is
    * exactly the comparison the steps ask for. Foreign stands for every other
    * type of resource that may carry our tag.
    */
  datatype Spec =
    | Backend(name: string, mode: Mode, healthCheck: string, lb: Id)
    | Frontend(name: string, mode: Mode, lb: Id, defaultBackend: Option<Id>)
    | Bind(name: string, address: string, port: int, frontend: Id)
    | Server(name: string, ip: string, port: int, check: string, backend: Id)
    | Foreign

  /** The resource a resource refers to, if any. */
  function Parent(spec: Spec): (parent: Option<Id>) {
    match spec
    case Frontend(_, _, _, backend) => backend
    case Bind(_, _, _, frontend) => Some(frontend)
    case Server(_, _, _, _, backend) => Some(backend)
    case _ => None
  }

  /** How many levels of resources can refer to this one, directly or not. */
  function Height(spec: Spec): (height: nat)
    ensures height <= 2
  {
    match spec
    case Backend(_, _, _, _) => 2
    case Frontend(_, _, _, _) => 1
    case _ => 0
  }

  datatype Class = OK | Pending | Error | Unknown

  /** The state of a resource: its class, and whether its ID is the one of Updating. */
  datatype State = State(updating: bool, kind: Class)

  /** The arrays sortObjectIntoStateArray distinguishes; Ready objects go into none. */
  datatype Condition = Updating | Failed | Progressing | Ready

  function ConditionOf(s: State): (c: Condition) {
    if s.updating then Updating
    else if s.kind == Error then Failed
    else if s.kind == Pending then Progressing
    else Ready
  }

  /** It is neither updating nor failed nor pending. */
  predicate IsReady(s: State) {
    !s.updating && !s.kind.Error? && !s.kind.Pending?
  }

  /** A resource as retrieved: its identifier, its attributes and the state of that moment. */
  datatype Object = Object(id: Id, spec: Spec, state: State)

  datatype Record = Record(spec: Spec, state: State, tags: set<string>)

  /** Everything the Engine holds. */
  type Store = map<Id, Record>

  /** The reference in `spec` can be resolved; a Frontend and its Backend are on one LoadBalancer. */
  ghost predicate ParentExists(s: Store, spec: Spec) {
    match spec
    case Frontend(_, _, lb, Some(b)) => b in s && s[b].spec.Backend? && s[b].spec.lb == lb
    case Bind(_, _, _, f) => f in s && s[f].spec.Frontend?
    case Server(_, _, _, _, b) => b in s && s[b].spec.Backend?
    case _ => true
  }

  /** The Engine honours references. */
  ghost predicate Sound(s: Store) {
    forall id | id in s :: ParentExists(s, s[id].spec)
  }

  ghost predicate Referenced(s: Store, id: Id) {
    exists child :: child in s && Parent(s[child].spec) == Some(id)
  }

  /** The LoadBalancer a resource of this shape would belong to. */
  ghost function Home(s: Store, spec: Spec): (lb: Option<Id>) {
    match spec
    case Backend(_, _, _, lb) => Some(lb)
    case Frontend(_, _, lb, _) => Some(lb)
    case Bind(_, _, _, f) => if f in s && s[f].spec.Frontend? then Some(s[f].spec.lb) else None
    case Server(_, _, _, _, b) => if b in s && s[b].spec.Backend? then Some(s[b].spec.lb) else None
    case Foreign => None
  }

  datatype Asset = Asset(spec: Spec, tags: set<string>)

  /** The resources of one LoadBalancer, tagged or not. */
  type Estate = map<Id, Asset>

  ghost function EstateOf(s: Store, lb: Id): (e: Estate) {
    map id | id in s && Home(s, s[id].spec) == Some(lb) :: Asset(s[id].spec, s[id].tags)
  }

  /** What a reconciliation works with: identifiers and attributes, no states. */
  type Topology = map<Id, Spec>

  ghost predicate Tagged(e: Estate, tag: string, id: Id) {
    id in e && tag in e[id].tags
  }

  /** The tagged resources of an estate; a Bind or Server counts only below a tagged parent. */
  ghost predicate Working(e: Estate, tag: string, id: Id) {
    && Tagged(e, tag, id)
    && (e[id].spec.Bind? ==> Tagged(e, tag, e[id].spec.frontend))
    && (e[id].spec.Server? ==> Tagged(e, tag, e[id].spec.backend))
  }

  ghost function TopologyOf(e: Estate, tag: string): (t: Topology) {
    map id | id in e && Working(e, tag, id) :: e[id].spec
  }

  /** All of the estate without its tags. */
  ghost function Holdings(e: Estate): (t: Topology) {
    map id | id in e :: e[id].spec
  }

  // What the four changing calls of the Engine's API do to the estates.

  lemma EstateSound(s: Store, lb: Id, id: Id)
    requires Sound(s)
    requires id in EstateOf(s, lb)
    ensures Parent(s[id].spec).Some? ==> Parent(s[id].spec).value in EstateOf(s, lb)
  {
    assert ParentExists(s, s[id].spec);
  }

  lemma CreateInEstate(s: Store, id: Id, r: Record, me: Id, lb: Id)
    requires Sound(s) && id !in s && ParentExists(s, r.spec)
    requires Home(s, r.spec) == Some(me)
    ensures Sound(s[id := r])
    ensures EstateOf(s[id := r], lb) ==
            if lb == me then EstateOf(s, lb)[id := Asset(r.spec, r.tags)] else EstateOf(s, lb)
  {
    var s' := s[id := r];
    forall x | x in s ensures Home(s', s[x].spec) == Home(s, s[x].spec) && ParentExists(s', s[x].spec) {
      assert ParentExists(s, s[x].spec);
    }
    assert Home(s', r.spec) == Some(me);
  }

  lemma UpdateInEstate(s: Store, id: Id, r: Record, me: Id, lb: Id)
    requires Sound(s) && id in s && s[id].spec == r.spec
    requires id in EstateOf(s, me)
    ensures Sound(s[id := r])
    ensures EstateOf(s[id := r], lb) ==
            if lb == me then EstateOf(s, lb)[id := Asset(r.spec, r.tags)] else EstateOf(s, lb)
  {
    var s' := s[id := r];
    forall x | x in s ensures Home(s', s[x].spec) == Home(s, s[x].spec) && ParentExists(s', s[x].spec) {
      assert ParentExists(s, s[x].spec);
    }
  }

  lemma DestroyInEstate(s: Store, id: Id, me: Id, lb: Id)
    requires Sound(s) && id in s && !Referenced(s, id)
    requires id in EstateOf(s, me)
    ensures Sound(s - {id})
    ensures EstateOf(s - {id}, lb) == if lb == me then EstateOf(s, lb) - {id} else EstateOf(s, lb)
  {
    var s' := s - {id};
    forall x | x in s' ensures Home(s', s[x].spec) == Home(s, s[x].spec) && ParentExists(s', s[x].spec) {
      assert ParentExists(s, s[x].spec);
      assert Parent(s[x].spec) != Some(id);
    }
  }

  lemma CreateEffect(s: Store, id: Id, r: Record, me: Id)
    requires Sound(s) && id !in s && ParentExists(s, r.spec)
    requires Home(s, r.spec) == Some(me)
    ensures Sound(s[id := r])
    ensures EstateOf(s[id := r], me) == EstateOf(s, me)[id := Asset(r.spec, r.tags)]
    ensures forall lb | lb != me :: EstateOf(s[id := r], lb) == EstateOf(s, lb)
  {
    CreateInEstate(s, id, r, me, me);
    forall lb | lb != me ensures EstateOf(s[id := r], lb) == EstateOf(s, lb) {
      CreateInEstate(s, id, r, me, lb);
    }
  }

  lemma UpdateEffect(s: Store, id: Id, r: Record, me: Id)
    requires Sound(s) && id in s && s[id].spec == r.spec
    requires id in EstateOf(s, me)
    ensures Sound(s[id := r])
    ensures EstateOf(s[id := r], me) == EstateOf(s, me)[id := Asset(r.spec, r.tags)]
    ensures forall lb | lb != me :: EstateOf(s[id := r], lb) == EstateOf(s, lb)
  {
    UpdateInEstate(s, id, r, me, me);
    forall lb | lb != me ensures EstateOf(s[id := r], lb) == EstateOf(s, lb) {
      UpdateInEstate(s, id, r, me, lb);
    }
  }

  lemma DestroyEffect(s: Store, id: Id, me: Id)
    requires Sound(s) && id in s && !Referenced(s, id)
    requires id in EstateOf(s, me)
    ensures Sound(s - {id})
    ensures EstateOf(s - {id}, me) == EstateOf(s, me) - {id}
    ensures forall lb | lb != me :: EstateOf(s - {id}, lb) == EstateOf(s, lb)
  {
    DestroyInEstate(s, id, me, me);
    forall lb | lb != me ensures EstateOf(s - {id}, lb) == EstateOf(s, lb) {
      DestroyInEstate(s, id, me, lb);
    }
  }

  /** What a LoadBalancer needs of its own for a resource of this shape to be created on it. */
  ghost predicate Fits(e: Estate, me: Id, spec: Spec) {
    match spec
    case Backend(_, _, _, lb) => lb == me
    case Frontend(_, _, lb, b) => lb == me && (b.Some? ==> b.value in e && e[b.value].spec.Backend?)
    case Bind(_, _, _, f) => f in e && e[f].spec.Frontend?
    case Server(_, _, _, _, b) => b in e && e[b].spec.Backend?
    case Foreign => false
  }

  lemma FitsHome(s: Store, me: Id, spec: Spec)
    requires Fits(EstateOf(s, me), me, spec)
    ensures Home(s, spec) == Some(me) && ParentExists(s, spec)
  {
  }

  /** Only the estate itself can refer to a resource of the estate. */
  lemma ReferencedInEstate(s: Store, id: Id, me: Id)
    requires Sound(s) && id in EstateOf(s, me)
    ensures Referenced(s, id) <==> ReferencedIn(Holdings(EstateOf(s, me)), id)
  {
    var e := EstateOf(s, me);
    forall child | child in s && Parent(s[child].spec) == Some(id)
      ensures child in Holdings(e) && Holdings(e)[child] == s[child].spec
    {
      assert ParentExists(s, s[child].spec);
    }
  }

  ghost predicate ReferencedIn(t: Topology, id: Id) {
    exists child :: child in t && Parent(t[child]) == Some(id)
  }
}
