/**
  * The Engine behind the API, and everybody else who uses it. Every call starts
  * with a move of the environment, so what is proved about a caller holds for
  * every interleaving of its calls with those of other reconciliations.
  */
module Engines {
  import opened Common
  import opened Resources

  datatype Kind = Backends | Frontends | Binds | Servers | Others

  function KindOf(spec: Spec): (kind: Kind) {
    match spec
    case Backend(_, _, _, _) => Backends
    case Frontend(_, _, _, _) => Frontends
    case Bind(_, _, _, _) => Binds
    case Server(_, _, _, _, _) => Servers
    case Foreign => Others
  }

  /** A generic resource as listed by tag. */
  datatype Resource = Resource(id: Id, kind: Kind)

  datatype Fetched = Found(value: Object) | Absent | Unavailable

  /** One Get: what was asked for, the answer, and the store at that moment. */
  datatype Look = Look(id: Id, answer: Fetched, at: Store)

  /** The answer is right, if there is one. */
  ghost predicate Truthful(l: Look) {
    match l.answer
    case Found(o) => l.id in l.at && o == Object(l.id, l.at[l.id].spec, l.at[l.id].state)
    case Absent => l.id !in l.at
    case Unavailable => true
  }

  /** What a resource said of itself when it was last fetched with success. */
  ghost function LastSeen(looks: seq<Look>, id: Id): (state: Option<State>) {
    if looks == [] then None
    else
      var last := looks[|looks| - 1];
      if last.id == id && last.answer.Found? then Some(last.answer.value.state) else LastSeen(looks[..|looks| - 1], id)
  }

  lemma LastSeenAppend(looks: seq<Look>, l: Look, id: Id)
    ensures LastSeen(looks + [l], id) == if l.id == id && l.answer.Found? then Some(l.answer.value.state)
            else LastSeen(looks, id)
  {
    assert (looks + [l])[..|looks|] == looks;
  }

  /** The state an object was last seen in is that of the last look at it that found it. */
  lemma {:induction false} LastSeenIff(looks: seq<Look>, id: Id, s: State)
    ensures LastSeen(looks, id) == Some(s) <==>
            exists i: nat :: LastAt(looks, id, i) && looks[i].answer.value.state == s
    ensures LastSeen(looks, id).None? <==> forall l | l in looks && l.id == id :: !l.answer.Found?
  {
    if looks != [] {
      var rest, last := looks[..|looks| - 1], looks[|looks| - 1];
      assert looks == rest + [last];
      LastSeenIff(rest, id, s);
      if last.id == id && last.answer.Found? {
        assert LastAt(looks, id, |rest|);
      } else {
        forall i: nat ensures LastAt(looks, id, i) <==> LastAt(rest, id, i) {
        }
        if i: nat :| LastAt(rest, id, i) && rest[i].answer.value.state == s {
          assert looks[i].answer.value.state == s;
        }
        if i: nat :| LastAt(looks, id, i) && looks[i].answer.value.state == s {
          assert rest[i].answer.value.state == s;
        }
      }
    }
  }

  ghost predicate LastAt(looks: seq<Look>, id: Id, i: nat) {
    && i < |looks| && looks[i].id == id && looks[i].answer.Found?
    && forall j | i < j < |looks| && looks[j].id == id :: !looks[j].answer.Found?
  }

  /** It could not be fetched, or had failed. */
  predicate Bad(l: Look) {
    !l.answer.Found? || (!l.answer.value.state.updating && l.answer.value.state.kind.Error?)
  }

  predicate Unsettled(l: Look) {
    l.answer.Found? && (l.answer.value.state.updating || l.answer.value.state.kind.Pending?)
  }

  datatype Destruction = Gone | NotFound | Refused | RateLimited

  /** A resource that is not found counts as destroyed. */
  predicate Succeeded(answer: Destruction) {
    answer.Gone? || answer.NotFound?
  }

  /** A changing call and what matters of its answer: the identifier of what was created, if it came. */
  datatype Op =
    | Create(spec: Spec, made: Option<Id>)
    | AddTag(id: Id, tag: string)
    | Destroy(id: Id, answer: Destruction)
    | Update(id: Id)

  /**
    * One changing call: who made it, whether it was answered with success, what it
    * did, and the first free identifier before and after it.
    */
  datatype Call = Call(op: Op, caller: Id, ok: bool, before: Store, after: Store, free: Id, free': Id)

  /**
    * The call left everything that belongs to other LoadBalancers as it was, states
    * included; it removed at most the resource it was to destroy, new resources have
    * new identifiers, none changed its kind, and references are still honoured.
    */
  ghost predicate Polite(c: Call) {
    && (forall other :: other != c.caller ==> EstateOf(c.before, other) == EstateOf(c.after, other))
    && (forall id | id in c.before && id !in EstateOf(c.before, c.caller) ::
         id in c.after && c.after[id] == c.before[id])
    && (forall id | id in c.before && id !in c.after :: c.op.Destroy? && c.op.id == id)
    && Numbered(c)
    && (Sound(c.before) ==> Sound(c.after))
  }

  ghost predicate Numbered(c: Call) {
    && c.free <= c.free'
    && (forall id | id in c.after && id !in c.before :: c.free <= id < c.free')
    && (forall id | id in c.before && id in c.after :: KindOf(c.before[id].spec) == KindOf(c.after[id].spec))
  }

  lemma PoliteCreate(c: Call, id: Id, r: Record)
    requires Sound(c.before) && id !in c.before && ParentExists(c.before, r.spec)
             && Home(c.before, r.spec) == Some(c.caller)
    requires c.after == c.before[id := r] && c.free <= id < c.free'
    ensures Polite(c)
  {
    CreateEffect(c.before, id, r, c.caller);
  }

  lemma PoliteUpdate(c: Call, id: Id, r: Record)
    requires Sound(c.before) && id in EstateOf(c.before, c.caller) && c.before[id].spec == r.spec
    requires c.after == c.before[id := r] && c.free == c.free'
    ensures Polite(c)
  {
    UpdateEffect(c.before, id, r, c.caller);
  }

  lemma PoliteDestroy(c: Call, id: Id)
    requires Sound(c.before) && id in EstateOf(c.before, c.caller) && !Referenced(c.before, id)
    requires c.after == c.before - {id} && c.free == c.free' && c.op.Destroy? && c.op.id == id
    ensures Polite(c)
  {
    DestroyEffect(c.before, id, c.caller);
  }

  lemma PoliteNothing(c: Call)
    requires c.after == c.before && c.free == c.free'
    ensures Polite(c)
  {
  }

  lemma PoliteTo(c: Call, other: Id)
    requires Polite(c) && other != c.caller
    ensures EstateOf(c.before, other) == EstateOf(c.after, other)
  {
  }

  lemma PoliteKeeps(c: Call, other: Id, id: Id)
    requires Polite(c) && other != c.caller && id in EstateOf(c.before, other)
    ensures id in c.before && id in c.after && c.after[id] == c.before[id]
  {
    assert id !in EstateOf(c.before, c.caller);
  }

  /** A reliable Engine answers the call like this, given the estate of its caller. */
  ghost predicate Allowed(op: Op, e: Estate) {
    match op
    case Create(_, made) => made.Some? && made.value !in e
    case AddTag(id, _) => id in e
    case Destroy(id, answer) => answer == Answer(e, id)
    case Update(_) => true
  }

  /** What it makes of the estate then. */
  ghost function Effect(op: Op, e: Estate): (e': Estate)
    requires Allowed(op, e)
  {
    match op
    case Create(spec, made) => e[made.value := Asset(spec, {})]
    case AddTag(id, tag) => WithTag(e, id, tag)
    case Destroy(id, answer) => if answer.Gone? then e - {id} else e
    case Update(_) => e
  }

  ghost predicate Does(op: Op, e: Estate, e': Estate) {
    Allowed(op, e) && e' == Effect(op, e)
  }

  /**
    * The call was carried out as a reliable Engine does: at once, with success unless a
    * reference forbids it; what is created is ready, and what was ready stays so.
    */
  ghost predicate Carried(c: Call) {
    && Does(c.op, EstateOf(c.before, c.caller), EstateOf(c.after, c.caller))
    && (c.op.Create? ==> c.ok && ReadyIn(c.after, c.op.made.value) && c.op.made.value !in c.before)
    && (c.op.AddTag? || c.op.Update? ==> c.ok)
    && (!c.op.Update? ==> ReadyKept(c.before, c.after, c.caller))
  }

  lemma CarriedCreate(c: Call, spec: Spec, id: Id, r: Record)
    requires c.op == Op.Create(spec, Some(id)) && c.ok && c.after == c.before[id := r] && IsReady(r.state)
    requires Added(c.before, c.after, c.caller, id, spec)
    ensures Carried(c)
  {
  }

  lemma CarriedUpdate(c: Call, id: Id)
    requires c.op == Op.Update(id) && c.ok && EstateOf(c.after, c.caller) == EstateOf(c.before, c.caller)
    ensures Carried(c)
  {
  }

  /** A new state makes no difference to an estate. */
  lemma StateOnly(s: Store, me: Id, id: Id)
    requires id in EstateOf(s, me)
    ensures id in s && EstateOf(s, me)[id := Asset(s[id].spec, s[id].tags)] == EstateOf(s, me)
  {
  }

  ghost function IdOf(o: Option<Object>): (id: Option<Id>) {
    if o.None? then None else Some(o.value.id)
  }

  /** How many of the Destroy calls were answered with one of `answers`. */
  ghost function Tally(calls: seq<Call>, answers: set<Destruction>): (n: nat) {
    if calls == [] then 0
    else
      var last := calls[|calls| - 1].op;
      Tally(calls[..|calls| - 1], answers) + if last.Destroy? && last.answer in answers then 1 else 0
  }

  lemma TallyAppend(calls: seq<Call>, c: Call, answers: set<Destruction>)
    ensures Tally(calls + [c], answers) == Tally(calls, answers) + if c.op.Destroy? && c.op.answer in answers then 1
            else 0
  {
    assert (calls + [c])[..|calls|] == calls;
  }

  lemma {:induction false} TallyJoin(a: seq<Call>, b: seq<Call>, answers: set<Destruction>)
    ensures Tally(a + b, answers) == Tally(a, answers) + Tally(b, answers)
  {
    if b == [] {
      assert a + b == a;
    } else {
      assert a + b == (a + b[..|b| - 1]) + [b[|b| - 1]];
      TallyAppend(a + b[..|b| - 1], b[|b| - 1], answers);
      TallyJoin(a, b[..|b| - 1], answers);
    }
  }

  /** Destroy calls answered with an error other than a rate limit. */
  ghost function Failures(calls: seq<Call>): (n: nat) {
    Tally(calls, {Refused})
  }

  /** Destroy calls not answered with a rate limit. */
  ghost function Attempts(calls: seq<Call>): (n: nat) {
    Tally(calls, {Gone, NotFound, Refused})
  }

  ghost predicate ReadyIn(s: Store, id: Id) {
    id in s && IsReady(s[id].state)
  }

  /** Resources of `me` that were ready and still exist are still ready. */
  ghost predicate ReadyKept(s: Store, s': Store, me: Id) {
    forall id | id in EstateOf(s, me) && id in s' && ReadyIn(s, id) :: ReadyIn(s', id)
  }

  /** Identifiers are not used twice. */
  ghost predicate NoReuse(s: Store, n: Id, s': Store) {
    forall id | id in s' && id !in s :: id >= n
  }

  /**
    * What `me` may assume of a move it did not make, when `n` was the first free
    * identifier; in a reliable Engine what is ready stays so.
    */
  ghost predicate Relied(s: Store, n: Id, s': Store, me: Id, reliable: bool) {
    && EstateOf(s, me) == EstateOf(s', me)
    && NoReuse(s, n, s')
    && (forall id | id in s && id in s' :: KindOf(s[id].spec) == KindOf(s'[id].spec))
    && (reliable ==> ReadyKept(s, s', me))
  }

  class Engine {
    /**
      * Hypotheses about the Engine: it answers every call (refusing only what
      * references forbid), what it creates is ready, and what is ready stays so
      * until it is updated.
      */
    const reliable: bool

    var store: Store
    var next: Id
    ghost var log: seq<Call>
    ghost var looks: seq<Look>

    ghost predicate Valid()
      reads this
    {
      Sound(store) && forall id | id in store :: id < next
    }

    constructor (reliable: bool)
      ensures Valid() && store == map[] && log == [] && looks == []
      ensures this.reliable == reliable
    {
      this.reliable := reliable;
      store, next := map[], 0;
      log, looks := [], [];
    }

    ghost predicate Rely(s: Store, n: Id, s': Store, me: Id) {
      Relied(s, n, s', me, reliable)
    }

    /**
      * Any number of moves of others. Only the contract matters: callers know no
      * more about the store after it than what `Rely` says.
      */
    method Environment(ghost me: Id)
      requires Valid()
      modifies this`store, this`next
      ensures Valid() && Rely(old(store), old(next), store, me)
      ensures next >= old(next)
    {
    }

    /** The resources that carry `tag`, in any order; HTTP status 422 for none is the empty list. */
    method List(tag: string, ghost me: Id) returns (found: Option<seq<Resource>>)
      requires Valid()
      modifies this`store, this`next
      ensures Valid() && Rely(old(store), old(next), store, me) && next >= old(next)
      ensures reliable ==> found.Some?
      ensures found.Some? ==> Lists(store, tag, found.value)
    {
      Environment(me);
      var fault: bool := *;
      if !reliable && fault {
        return None;
      }
      var ids := Enumerate(store);
      var resources: seq<Resource> := [];
      for i := 0 to |ids|
        invariant forall r | r in resources ::
                  r.id in ids[..i] && r.id in store && tag in store[r.id].tags && r.kind == KindOf(store[r.id].spec)
        invariant forall id | id in ids[..i] && id in store && tag in store[id].tags ::
                  Resource(id, KindOf(store[id].spec)) in resources
        invariant forall j, k | 0 <= j < k < |resources| :: resources[j].id != resources[k].id
      {
        assert ids[..i + 1] == ids[..i] + [ids[i]];
        if tag in store[ids[i]].tags {
          resources := resources + [Resource(ids[i], KindOf(store[ids[i]].spec))];
        }
      }
      assert ids[..|ids|] == ids;
      return Some(resources);
    }

    method Get(id: Id, ghost me: Id) returns (r: Fetched)
      requires Valid()
      modifies this`store, this`next, this`looks
      ensures Valid() && Rely(old(store), old(next), store, me) && next >= old(next)
      ensures looks == old(looks) + [Look(id, r, store)] && Truthful(Look(id, r, store))
      ensures reliable ==> !r.Unavailable?
    {
      Environment(me);
      var fault: bool := *;
      if !reliable && fault {
        r := Unavailable;
      } else if id !in store {
        r := Absent;
      } else {
        r := Found(Object(id, store[id].spec, store[id].state));
      }
      looks := looks + [Look(id, r, store)];
    }

    /** Adds a resource under the next identifier. */
    method Insert(spec: Spec, state: State, ghost me: Id)
      requires Valid() && Fits(EstateOf(store, me), me, spec)
      modifies this`store, this`next
      ensures Valid() && next == old(next) + 1 && store == old(store)[old(next) := Record(spec, state, {})]
      ensures Added(old(store), store, me, old(next), spec)
    {
      FitsHome(store, me, spec);
      CreateEffect(store, next, Record(spec, state, {}), me);
      store := store[next := Record(spec, state, {})];
      next := next + 1;
    }

    /** Creates an untagged resource. An answer that gets lost may leave one behind. */
    method Create(spec: Spec, ghost me: Id) returns (r: Option<Object>)
      requires Valid() && Fits(EstateOf(store, me), me, spec)
      modifies this`store, this`next, this`log
      ensures Valid() && next >= old(next) && NoReuse(old(store), old(next), store)
      ensures reliable ==> r.Some? && ReadyKept(old(store), store, me)
      ensures r.Some? ==> Added(old(store), store, me, r.value.id, spec)
      ensures r.Some? ==> r.value.spec == spec && r.value.state == store[r.value.id].state
      ensures r.Some? && reliable ==> ReadyIn(store, r.value.id)
      ensures r.None? ==>
                || EstateOf(store, me) == EstateOf(old(store), me)
                || exists id :: Added(old(store), store, me, id, spec)
      ensures exists c ::
                && log == old(log) + [c] && c.op == Op.Create(spec, IdOf(r)) && c.caller == me && c.ok == r.Some?
                && Polite(c) && (reliable ==> Carried(c))
    {
      hide Polite, Carried, EstateOf, Fits, ParentExists, Home;
      Environment(me);
      ghost var before, free := store, next;
      var lost, dropped: bool := *, *;
      var state: State := *;
      if reliable {
        state, lost, dropped := State(false, OK), false, false;
      }
      var id := next;
      if !dropped {
        Insert(spec, state, me);
        assert Added(old(store), store, me, id, spec);
      }
      r := if lost || dropped then None else Some(Object(id, spec, state));
      ghost var c := Call(Op.Create(spec, IdOf(r)), me, r.Some?, before, store, free, next);
      if dropped {
        PoliteNothing(c);
      } else {
        FitsHome(before, me, spec);
        PoliteCreate(c, id, store[id]);
        if reliable {
          CarriedCreate(c, spec, id, store[id]);
        }
      }
      log := log + [c];
    }

    method AddTag(id: Id, tag: string, ghost me: Id) returns (ok: bool)
      requires Valid() && id in EstateOf(store, me)
      modifies this`store, this`next, this`log
      ensures Valid() && next >= old(next) && NoReuse(old(store), old(next), store)
      ensures reliable ==> ok && ReadyKept(old(store), store, me)
      ensures ok ==> EstateOf(store, me) == WithTag(EstateOf(old(store), me), id, tag)
      ensures EstateOf(store, me) == EstateOf(old(store), me)
              || EstateOf(store, me) == WithTag(EstateOf(old(store), me), id, tag)
      ensures exists c ::
                && log == old(log) + [c] && c.op == Op.AddTag(id, tag) && c.caller == me && c.ok == ok
                && Polite(c) && (reliable ==> Carried(c))
    {
      hide Polite;
      Environment(me);
      ghost var before, free := store, next;
      var lost, dropped: bool := *, *;
      if reliable {
        lost, dropped := false, false;
      }
      if !dropped {
        var r := store[id].(tags := store[id].tags + {tag});
        UpdateEffect(store, id, r, me);
        store := store[id := r];
      }
      ok := !lost && !dropped;
      ghost var c := Call(Op.AddTag(id, tag), me, ok, before, store, free, next);
      if dropped {
        PoliteNothing(c);
      } else {
        PoliteUpdate(c, id, store[id]);
      }
      log := log + [c];
    }

    /** How a Destroy is answered, and whether the resource is removed at once. */
    method Judge(id: Id, ghost me: Id) returns (answer: Destruction, done: bool)
      requires Valid() && (id in store ==> id in EstateOf(store, me))
      ensures done ==> id in store && !Referenced(store, id) && !ReferencedIn(Holdings(EstateOf(store, me)), id)
      ensures reliable ==> answer == Answer(EstateOf(store, me), id) && done == answer.Gone?
    {
      var possible := id in store && !(exists child :: child in store && Parent(store[child].spec) == Some(id));
      if id in store {
        ReferencedInEstate(store, id, me);
        assert possible <==> !Referenced(store, id);
      }
      answer := if id !in store then NotFound else if possible then Gone else Refused;
      done := possible;
      if !reliable {
        var a, b, late: bool := *, *, *;
        answer := if a && b then Gone else if a then NotFound else if b then Refused else RateLimited;
        done := possible && !late;
      }
    }

    /**
      * Refused while something refers to the resource. An unreliable Engine may
      * answer anything, and need not have finished when it says it has.
      */
    method Destroy(id: Id, ghost me: Id) returns (answer: Destruction)
      requires Valid() && id < next && (id in store ==> id in EstateOf(store, me))
      modifies this`store, this`next, this`log
      ensures Valid() && next >= old(next) && NoReuse(old(store), old(next), store)
      ensures reliable ==> ReadyKept(old(store), store, me)
      ensures || EstateOf(store, me) == EstateOf(old(store), me)
              || (EstateOf(store, me) == EstateOf(old(store), me) - {id}
                   && !ReferencedIn(Holdings(EstateOf(old(store), me)), id))
      ensures id in store ==> id in EstateOf(store, me)
      ensures reliable ==> answer == Answer(EstateOf(old(store), me), id)
      ensures reliable ==> EstateOf(store, me) ==
                           if answer.Gone? then EstateOf(old(store), me) - {id} else EstateOf(old(store), me)
      ensures exists c ::
                && log == old(log) + [c] && c.op == Op.Destroy(id, answer) && c.caller == me
                && c.ok == Succeeded(answer) && Polite(c) && (reliable ==> Carried(c))
    {
      hide Polite;
      Environment(me);
      ghost var before, free := store, next;
      var done;
      answer, done := Judge(id, me);
      if done {
        DestroyEffect(store, id, me);
        store := store - {id};
      }
      ghost var c := Call(Op.Destroy(id, answer), me, Succeeded(answer), before, store, free, next);
      if done {
        PoliteDestroy(c, id);
      } else {
        PoliteNothing(c);
      }
      log := log + [c];
    }

    /** Resets a resource to Updating. */
    method Update(id: Id, ghost me: Id) returns (ok: bool)
      requires Valid() && id in EstateOf(store, me)
      modifies this`store, this`next, this`log
      ensures Valid() && next >= old(next) && NoReuse(old(store), old(next), store)
      ensures EstateOf(store, me) == EstateOf(old(store), me)
      ensures reliable ==> ok
      ensures exists c ::
                && log == old(log) + [c] && c.op == Op.Update(id) && c.caller == me && c.ok == ok
                && Polite(c) && (reliable ==> Carried(c))
    {
      hide Polite, Carried, EstateOf, Sound;
      Environment(me);
      StateOnly(store, me, id);
      ghost var before, free := store, next;
      var lost, dropped: bool := *, *;
      if reliable {
        lost, dropped := false, false;
      }
      if !dropped {
        var r := store[id].(state := State(true, OK));
        UpdateEffect(store, id, r, me);
        store := store[id := r];
      }
      ok := !lost && !dropped;
      ghost var c := Call(Op.Update(id), me, ok, before, store, free, next);
      if dropped {
        PoliteNothing(c);
      } else {
        PoliteUpdate(c, id, store[id]);
      }
      if reliable {
        CarriedUpdate(c, id);
      }
      log := log + [c];
    }
  }

  /** How an Engine that honours references answers a Destroy. */
  ghost function Answer(e: Estate, id: Id): (answer: Destruction) {
    if id !in e then NotFound else if ReferencedIn(Holdings(e), id) then Refused else Gone
  }

  ghost predicate Lists(s: Store, tag: string, resources: seq<Resource>) {
    && (forall r | r in resources :: r.id in s && tag in s[r.id].tags && r.kind == KindOf(s[r.id].spec))
    && (forall id | id in s && tag in s[id].tags :: Resource(id, KindOf(s[id].spec)) in resources)
    && (forall j, k | 0 <= j < k < |resources| :: resources[j].id != resources[k].id)
  }

  /** `me` has gained the untagged resource `id`. */
  ghost predicate Added(s: Store, s': Store, me: Id, id: Id, spec: Spec) {
    && id !in s && id in s'
    && EstateOf(s', me) == EstateOf(s, me)[id := Asset(spec, {})]
  }

  ghost function WithTag(e: Estate, id: Id, tag: string): (tagged: Estate)
    requires id in e
  {
    e[id := e[id].(tags := e[id].tags + {tag})]
  }
}
