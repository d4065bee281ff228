/**
  * The retry loop that destroys, against an Engine that refuses to destroy what
  * is still referred to. `h` is all that belongs to the LoadBalancer.
  */
module DestroyLoop {
  import opened Common
  import opened Resources
  import opened Layout
  import opened Engines

  datatype Rest = Rest(left: Topology, kept: seq<Id>)

  /** One pass over the list: what is left of `h`, and which objects were refused. */
  ghost function Sweep(h: Topology, todo: seq<Id>): (r: Rest) {
    if todo == [] then Rest(h, [])
    else
      var before := Sweep(h, todo[..|todo| - 1]);
      var id := todo[|todo| - 1];
      if id in before.left && ReferencedIn(before.left, id)
      then Rest(before.left, before.kept + [id])
      else Rest(before.left - {id}, before.kept)
  }

  /** As many passes as asked for, each over what the one before it kept. */
  ghost function Passes(h: Topology, todo: seq<Id>, n: nat): (r: Rest) {
    if n == 0 then Rest(h, todo)
    else
      var before := Passes(h, todo, n - 1);
      Sweep(before.left, before.kept)
  }

  /** References go from lower to higher resources: Bind to Frontend to Backend, Server to Backend. */
  ghost predicate Layered(h: Topology) {
    forall child | child in h ::
      match Parent(h[child])
      case None => true
      case Some(p) => p in h ==> Height(h[child]) < Height(h[p])
  }

  /** Whatever refers to an object of the list is in the list as well. */
  ghost predicate Enclosed(h: Topology, todo: seq<Id>) {
    forall child, id | child in h && id in h && id in todo && Parent(h[child]) == Some(id) :: child in todo
  }

  ghost predicate Above(h: Topology, todo: seq<Id>, height: nat) {
    forall id | id in todo && id in h :: Height(h[id]) >= height
  }

  lemma {:induction false} SweepShape(h: Topology, todo: seq<Id>)
    requires NoDup(todo)
    ensures var r := Sweep(h, todo);
            && NoDup(r.kept)
            && |r.kept| <= |todo|
            && (|r.kept| == |todo| ==> r.kept == todo)
            && (forall id | id in r.kept :: id in todo && id in r.left)
            && (forall id | id in r.left :: id in h && r.left[id] == h[id])
            && (forall id | id in h :: id in r.left <==> id !in todo || id in r.kept)
  {
    if todo != [] {
      var rest, id := todo[..|todo| - 1], todo[|todo| - 1];
      assert todo == rest + [id];
      assert id !in rest;
      SweepShape(h, rest);
    }
  }

  /** A pass removes at least the lowest objects of an enclosed list. */
  lemma {:induction false} SweepRaises(h: Topology, todo: seq<Id>, all: seq<Id>, height: nat)
    requires NoDup(todo) && Layered(h) && Enclosed(h, all) && Above(h, all, height)
    requires forall id | id in todo :: id in all
    ensures Above(h, Sweep(h, todo).kept, height + 1)
    ensures Above(Sweep(h, todo).left, Sweep(h, todo).kept, height + 1)
  {
    SweepShape(h, todo);
    if todo != [] {
      var rest, id := todo[..|todo| - 1], todo[|todo| - 1];
      assert todo == rest + [id];
      SweepRaises(h, rest, all, height);
      SweepShape(h, rest);
      var before := Sweep(h, rest);
      if id in before.left && ReferencedIn(before.left, id) {
        var child :| child in before.left && Parent(before.left[child]) == Some(id);
        assert h[child] == before.left[child] && Parent(h[child]) == Some(id);
        assert Height(h[child]) < Height(h[id]);
      }
    }
  }

  /** What a pass keeps is again an enclosed list. */
  lemma SweepEncloses(h: Topology, todo: seq<Id>)
    requires NoDup(todo) && Layered(h) && Enclosed(h, todo)
    ensures Layered(Sweep(h, todo).left) && Enclosed(Sweep(h, todo).left, Sweep(h, todo).kept)
  {
    SweepShape(h, todo);
    var r := Sweep(h, todo);
    forall child, id | child in r.left && id in r.left && id in r.kept && Parent(r.left[child]) == Some(id)
      ensures child in r.kept
    {
      assert Parent(h[child]) == Some(id);
    }
    forall child | child in r.left
      ensures Parent(r.left[child]).Some? && Parent(r.left[child]).value in r.left ==>
                Height(r.left[child]) < Height(r.left[Parent(r.left[child]).value])
    {
      assert h[child] == r.left[child];
    }
  }

  lemma {:induction false} Lowest(h: Topology, todo: seq<Id>) returns (lowest: Id)
    requires todo != [] && forall id | id in todo :: id in h
    ensures lowest in todo && Above(h, todo, Height(h[lowest]))
  {
    lowest := todo[|todo| - 1];
    if |todo| > 1 {
      var rest := todo[..|todo| - 1];
      assert todo == rest + [lowest];
      var other := Lowest(h, rest);
      if Height(h[other]) < Height(h[lowest]) {
        lowest := other;
      }
    }
  }

  /** Every pass over an enclosed list makes it shorter. */
  lemma PassShortens(h: Topology, todo: seq<Id>)
    requires NoDup(todo) && Layered(h) && Enclosed(h, todo) && todo != []
    ensures |Sweep(h, todo).kept| < |todo|
  {
    SweepShape(h, todo);
    if forall id | id in todo :: id in h {
      var lowest := Lowest(h, todo);
      SweepRaises(h, todo, todo, Height(h[lowest]));
      assert lowest !in Sweep(h, todo).kept;
    } else {
      var gone :| gone in todo && gone !in h;
      assert gone !in Sweep(h, todo).kept;
    }
  }

  lemma {:induction false} PassesShape(h: Topology, todo: seq<Id>, n: nat)
    requires NoDup(todo)
    ensures var r := Passes(h, todo, n);
            && NoDup(r.kept)
            && (n > 0 ==> forall id | id in r.kept :: id in r.left)
            && (forall id | id in r.kept :: id in todo)
            && (forall id | id in r.left :: id in h && r.left[id] == h[id])
            && (forall id | id in h :: id in r.left <==> id !in todo || id in r.kept)
  {
    if n > 0 {
      PassesShape(h, todo, n - 1);
      var before := Passes(h, todo, n - 1);
      SweepShape(before.left, before.kept);
    }
  }

  /** After `n` passes: what is still listed is enclosed, and has height `n` at least. */
  ghost predicate Retreated(r: Rest, n: nat) {
    NoDup(r.kept) && Layered(r.left) && Enclosed(r.left, r.kept) && Above(r.left, r.kept, n)
  }

  lemma PassRetreats(r: Rest, n: nat)
    requires Retreated(r, n)
    ensures Retreated(Sweep(r.left, r.kept), n + 1)
  {
    SweepShape(r.left, r.kept);
    SweepEncloses(r.left, r.kept);
    SweepRaises(r.left, r.kept, r.kept, n);
  }

  lemma {:induction false} PassesRetreat(h: Topology, todo: seq<Id>, n: nat)
    requires NoDup(todo) && Layered(h) && Enclosed(h, todo)
    ensures Retreated(Passes(h, todo, n), n)
  {
    if n > 0 {
      PassesRetreat(h, todo, n - 1);
      PassRetreats(Passes(h, todo, n - 1), n - 1);
    }
  }

  lemma SomeBelowThree(h: Topology, todo: seq<Id>)
    requires forall id | id in todo :: id in h
    ensures todo == [] || !Above(h, todo, 3)
  {
    if todo != [] {
      assert todo[0] in todo;
    }
  }

  /** Three passes destroy an enclosed list, whatever its order, and nothing else. */
  lemma ThreePasses(h: Topology, todo: seq<Id>)
    requires NoDup(todo) && Layered(h) && Enclosed(h, todo)
    ensures Passes(h, todo, 3).kept == []
    ensures Passes(h, todo, 3).left == h - (set id | id in todo)
  {
    EmptyAfterThree(h, todo, 3);
    EmptyMeansGone(h, todo, 3);
  }

  lemma EmptyAfterThree(h: Topology, todo: seq<Id>, n: nat)
    requires NoDup(todo) && Layered(h) && Enclosed(h, todo) && n >= 3
    ensures Passes(h, todo, n).kept == []
  {
    PassesShape(h, todo, n);
    PassesRetreat(h, todo, n);
    SomeBelowThree(Passes(h, todo, n).left, Passes(h, todo, n).kept);
  }

  lemma EmptyMeansGone(h: Topology, todo: seq<Id>, n: nat)
    requires NoDup(todo) && Passes(h, todo, n).kept == []
    ensures Passes(h, todo, n).left == h - (set id | id in todo)
  {
    PassesShape(h, todo, n);
  }

  /** An object outside the list that refers into it keeps its parent in the list for ever. */
  lemma {:induction false} IntruderStays(h: Topology, todo: seq<Id>, child: Id, id: Id, n: nat)
    requires NoDup(todo)
    requires child in h && id in h && id in todo && child !in todo && Parent(h[child]) == Some(id)
    ensures var r := Passes(h, todo, n);
            && NoDup(r.kept) && id in r.kept && id in r.left && child !in r.kept
            && child in r.left && r.left[child] == h[child]
  {
    if n > 0 {
      IntruderStays(h, todo, child, id, n - 1);
      var before := Passes(h, todo, n - 1);
      SweepShape(before.left, before.kept);
      IntruderKeepsParent(before.left, before.kept, child, id);
    }
  }

  lemma {:induction false} IntruderKeepsParent(h: Topology, todo: seq<Id>, child: Id, id: Id)
    requires NoDup(todo) && child in h && child !in todo && Parent(h[child]) == Some(id) && id in h
    ensures id in todo ==> id in Sweep(h, todo).kept
    ensures id in Sweep(h, todo).left && child in Sweep(h, todo).left && Sweep(h, todo).left[child] == h[child]
  {
    if todo != [] {
      var rest, last := todo[..|todo| - 1], todo[|todo| - 1];
      assert todo == rest + [last];
      IntruderKeepsParent(h, rest, child, id);
    }
  }

  /**
    * The retry loop ends exactly when nothing outside the list refers into it, and
    * then within three passes. Otherwise it runs for ever: a refused Destroy still
    * allows the next pass.
    */
  lemma RetryLoopEnds(h: Topology, todo: seq<Id>)
    requires NoDup(todo) && Layered(h)
    ensures (exists n :: Passes(h, todo, n).kept == []) <==> Enclosed(h, todo)
    ensures Enclosed(h, todo) <==> Passes(h, todo, 3).kept == []
  {
    if Enclosed(h, todo) {
      ThreePasses(h, todo);
    } else {
      var child, id :| child in h && id in h && id in todo && Parent(h[child]) == Some(id) && child !in todo;
      forall n ensures Passes(h, todo, n).kept != [] {
        IntruderStays(h, todo, child, id, n);
      }
    }
  }

  /** One more Destroy, answered by a reliable Engine, is one more step of the pass. */
  lemma SweepOneMore(h: Topology, todo: seq<Id>, id: Id, e: Estate, e': Estate)
    requires Holdings(e) == Sweep(h, todo).left
    requires e' == if Answer(e, id).Gone? then e - {id} else e
    ensures Sweep(h, todo + [id]) ==
            Rest(Holdings(e'), if Answer(e, id).Refused? then Sweep(h, todo).kept + [id] else Sweep(h, todo).kept)
  {
    assert (todo + [id])[..|todo|] == todo;
    assert id in Holdings(e) <==> id in e;
    if id !in e {
      assert Holdings(e) - {id} == Holdings(e);
    } else if Answer(e, id).Gone? {
      assert Holdings(e) - {id} == Holdings(e');
    }
  }

  // ---- What the passes leave of the working set ----

  /** No resource outside the working set refers to one inside. */
  ghost predicate NoStrays(e: Estate, tag: string) {
    forall child | child in e && Parent(e[child].spec).Some? && Parent(e[child].spec).value in TopologyOf(e, tag) ::
      child in TopologyOf(e, tag)
  }

  lemma EstateLayered(s: Store, lb: Id)
    requires Sound(s)
    ensures Layered(Holdings(EstateOf(s, lb)))
  {
    var h := Holdings(EstateOf(s, lb));
    forall child | child in h
      ensures Parent(h[child]).Some? && Parent(h[child]).value in h ==>
              Height(h[child]) < Height(h[Parent(h[child]).value])
    {
      assert ParentExists(s, s[child].spec);
    }
  }

  /** What a check wants destroyed. */
  ghost predicate Doomed(cfg: Config, t: Topology, l: Links, doomed: seq<Id>) {
    LinksFor(cfg, t, l) && forall id :: id in doomed <==> id in t && !Wanted(cfg, l, t[id])
  }

  /** No resource outside the working set refers to one of these. */
  ghost predicate NoStraysInto(e: Estate, tag: string, ids: seq<Id>) {
    forall child | child in e && Parent(e[child].spec).Some? && Parent(e[child].spec).value in ids ::
      child in TopologyOf(e, tag)
  }

  /** What a check wants destroyed is an enclosed list exactly if nothing outside the working set refers into it. */
  lemma DoomedEnclosedIff(cfg: Config, e: Estate, l: Links, doomed: seq<Id>)
    requires Doomed(cfg, TopologyOf(e, cfg.tag), l, doomed)
    ensures Enclosed(Holdings(e), doomed) <==> NoStraysInto(e, cfg.tag, doomed)
  {
    var h, t := Holdings(e), TopologyOf(e, cfg.tag);
    assert forall id | id in doomed :: id in t && id in h && t[id] == h[id];
    if NoStraysInto(e, cfg.tag, doomed) {
      forall child, id | child in h && id in h && id in doomed && Parent(h[child]) == Some(id)
        ensures child in doomed
      {
        assert child in t && t[child] == h[child];
        if Wanted(cfg, l, t[child]) {
          DependencyClosure(cfg, t, l, t[child]);
        }
      }
    }
    if Enclosed(h, doomed) {
      forall child | child in e && Parent(e[child].spec).Some? && Parent(e[child].spec).value in doomed
        ensures child in t
      {
        assert child in h && Parent(h[child]) == Some(Parent(e[child].spec).value);
      }
    }
  }

  /** Without strays, what a check wants destroyed is an enclosed list. */
  lemma DoomedEnclosed(cfg: Config, e: Estate, l: Links, doomed: seq<Id>)
    requires NoStrays(e, cfg.tag) && Doomed(cfg, TopologyOf(e, cfg.tag), l, doomed)
    ensures Enclosed(Holdings(e), doomed)
  {
    DoomedEnclosedIff(cfg, e, l, doomed);
  }

  /**
    * The retry loop over what a check wants destroyed ends exactly if no resource
    * outside the working set refers to any of it, and then within three passes.
    */
  lemma CheckedLoopEnds(cfg: Config, e: Estate, l: Links, doomed: seq<Id>)
    requires NoDup(doomed) && Layered(Holdings(e)) && Doomed(cfg, TopologyOf(e, cfg.tag), l, doomed)
    ensures (exists n :: Passes(Holdings(e), doomed, n).kept == []) <==> NoStraysInto(e, cfg.tag, doomed)
    ensures Passes(Holdings(e), doomed, 3).kept == [] <==> NoStraysInto(e, cfg.tag, doomed)
  {
    DoomedEnclosedIff(cfg, e, l, doomed);
    RetryLoopEnds(Holdings(e), doomed);
  }

  /** A Backend, and a Frontend on it that was created and not tagged. */
  ghost function HalfMade(cfg: Config): (s: Store) {
    map[0 := Record(Backend("b", TCP, TCP_CHECK, cfg.lb), State(false, OK), {cfg.tag}),
        1 := Record(Frontend("f", TCP, cfg.lb, Some(0)), State(false, OK), {})]
  }

  lemma HalfMadeEstate(cfg: Config)
    ensures var e := EstateOf(HalfMade(cfg), cfg.lb);
            && e.Keys == {0, 1} && Parent(e[1].spec) == Some(0)
            && TopologyOf(e, cfg.tag) == map[0 := Backend("b", TCP, TCP_CHECK, cfg.lb)]
  {
    var s := HalfMade(cfg);
    var e := EstateOf(s, cfg.lb);
    assert cfg.tag in s[0].tags && s[1].tags == {};
    assert 0 in e && 1 in e && Working(e, cfg.tag, 0) && !Working(e, cfg.tag, 1);
  }

  /** There it does not end: with no ports the Backend is to be destroyed, and the Frontend is not seen. */
  lemma HalfMadeNeverEnds(cfg: Config)
    requires cfg.ports == map[]
    ensures var e := EstateOf(HalfMade(cfg), cfg.lb);
            && Sound(HalfMade(cfg)) && Doomed(cfg, TopologyOf(e, cfg.tag), Links(map[], map[]), [0])
            && forall n: nat :: Passes(Holdings(e), [0], n).kept != []
  {
    var e, l := EstateOf(HalfMade(cfg), cfg.lb), Links(map[], map[]);
    HalfMadeEstate(cfg);
    assert Sound(HalfMade(cfg));
    EstateLayered(HalfMade(cfg), cfg.lb);
    hide EstateOf, HalfMade, Layered, Enclosed;
    NothingWanted(cfg, TopologyOf(e, cfg.tag), 0);
    assert 0 in [0] && 1 !in TopologyOf(e, cfg.tag);
    CheckedLoopEnds(cfg, e, l, [0]);
  }

  lemma NothingWanted(cfg: Config, t: Topology, id: Id)
    requires cfg.ports == map[] && t.Keys == {id} && t[id].Backend?
    ensures Doomed(cfg, t, Links(map[], map[]), [id])
  {
    assert !WantedBackend(cfg, t[id]);
  }

  /** Removing an enclosed list from the estate removes exactly it from the working set, and leaves no stray. */
  lemma DoomedGone(e: Estate, e': Estate, tag: string, doomed: seq<Id>)
    requires NoStrays(e, tag) && Enclosed(Holdings(e), doomed)
    requires e' == e - (set id | id in doomed)
    ensures TopologyOf(e', tag) == TopologyOf(e, tag) - (set id | id in doomed)
    ensures NoStrays(e', tag)
  {
    var t, t' := TopologyOf(e, tag), TopologyOf(e', tag);
    forall id | id in e && id !in doomed
      ensures Parent(e[id].spec).Some? && Parent(e[id].spec).value in e ==> Parent(e[id].spec).value !in doomed
    {
      assert Holdings(e)[id] == e[id].spec;
    }
    forall id | id in e' ensures Working(e', tag, id) <==> Working(e, tag, id) {
    }
    assert forall id :: id in t' <==> id in t && id !in doomed;
  }
}
