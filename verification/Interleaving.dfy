/**
  * Several reconciliations on one Engine: their runs, placed in one history of calls,
  * and what comes of them whatever the order in which their calls are interleaved.
  */
module Interleaving {
  import opened Common
  import opened Resources
  import opened Layout
  import opened Engines
  import opened Compare
  import opened Retrieval
  import opened Convergence
  import opened DestroyLoop
  import opened Creating
  import opened Steps
  import opened Calls
  import opened Progress
  import opened Waiting
  import opened Rounds
  import opened Histories

  // ---- Runs in a history ----

  /** The numbers of calls after which a round begins, lists, has read, has acted, and ends. */
  datatype Span = Span(begin: nat, listed: nat, read: nat, acted: nat, end: nat)

  /** A run of Reconcile, and when its rounds took place. */
  datatype Machine = Machine(cfg: Config, rounds: seq<Round>, verdict: Verdict, spans: seq<Span>)

  ghost predicate ListedAt(h: History, list: seq<Resource>, tag: string, q: nat)
    requires q <= |h.calls|
  {
    exists s :: Drift(StoreAt(h, q), s, h.reliable) && Lists(s, tag, list)
  }

  /** The Get was answered between two calls; a reliable Engine does answer. */
  ghost predicate LookedAt(h: History, l: Look, p: nat)
    requires p <= |h.calls|
  {
    Drift(StoreAt(h, p), l.at, h.reliable) && (h.reliable ==> !l.answer.Unavailable?)
  }

  ghost predicate LookedWithin(h: History, looks: seq<Look>, from: nat, to: nat)
    requires to <= |h.calls|
  {
    forall l | l in looks :: exists p :: from <= p <= to && LookedAt(h, l, p)
  }

  ghost predicate Within(h: History, s: Span) {
    s.begin <= s.listed <= s.read <= s.acted <= s.end <= |h.calls|
  }

  /** The round took place then: what it listed and read, the calls it made, and what it waited for. */
  ghost predicate TakesPlace(h: History, cfg: Config, r: Round, s: Span) {
    && Within(h, s)
    && r.topology == WorkingSet(StoreAt(h, s.begin), cfg)
    && (if r.listed.Some? then ListedAt(h, r.listed.value, cfg.tag, s.listed) else !h.reliable)
    && LookedWithin(h, r.got, s.listed, s.read) && Away(h, cfg.lb, s.begin, s.read)
    && By(h.calls[s.read..s.acted], cfg.lb) == r.calls
    && LookedWithin(h, r.waits, s.acted, s.end) && Away(h, cfg.lb, s.acted, s.end)
  }

  /** The run has taken place, one round after the other, and its LoadBalancer has been left alone since. */
  ghost predicate Ran(h: History, m: Machine) {
    && Chronicle(m.cfg, m.rounds, m.verdict) && |m.spans| == |m.rounds|
    && (forall i | 0 <= i < |m.rounds| :: TakesPlace(h, m.cfg, m.rounds[i], m.spans[i]))
    && (forall i | 0 < i < |m.rounds| :: m.spans[i].begin == m.spans[i - 1].end)
    && (m.rounds != [] ==> Away(h, m.cfg.lb, m.spans[|m.rounds| - 1].end, |h.calls|))
  }

  lemma AwayJoins(h: History, me: Id, i: nat, j: nat, k: nat)
    requires i <= j <= k <= |h.calls| && Away(h, me, i, j) && Away(h, me, j, k)
    ensures Away(h, me, i, k)
  {
  }

  /** A round without calls leaves its LoadBalancer alone. */
  lemma IdleRound(h: History, cfg: Config, r: Round, s: Span)
    requires TakesPlace(h, cfg, r, s) && r.calls == []
    ensures Away(h, cfg.lb, s.begin, s.end)
  {
    NoneBy(h, cfg.lb, s.read, s.acted);
  }

  lemma CompletedIdle(cfg: Config, r: Round)
    requires Faithful(cfg, r) && r.verdict == Some(Completed)
    ensures r.calls == []
  {
  }

  lemma SameWorkingSet(h: History, cfg: Config, r: Round, s: Span)
    requires TakesPlace(h, cfg, r, s)
    requires EstateOf(StoreAt(h, s.begin), cfg.lb) == EstateOf(StoreAt(h, |h.calls|), cfg.lb)
    ensures r.topology == WorkingSet(StoreAt(h, |h.calls|), cfg)
  {
  }

  /** What the check of a completed run saw is what there is at the end of all calls. */
  lemma CompletedStays(h: History, m: Machine)
    requires Chain(h) && Ran(h, m) && m.verdict == Completed
    ensures m.rounds != []
    ensures var last := m.rounds[|m.rounds| - 1];
            && Faithful(m.cfg, last) && last.verdict == Some(Completed)
            && last.topology == WorkingSet(StoreAt(h, |h.calls|), m.cfg)
  {
    hide Faithful, Chain, EstateOf, Away;
    var n := |m.rounds| - 1;
    var last, s := m.rounds[n], m.spans[n];
    assert TakesPlace(h, m.cfg, last, s);
    hide TakesPlace;
    CompletedIdle(m.cfg, last);
    IdleRound(h, m.cfg, last, s);
    assert Within(h, s) by {
      InSpan(h, m.cfg, last, s);
    }
    AwayJoins(h, m.cfg.lb, s.begin, s.end, |h.calls|);
    OthersKeepEstate(h, s.begin, |h.calls|, m.cfg.lb);
    SameWorkingSet(h, m.cfg, last, s);
  }

  lemma InSpan(h: History, cfg: Config, r: Round, s: Span)
    requires TakesPlace(h, cfg, r, s)
    ensures Within(h, s)
  {
  }

  /**
    * Whatever the order in which the calls of the reconciliations are interleaved: at
    * the end of all calls every reconciliation that has completed has its intended
    * topology, unless it has a Backend or Frontend twice; all of them at the same time.
    */
  lemma AllSettledTogether(h: History, ms: seq<Machine>)
    requires Chain(h) && forall k | 0 <= k < |ms| :: Ran(h, ms[k])
    ensures forall k | 0 <= k < |ms| && ms[k].verdict == Completed ::
              var t := WorkingSet(StoreAt(h, |h.calls|), ms[k].cfg);
              Exact(ms[k].cfg, t) <==> UniqueParents(t)
  {
    forall k | 0 <= k < |ms| && ms[k].verdict == Completed
      ensures var t := WorkingSet(StoreAt(h, |h.calls|), ms[k].cfg); Exact(ms[k].cfg, t) <==> UniqueParents(t)
    {
      hide Chain, Ran, Faithful, Exact, UniqueParents;
      CompletedStays(h, ms[k]);
      CompletedIsExact(ms[k].cfg, ms[k].rounds[|ms[k].rounds| - 1]);
    }
  }

  // ---- Why a retrieval fails ----

  /** The call took the resource away. */
  ghost predicate Removes(c: Call, id: Id) {
    id in c.before && id !in c.after
  }

  lemma GoneWith(h: History, k: nat, id: Id)
    requires Chain(h) && k < |h.calls| && id in StoreAt(h, k) && id !in StoreAt(h, k + 1)
    ensures Removes(h.calls[k], id)
  {
    assert Drift(StoreAt(h, k), h.calls[k].before, h.reliable);
  }

  lemma RemovedByDestroy(h: History, k: nat, id: Id)
    requires Chain(h) && k < |h.calls| && Removes(h.calls[k], id)
    ensures h.calls[k].op.Destroy? && h.calls[k].op.id == id
  {
    assert Polite(h.calls[k]);
  }

  /** A resource that has gone was taken away by one of the calls. */
  lemma {:induction false} GoneBetween(h: History, q: nat, p: nat, id: Id) returns (k: nat)
    requires Chain(h) && q <= p <= |h.calls| && id in StoreAt(h, q) && id !in StoreAt(h, p)
    ensures q <= k < p && Removes(h.calls[k], id)
    decreases p
  {
    hide Chain, StoreAt, Removes;
    if id in StoreAt(h, p - 1) {
      k := p - 1;
      GoneWith(h, k, id);
    } else {
      k := GoneBetween(h, q, p - 1, id);
    }
  }

  lemma RemovedNow(h: History, k: nat, id: Id)
    requires Chain(h) && k < |h.calls| && Removes(h.calls[k], id)
    ensures id !in StoreAt(h, k + 1) && id < FreeAt(h, k + 1)
  {
    assert Drift(StoreAt(h, k), h.calls[k].before, h.reliable) && FreeAt(h, k) <= h.calls[k].free;
    assert Polite(h.calls[k]);
    InOrder(h, k);
  }

  lemma NotReused(s: Store, free: Id, s': Store, free': Id, id: Id)
    requires Numbering(s, free, s', free') && id !in s && id < free
    ensures id !in s'
  {
  }

  /** What has been taken away does not come back. */
  lemma RemovedStaysAway(h: History, k: nat, p: nat, id: Id)
    requires Chain(h) && k < p <= |h.calls| && Removes(h.calls[k], id)
    ensures id !in StoreAt(h, p)
  {
    hide Chain, StoreAt, FreeAt, Numbering, Removes;
    RemovedNow(h, k, id);
    KeepNumbering(h, k + 1, p);
    NotReused(StoreAt(h, k + 1), FreeAt(h, k + 1), StoreAt(h, p), FreeAt(h, p), id);
  }

  lemma {:induction false} TypedIn(list: seq<Resource>, i: nat)
    requires i < |Typed(list)|
    ensures Typed(list)[i] in list
  {
    var rest := list[..|list| - 1];
    if i < |Typed(rest)| {
      TypedIn(rest, i);
    }
  }

  /** Between the listing and the Get that asked for it, somebody took a listed resource away. */
  ghost predicate Disturbed(h: History, cfg: Config, r: Round, s: Span)
    requires Within(h, s)
  {
    exists l, k, p :: l in r.got && DisturbedAt(h, cfg, s, l, k, p)
  }

  /** Call `k`, a Destroy that is not ours, took away what the Get `l` asked for after `p` calls. */
  ghost predicate DisturbedAt(h: History, cfg: Config, s: Span, l: Look, k: nat, p: nat)
    requires Within(h, s)
  {
    && s.listed <= k < p <= s.read && LookedAt(h, l, p) && Removes(h.calls[k], l.id)
    && h.calls[k].op.Destroy? && h.calls[k].op.id == l.id && h.calls[k].caller != cfg.lb
  }

  /** What had been listed and was then gone was taken away in between. */
  lemma VanishedIsDestroyed(h: History, cfg: Config, r: Round, s: Span)
    requires Chain(h) && TakesPlace(h, cfg, r, s) && LookedUp(r.listed, r.got) && Vanished(r)
    ensures Within(h, s) && Disturbed(h, cfg, r, s)
  {
    hide Chain, StoreAt;
    var l := r.got[|r.got| - 1];
    var p := ListedThenGone(h, cfg, r, s, l);
    var k := GoneBetween(h, s.listed, p, l.id);
    RemovedByDestroy(h, k, l.id);
    assert h.calls[k].caller != cfg.lb;
    assert DisturbedAt(h, cfg, s, l, k, p);
  }

  lemma ListedThenGone(h: History, cfg: Config, r: Round, s: Span, l: Look) returns (p: nat)
    requires TakesPlace(h, cfg, r, s) && LookedUp(r.listed, r.got) && Vanished(r) && l == r.got[|r.got| - 1]
    ensures Within(h, s) && s.listed <= p <= s.read && LookedAt(h, l, p)
    ensures l.id in StoreAt(h, s.listed) && l.id !in StoreAt(h, p)
  {
    TypedIn(r.listed.value, |r.got| - 1);
    assert Truthful(l) && l in r.got;
    p :| s.listed <= p <= s.read && LookedAt(h, l, p);
    var at :| Drift(StoreAt(h, s.listed), at, h.reliable) && Lists(at, cfg.tag, r.listed.value);
  }

  lemma LooksAreTruthful(r: Round, l: Look)
    requires LookedUp(r.listed, r.got) && l in r.got
    ensures Truthful(l)
  {
    var i :| 0 <= i < |r.got| && r.got[i] == l;
  }

  /** A Get that was not answered with the resource is the last one. */
  lemma OnlyLastAbsent(r: Round, l: Look)
    requires LookedUp(r.listed, r.got) && l in r.got && l.answer.Absent?
    ensures Vanished(r)
  {
    var i :| 0 <= i < |r.got| && r.got[i] == l;
    assert i == |r.got| - 1;
  }

  lemma DestroyedIsVanished(h: History, cfg: Config, r: Round, s: Span)
    requires Chain(h) && h.reliable && TakesPlace(h, cfg, r, s) && LookedUp(r.listed, r.got)
    requires Within(h, s) && Disturbed(h, cfg, r, s)
    ensures Vanished(r)
  {
    hide Chain, StoreAt, TakesPlace, LookedUp, Vanished;
    var l, k, p :| l in r.got && DisturbedAt(h, cfg, s, l, k, p);
    RemovedStaysAway(h, k, p, l.id);
    LooksAreTruthful(r, l);
    assert l.id !in l.at;
    OnlyLastAbsent(r, l);
  }

  /**
    * The listing is by tag only, so it names resources of others. In a reliable Engine a
    * retrieval fails if and only if somebody else destroys a listed resource of a known
    * type between the listing and the Get that asks for it.
    */
  lemma VanishedIffDestroyed(h: History, cfg: Config, r: Round, s: Span)
    requires Chain(h) && h.reliable && TakesPlace(h, cfg, r, s) && Faithful(cfg, r)
    ensures Within(h, s)
    ensures r.check == Some(RetrieveFailed) <==> Disturbed(h, cfg, r, s)
  {
    RetrievalDecides(cfg, r);
    hide Faithful, Chain;
    AllAnswered(h, r, s, cfg);
    OnlyVanished(r);
    assert LookedUp(r.listed, r.got);
    hide LookedUp, TakesPlace, Disturbed, Vanished, Surveyed;
    InSpan(h, cfg, r, s);
    if Vanished(r) {
      VanishedIsDestroyed(h, cfg, r, s);
    } else if Disturbed(h, cfg, r, s) {
      DestroyedIsVanished(h, cfg, r, s);
    }
  }

  lemma AllAnswered(h: History, r: Round, s: Span, cfg: Config)
    requires h.reliable && TakesPlace(h, cfg, r, s)
    ensures r.listed.Some? && Reached(r.got) && Reached(r.waits)
  {
  }

  // ---- What a healthy round makes of its estate ----

  /** After `i` calls the Engine is as convergence asks for: see Recon.Healthy. */
  ghost predicate HealthyAt(h: History, cfg: Config, i: nat)
    requires i <= |h.calls|
  {
    && h.reliable && cfg.backoffSteps >= 1
    && AllReady(StoreAt(h, i), WorkingSet(StoreAt(h, i), cfg))
    && Sane(EstateOf(StoreAt(h, i), cfg.lb), cfg.tag)
  }

  lemma InWorkingSet(s: Store, cfg: Config, id: Id)
    requires id in WorkingSet(s, cfg)
    ensures id in EstateOf(s, cfg.lb)
  {
  }

  /** A resource of ours that is ready is seen as ready, while only others make calls. */
  lemma SeenReady(h: History, cfg: Config, l: Look, i: nat, p: nat)
    requires Chain(h) && h.reliable && i <= p <= |h.calls| && Away(h, cfg.lb, i, p)
    requires l.id in EstateOf(StoreAt(h, i), cfg.lb) && ReadyIn(StoreAt(h, i), l.id)
    requires LookedAt(h, l, p) && Truthful(l)
    ensures l.answer.Found? && IsReady(l.answer.value.state)
  {
    OthersKeepReady(h, i, p, cfg.lb, l.id);
  }

  lemma AwayPrefix(h: History, me: Id, i: nat, p: nat, j: nat)
    requires i <= p <= j <= |h.calls| && Away(h, me, i, j)
    ensures Away(h, me, i, p) && Away(h, me, p, j)
  {
  }

  lemma HealthySeesReady(h: History, cfg: Config, r: Round, s: Span, o: Object)
    requires Chain(h) && TakesPlace(h, cfg, r, s) && HealthyAt(h, cfg, s.begin)
    requires Surveyed(r) && r.check != Some(RetrieveFailed) && o in r.seen
    ensures IsReady(o.state)
  {
    var l :| l in r.got && l.answer == Found(o);
    LooksAreTruthful(r, l);
    assert o.id in WorkingSet(StoreAt(h, s.begin), cfg) && l.id == o.id;
    InWorkingSet(StoreAt(h, s.begin), cfg, o.id);
    var p :| s.listed <= p <= s.read && LookedAt(h, l, p);
    assert ReadyIn(StoreAt(h, s.begin), l.id);
    hide Chain, EstateOf, LookedAt, Truthful, ReadyIn, Surveyed, WorkingSet;
    AwayPrefix(h, cfg.lb, s.begin, p, s.read);
    SeenReady(h, cfg, l, s.begin, p);
  }

  /** The check of a healthy round finds no fault, if it can retrieve everything. */
  lemma HealthyCheck(h: History, cfg: Config, r: Round, s: Span)
    requires Chain(h) && TakesPlace(h, cfg, r, s) && HealthyAt(h, cfg, s.begin) && Faithful(cfg, r)
    ensures r.check.None? || r.check == Some(RetrieveFailed)
  {
    assert Surveyed(r) && (r.check != Some(RetrieveFailed) ==> ExitFor(r.seen, r.check));
    hide Faithful, Chain, TakesPlace, HealthyAt, Surveyed;
    if r.check != Some(RetrieveFailed) {
      forall o | o in r.seen ensures IsReady(o.state) {
        HealthySeesReady(h, cfg, r, s, o);
      }
      NoneSelected(r.seen);
    }
  }

  lemma NoneSelected(os: seq<Object>)
    requires forall o | o in os :: IsReady(o.state)
    ensures Select(os, Failed) == [] && Select(os, Updating) == [] && Select(os, Progressing) == []
  {
    SelectIs(os, Failed);
    SelectIs(os, Updating);
    SelectIs(os, Progressing);
    EmptyIff(Select(os, Failed));
    EmptyIff(Select(os, Updating));
    EmptyIff(Select(os, Progressing));
  }

  /** The estate at the beginning, the calls of the round, and the estate at its end. */
  lemma RoundReplays(h: History, cfg: Config, r: Round, s: Span)
    requires Chain(h) && h.reliable && TakesPlace(h, cfg, r, s)
    ensures Within(h, s)
    ensures Replays(EstateOf(StoreAt(h, s.begin), cfg.lb), r.calls, EstateOf(StoreAt(h, s.end), cfg.lb))
    ensures EstateOf(StoreAt(h, s.acted), cfg.lb) == EstateOf(StoreAt(h, s.end), cfg.lb)
  {
    hide Chain, EstateOf, StoreAt, Replays;
    OthersKeepEstate(h, s.begin, s.read, cfg.lb);
    OwnReplay(h, s.read, s.acted, cfg.lb);
    OthersKeepEstate(h, s.acted, s.end, cfg.lb);
  }

  /** Every call of the round is one of the history. */
  lemma RoundCall(h: History, cfg: Config, r: Round, s: Span, c: Call) returns (k: nat)
    requires TakesPlace(h, cfg, r, s) && c in r.calls
    ensures Within(h, s) && s.read <= k < s.acted && h.calls[k] == c && c.caller == cfg.lb
  {
    k := MadeWhen(h, cfg.lb, s.read, s.acted, c);
  }

  lemma RoundWithoutUpdates(h: History, cfg: Config, r: Round, s: Span)
    requires TakesPlace(h, cfg, r, s) && forall c | c in r.calls :: !c.op.Update?
    ensures Within(h, s) && NoUpdates(h, cfg.lb, s.begin, s.end)
  {
    forall k | s.begin <= k < s.end && h.calls[k].caller == cfg.lb ensures !h.calls[k].op.Update? {
      OwnIsIn(h, cfg.lb, s.read, s.acted, k);
    }
  }

  /** What was ready when a round began and is ours at its end is ready then. */
  lemma RoundKeepsReady(h: History, cfg: Config, r: Round, s: Span, id: Id)
    requires Chain(h) && TakesPlace(h, cfg, r, s) && HealthyAt(h, cfg, s.begin)
    requires forall c | c in r.calls :: !c.op.Update?
    requires id in r.topology && id in EstateOf(StoreAt(h, s.end), cfg.lb)
    ensures ReadyIn(StoreAt(h, s.end), id)
  {
    RoundWithoutUpdates(h, cfg, r, s);
    InWorkingSet(StoreAt(h, s.begin), cfg, id);
    assert ReadyIn(StoreAt(h, s.begin), id);
    hide Chain, EstateOf, StoreAt, ReadyIn, NoUpdates;
    StaysReady(h, s.begin, s.end, cfg.lb, id);
  }

  // ---- Destroying ----

  /** Whatever was destroyed with success is gone, and nothing else. */
  lemma {:induction false} ReplayDestroys(e: Estate, calls: seq<Call>, e': Estate, ids: seq<Id>)
    requires Replays(e, calls, e') && DestroysOf(calls, ids)
    ensures OnlyLost(e, e', ids)
    ensures forall id | Razed(calls, id) :: id !in e'
    ensures forall c | c in calls :: !c.op.answer.RateLimited?
  {
    if calls != [] {
      var rest, last := calls[..|calls| - 1], calls[|calls| - 1];
      assert calls == rest + [last];
      var e1 := ReplaysLess(e, calls, e');
      ReplayDestroys(e, rest, e1, ids);
      hide Replays;
      assert last in calls;
      forall id | Razed(calls, id) ensures id !in e' {
        var c :| c in calls && c.op.Destroy? && c.op.id == id && Succeeded(c.op.answer);
        if c in rest {
          assert Razed(rest, id);
        }
      }
    }
  }

  lemma DestroyedAll(r: Round, cfg: Config, e: Estate, e': Estate)
    requires Dismantled(cfg, r) && Replays(e, r.calls, e') && r.verdict != Some(Running)
    ensures r.verdict.None? && OnlyLost(e, e', Ids(r.toDestroy))
    ensures forall id | id in Ids(r.toDestroy) :: id !in e'
  {
    hide Own, LinksFor;
    ReplayDestroys(e, r.calls, e', Ids(r.toDestroy));
    hide Replays;
    if r.pass != [] {
      assert r.pass[|r.pass| - 1] == r.calls[|r.calls| - 1];
      assert r.calls[|r.calls| - 1] in r.calls;
    }
    assert !Limited(r.pass);
    forall id | id in Ids(r.toDestroy) ensures id !in e' {
      var i :| 0 <= i < |r.toDestroy| && Ids(r.toDestroy)[i] == id;
      assert r.toDestroy[i] in r.toDestroy;
      assert Razed(r.calls, id);
    }
  }

  lemma LostExactly(e: Estate, e': Estate, ids: seq<Id>)
    requires OnlyLost(e, e', ids) && forall id | id in ids :: id !in e'
    ensures e' == e - (set id | id in ids)
  {
  }

  lemma CheckedDoomed(cfg: Config, r: Round)
    requires Checked(cfg, r) && r.check.None?
    ensures Doomed(cfg, r.topology, r.links, Ids(r.toDestroy))
  {
  }

  /** A healthy round that destroys leaves exactly what was wanted, and all is well. */
  lemma DestroyingAdvances(h: History, cfg: Config, r: Round, s: Span)
    requires Chain(h) && TakesPlace(h, cfg, r, s) && HealthyAt(h, cfg, s.begin)
    requires Checked(cfg, r) && Dismantled(cfg, r) && r.verdict != Some(Running)
    ensures Within(h, s) && r.verdict.None? && HealthyAt(h, cfg, s.end)
    ensures Iteration(cfg, r.topology, r.links, WorkingSet(StoreAt(h, s.end), cfg))
  {
    InSpan(h, cfg, r, s);
    RoundReplays(h, cfg, r, s);
    var e, e' := EstateOf(StoreAt(h, s.begin), cfg.lb), EstateOf(StoreAt(h, s.end), cfg.lb);
    assert r.topology == TopologyOf(e, cfg.tag);
    assert forall c | c in r.calls :: !c.op.Update?;
    DestroyedAll(r, cfg, e, e');
    LostExactly(e, e', Ids(r.toDestroy));
    CheckedDoomed(cfg, r);
    SomeDoomed(cfg, r);
    hide Chain, TakesPlace, Checked, Dismantled, EstateOf, Sane, Swept, Doomed, OnlyLost, Replays;
    DoomedSwept(cfg, e, e', r.links, Ids(r.toDestroy));
    forall id | id in WorkingSet(StoreAt(h, s.end), cfg) ensures ReadyIn(StoreAt(h, s.end), id) {
      InWorkingSet(StoreAt(h, s.end), cfg, id);
      SweptFrom(cfg, r.topology, r.links, WorkingSet(StoreAt(h, s.end), cfg), id);
      RoundKeepsReady(h, cfg, r, s, id);
    }
  }

  lemma SweptFrom(cfg: Config, t: Topology, l: Links, t': Topology, id: Id)
    requires Swept(cfg, t, l, t') && id in t'
    ensures id in t
  {
  }

  // ---- Creating ----

  /** Whatever was created and tagged is there, tagged, and nothing else is new. */
  lemma {:induction false} ReplayCreates(e: Estate, calls: seq<Call>, e': Estate, created: seq<Object>, tag: string)
    requires Replays(e, calls, e') && CreatedAndTagged(calls, created, tag) && |calls| == 2 * |created|
    ensures Extended(e, e', created, tag)
  {
    if created != [] {
      var n := |created| - 1;
      var o, rest := created[n], created[..n];
      assert created == rest + [o];
      var e2 := ReplaysLess(e, calls, e');
      var e1 := ReplaysLess(e, calls[..2 * n + 1], e2);
      assert calls[..2 * n + 1][..2 * n] == calls[..2 * n];
      assert calls[2 * n].op == Op.Create(o.spec, Some(o.id)) && calls[2 * n + 1].op == Op.AddTag(o.id, tag);
      CreatedBefore(calls, created, tag);
      hide CreatedAndTagged, Extended, Replays;
      ReplayCreates(e, calls[..2 * n], e1, rest, tag);
      ExtendedOneMore(e, e1, e', rest, tag, o);
    }
  }

  lemma CreatedBefore(calls: seq<Call>, created: seq<Object>, tag: string)
    requires CreatedAndTagged(calls, created, tag) && |calls| == 2 * |created| && created != []
    ensures CreatedAndTagged(calls[..|calls| - 2], created[..|created| - 1], tag)
  {
  }

  lemma Reliably(h: History, k: nat)
    requires Chain(h) && h.reliable && k < |h.calls|
    ensures Carried(h.calls[k])
  {
  }

  /** A creating loop that gave up has made a call without success. */
  lemma GaveUpWith(calls: seq<Call>, specs: seq<Spec>, created: seq<Object>, err: Error, me: Id, tag: string)
    returns (c: Call)
    requires Made(calls, specs, created, Some(err), me, tag)
    ensures c in calls && !c.ok && (c.op.Create? || c.op.AddTag?)
  {
    var n := 2 * |created|;
    assert n <= |calls|;
    hide Own, SpecsOf, CreatedAndTagged, AllCreates;
    var tail := calls[n..];
    c := tail[|tail| - 1];
    assert c == calls[n + |tail| - 1];
  }

  /** In a reliable Engine creating and tagging do not fail. */
  lemma NothingGaveUp(h: History, cfg: Config, r: Round, s: Span)
    requires Chain(h) && h.reliable && TakesPlace(h, cfg, r, s)
    requires Made(r.calls, r.toCreate, r.created, CreationError(r.verdict), cfg.lb, cfg.tag)
    ensures !CreationFailed(r.verdict)
  {
    hide Chain, TakesPlace, Made;
    if CreationFailed(r.verdict) {
      var err := CreationError(r.verdict).value;
      var c := GaveUpWith(r.calls, r.toCreate, r.created, err, cfg.lb, cfg.tag);
      var k := RoundCall(h, cfg, r, s, c);
      Reliably(h, k);
    }
  }

  lemma CreatedWith(calls: seq<Call>, created: seq<Object>, tag: string, o: Object) returns (c: Call)
    requires CreatedAndTagged(calls, created, tag) && o in created
    ensures c in calls && c.op == Op.Create(o.spec, Some(o.id))
  {
    var i :| 0 <= i < |created| && created[i] == o;
    c := calls[2 * i];
  }

  /** What a round has created is ready from then on. */
  lemma CreatedReady(h: History, cfg: Config, r: Round, s: Span, o: Object, p: nat)
    requires Chain(h) && h.reliable && TakesPlace(h, cfg, r, s) && o in r.created
    requires CreatedAndTagged(r.calls, r.created, cfg.tag) && forall c | c in r.calls :: !c.op.Update?
    requires Within(h, s) && s.acted <= p <= s.end && o.id in EstateOf(StoreAt(h, p), cfg.lb)
    ensures ReadyIn(StoreAt(h, p), o.id)
  {
    hide Chain, EstateOf, StoreAt, ReadyIn, TakesPlace, CreatedAndTagged;
    var c := CreatedWith(r.calls, r.created, cfg.tag, o);
    var k := RoundCall(h, cfg, r, s, c);
    RoundWithoutUpdates(h, cfg, r, s);
    MadeIsReady(h, k, cfg.lb, o.spec, o.id);
    StaysReady(h, k + 1, p, cfg.lb, o.id);
  }

  lemma MadeIsReady(h: History, k: nat, me: Id, spec: Spec, id: Id)
    requires Chain(h) && h.reliable && k < |h.calls| && h.calls[k].caller == me
    requires h.calls[k].op == Op.Create(spec, Some(id))
    ensures id in EstateOf(StoreAt(h, k + 1), me) && ReadyIn(StoreAt(h, k + 1), id)
  {
    assert Carried(h.calls[k]);
  }

  lemma WaitedWhen(h: History, cfg: Config, r: Round, s: Span, l: Look) returns (p: nat)
    requires TakesPlace(h, cfg, r, s) && l in r.waits
    ensures Within(h, s) && s.acted <= p <= s.end && LookedAt(h, l, p) && Away(h, cfg.lb, s.acted, s.end)
  {
    p :| s.acted <= p <= s.end && LookedAt(h, l, p);
  }

  lemma ReadyIsFine(l: Look)
    requires l.answer.Found? && IsReady(l.answer.value.state)
    ensures !Bad(l) && !Unsettled(l)
  {
  }

  /** So the wait for it sees nothing wrong. */
  lemma WaitSeesReady(h: History, cfg: Config, r: Round, s: Span, l: Look)
    requires Chain(h) && h.reliable && TakesPlace(h, cfg, r, s) && l in r.waits
    requires LooksOf(r.created, r.waits)
    requires CreatedAndTagged(r.calls, r.created, cfg.tag) && forall c | c in r.calls :: !c.op.Update?
    requires Within(h, s) && forall o | o in r.created :: o.id in EstateOf(StoreAt(h, s.acted), cfg.lb)
    ensures !Bad(l) && !Unsettled(l)
  {
    hide Chain, EstateOf, StoreAt, ReadyIn, TakesPlace, CreatedAndTagged, LookedAt, Truthful, Bad, Unsettled;
    var o :| o in r.created && o.id == l.id;
    var p := WaitedWhen(h, cfg, r, s, l);
    AwayPrefix(h, cfg.lb, s.acted, p, s.end);
    OthersKeepEstate(h, s.acted, p, cfg.lb);
    CreatedReady(h, cfg, r, s, o, p);
    SeenReady(h, cfg, l, p, p);
    ReadyIsFine(l);
  }

  lemma WaitSucceeds(os: seq<Object>, looks: seq<Look>, err: Option<Error>, steps: int)
    requires Awaited(os, looks, err, steps) && steps >= 1
    requires forall l | l in looks :: !Bad(l) && !Unsettled(l)
    ensures err.None?
  {
  }

  /** What is known of a creating round that has not failed. */
  lemma BuiltCalls(cfg: Config, r: Round)
    requires Built(cfg, r) && !CreationFailed(r.verdict)
    ensures CreatedAndTagged(r.calls, r.created, cfg.tag) && |r.calls| == 2 * |r.created|
    ensures forall c | c in r.calls :: !c.op.Update?
    ensures Awaited(r.created, r.waits, r.waited, cfg.backoffSteps) && LooksOf(r.created, r.waits)
    ensures r.waited.None? ==> r.verdict.None?
  {
  }

  lemma BuiltMade(cfg: Config, r: Round)
    requires Built(cfg, r)
    ensures Made(r.calls, r.toCreate, r.created, CreationError(r.verdict), cfg.lb, cfg.tag)
  {
  }

  lemma ExtendedHas(e: Estate, e': Estate, created: seq<Object>, tag: string)
    requires Extended(e, e', created, tag)
    ensures forall o | o in created :: o.id in e'
  {
  }

  /** A healthy round that creates leaves all that was missing, and all is well. */
  lemma CreatingExtends(h: History, cfg: Config, r: Round, s: Span)
    requires Chain(h) && TakesPlace(h, cfg, r, s) && h.reliable && cfg.backoffSteps >= 1 && Built(cfg, r)
    ensures Within(h, s) && r.verdict.None?
    ensures CreatedAndTagged(r.calls, r.created, cfg.tag) && (forall c | c in r.calls :: !c.op.Update?)
    ensures Extended(EstateOf(StoreAt(h, s.begin), cfg.lb), EstateOf(StoreAt(h, s.end), cfg.lb), r.created, cfg.tag)
  {
    hide Chain, TakesPlace, Built, EstateOf, StoreAt, Replays, Made, CreatedAndTagged, LooksOf, Awaited, Extended;
    InSpan(h, cfg, r, s);
    BuiltMade(cfg, r);
    NothingGaveUp(h, cfg, r, s);
    BuiltCalls(cfg, r);
    RoundReplays(h, cfg, r, s);
    var e, e' := EstateOf(StoreAt(h, s.begin), cfg.lb), EstateOf(StoreAt(h, s.end), cfg.lb);
    ReplayCreates(e, r.calls, e', r.created, cfg.tag);
    ExtendedHas(e, e', r.created, cfg.tag);
    forall l | l in r.waits ensures !Bad(l) && !Unsettled(l) {
      WaitSeesReady(h, cfg, r, s, l);
    }
    WaitSucceeds(r.created, r.waits, r.waited, cfg.backoffSteps);
  }

  lemma CheckedDemands(cfg: Config, r: Round)
    requires Checked(cfg, r) && r.check.None?
    ensures LinksFor(cfg, r.topology, r.links) && ParentsOnce(r.toCreate)
    ensures forall spec :: spec in r.toCreate <==> Missing(cfg, r.topology, r.links, spec)
  {
  }

  lemma BuiltSpecs(cfg: Config, r: Round)
    requires Built(cfg, r) && r.verdict.None?
    ensures SpecsOf(r.created, r.toCreate) && |r.created| == |r.toCreate|
  {
  }

  lemma CreatingAdvances(h: History, cfg: Config, r: Round, s: Span)
    requires Chain(h) && TakesPlace(h, cfg, r, s) && HealthyAt(h, cfg, s.begin)
    requires Checked(cfg, r) && Built(cfg, r)
    ensures Within(h, s) && r.verdict.None? && HealthyAt(h, cfg, s.end)
    ensures Iteration(cfg, r.topology, r.links, WorkingSet(StoreAt(h, s.end), cfg))
  {
    CreatingExtends(h, cfg, r, s);
    var e, e' := EstateOf(StoreAt(h, s.begin), cfg.lb), EstateOf(StoreAt(h, s.end), cfg.lb);
    assert r.topology == TopologyOf(e, cfg.tag) && r.check.None? && r.toDestroy == [] && r.toCreate != [];
    CheckedDemands(cfg, r);
    BuiltSpecs(cfg, r);
    SomeMissing(cfg, r);
    InOrder(h, s.begin);
    SoundRooted(StoreAt(h, s.begin), cfg.lb);
    hide Chain, TakesPlace, Checked, Built, EstateOf, Sane, Grown, Extended, CreatedAndTagged, LinksFor, Rooted,
      Missing,
         SpecsOf, ParentsOnce;
    MissingGrown(cfg, e, e', r.links, r.toCreate, r.created);
    forall id | id in WorkingSet(StoreAt(h, s.end), cfg) ensures ReadyIn(StoreAt(h, s.end), id) {
      InWorkingSet(StoreAt(h, s.end), cfg, id);
      if id in r.topology {
        RoundKeepsReady(h, cfg, r, s, id);
      } else {
        var o :| o in r.created && o.id == id;
        CreatedReady(h, cfg, r, s, o, s.end);
      }
    }
  }

  // ---- Healthy runs ----

  lemma RoundIs(cfg: Config, r: Round)
    requires Faithful(cfg, r) && r.check.None?
    ensures Checked(cfg, r) && (Dismantled(cfg, r) || Built(cfg, r) || r.verdict == Some(Completed))
  {
  }

  /** What a healthy round does for convergence follows from what its calls do. */
  lemma RoundAdvances(h: History, cfg: Config, r: Round, s: Span)
    requires Chain(h) && TakesPlace(h, cfg, r, s) && HealthyAt(h, cfg, s.begin) && Faithful(cfg, r)
    requires r.verdict != Some(Running)
    ensures Within(h, s) && Advances(cfg, r, WorkingSet(StoreAt(h, s.end), cfg))
    ensures r.verdict.None? ==> HealthyAt(h, cfg, s.end)
    ensures UniqueParents(r.topology)
  {
    InSpan(h, cfg, r, s);
    HealthyCheck(h, cfg, r, s);
    RetrievalDecides(cfg, r);
    assert UniqueParents(r.topology);
    hide Chain, TakesPlace, HealthyAt, UniqueParents, Iteration, Surveyed;
    if r.check.None? {
      RoundIs(cfg, r);
      hide Faithful, Checked, Dismantled, Built;
      if Dismantled(cfg, r) {
        DestroyingAdvances(h, cfg, r, s);
      } else if Built(cfg, r) {
        CreatingAdvances(h, cfg, r, s);
      }
    }
  }

  /** The run began in health, has taken place, and has ended. */
  ghost predicate RanHealthy(h: History, m: Machine) {
    && Ran(h, m) && m.verdict != Running
    && m.rounds != [] && Within(h, m.spans[0]) && HealthyAt(h, m.cfg, m.spans[0].begin)
  }

  lemma MachineRound(h: History, m: Machine, i: nat)
    requires RanHealthy(h, m) && i < |m.rounds|
    ensures |m.spans| == |m.rounds| && Faithful(m.cfg, m.rounds[i]) && TakesPlace(h, m.cfg, m.rounds[i], m.spans[i])
    ensures i < |m.rounds| - 1 ==> m.rounds[i].verdict.None? && m.spans[i + 1].begin == m.spans[i].end
    ensures i == |m.rounds| - 1 ==> m.rounds[i].verdict == Some(m.verdict)
  {
  }

  lemma NextSees(h: History, cfg: Config, r: Round, s: Span)
    requires TakesPlace(h, cfg, r, s)
    ensures Within(h, s) && r.topology == WorkingSet(StoreAt(h, s.begin), cfg)
  {
  }

  /** A healthy round in which the run does not end keeps it on course. */
  lemma CourseKept(h: History, cfg: Config, before: seq<Round>, r: Round, s: Span)
    requires Chain(h) && TakesPlace(h, cfg, r, s) && HealthyAt(h, cfg, s.begin) && Faithful(cfg, r)
    requires r.verdict != Some(Running) && OnCourse(cfg, before, r.topology)
    ensures Within(h, s)
    ensures if r.verdict.Some? then Converges(cfg, before + [r], r.verdict.value)
            else OnCourse(cfg, before + [r], WorkingSet(StoreAt(h, s.end), cfg)) && HealthyAt(h, cfg, s.end)
  {
    hide Chain, TakesPlace, HealthyAt, OnCourse, Faithful, Converges, Advances, UniqueParents;
    InSpan(h, cfg, r, s);
    RoundAdvances(h, cfg, r, s);
    CourseHeld(cfg, before, r, WorkingSet(StoreAt(h, s.end), cfg));
  }

  lemma BeginsHealthy(h: History, m: Machine)
    requires RanHealthy(h, m)
    ensures m.rounds != [] && |m.spans| == |m.rounds| && Within(h, m.spans[0]) && HealthyAt(h, m.cfg, m.spans[0].begin)
  {
  }

  /** Round by round a healthy run stays on course, until it ends as one. */
  lemma {:induction false} StaysOnCourse(h: History, m: Machine, n: nat)
    requires Chain(h) && RanHealthy(h, m) && n < |m.rounds|
    ensures |m.spans| == |m.rounds| && Within(h, m.spans[n]) && HealthyAt(h, m.cfg, m.spans[n].begin)
    ensures OnCourse(m.cfg, m.rounds[..n], m.rounds[n].topology)
  {
    hide Chain, TakesPlace, HealthyAt, OnCourse, Faithful, RanHealthy, Converges, Within, WorkingSet;
    MachineRound(h, m, n);
    NextSees(h, m.cfg, m.rounds[n], m.spans[n]);
    if n == 0 {
      BeginsHealthy(h, m);
      NothingYet(m.cfg, m.rounds[0].topology);
      assert m.rounds[..0] == [];
    } else {
      StaysOnCourse(h, m, n - 1);
      MachineRound(h, m, n - 1);
      CourseKept(h, m.cfg, m.rounds[..n - 1], m.rounds[n - 1], m.spans[n - 1]);
      assert m.rounds[..n] == m.rounds[..n - 1] + [m.rounds[n - 1]];
    }
  }

  lemma NothingYet(cfg: Config, t: Topology)
    ensures OnCourse(cfg, [], t)
  {
  }

  lemma HasEnded(h: History, m: Machine)
    requires RanHealthy(h, m)
    ensures m.rounds != [] && m.verdict != Running
  {
  }

  /** A run that began in health goes as Recon.Reconcile says a healthy run goes. */
  lemma HealthyConverges(h: History, m: Machine)
    requires Chain(h) && RanHealthy(h, m)
    ensures Converges(m.cfg, m.rounds, m.verdict)
  {
    hide Chain, TakesPlace, HealthyAt, OnCourse, Faithful, Converges, RanHealthy, Within;
    HasEnded(h, m);
    var n := |m.rounds| - 1;
    StaysOnCourse(h, m, n);
    MachineRound(h, m, n);
    CourseKept(h, m.cfg, m.rounds[..n], m.rounds[n], m.spans[n]);
    assert m.rounds == m.rounds[..n] + [m.rounds[n]];
  }

  ghost predicate Reaches(h: History, m: Machine) {
    Exact(m.cfg, WorkingSet(StoreAt(h, |h.calls|), m.cfg))
  }

  lemma ConvergedUnique(cfg: Config, rounds: seq<Round>)
    requires Converges(cfg, rounds, Completed)
    ensures rounds != [] && UniqueParents(rounds[|rounds| - 1].topology)
  {
    hide UniqueParents, Undisturbed, DestroysFirst;
    RunDescends(cfg, Snapshots(rounds));
    assert Snapshots(rounds)[|rounds| - 1].topology == rounds[|rounds| - 1].topology;
  }

  lemma CompletedReaches(h: History, m: Machine)
    requires Chain(h) && RanHealthy(h, m) && m.verdict == Completed
    ensures Reaches(h, m)
  {
    assert Ran(h, m);
    hide Chain, Ran, RanHealthy, Faithful, Exact, UniqueParents, Converges;
    HealthyConverges(h, m);
    CompletedStays(h, m);
    ConvergedUnique(m.cfg, m.rounds);
    CompletedIsExact(m.cfg, m.rounds[|m.rounds| - 1]);
  }

  /** The last retrieval of the run was disturbed by a Destroy of somebody else. */
  ghost predicate DisturbedLast(h: History, m: Machine) {
    var last := |m.rounds| - 1;
    |m.spans| == |m.rounds| > 0 && Within(h, m.spans[last]) && Disturbed(h, m.cfg, m.rounds[last], m.spans[last])
  }

  /** The run completes exactly if its last retrieval was not disturbed. */
  lemma CompletesIffUndisturbed(h: History, m: Machine)
    requires Chain(h) && RanHealthy(h, m)
    ensures m.verdict == Completed <==> !DisturbedLast(h, m)
    ensures m.verdict == Completed || m.verdict == Aborted(RetrieveFailed)
  {
    var n := |m.rounds| - 1;
    HealthyConverges(h, m);
    MachineRound(h, m, n);
    assert h.reliable;
    hide Chain, RanHealthy, TakesPlace, Faithful;
    VanishedIffDestroyed(h, m.cfg, m.rounds[n], m.spans[n]);
    RetrievalDecides(m.cfg, m.rounds[n]);
  }

  /**
    * Runs that begin in health, interleaved in any way with each other and with all other
    * calls, and that have ended: each takes five rounds at most; it completes, and then
    * has its intended topology at the end of all calls, if and only if nobody else took
    * away what it had listed last before it could fetch it; otherwise it ends with that
    * retrieval. If nobody destroys anything, all of them complete.
    */
  lemma MachinesConverge(h: History, ms: seq<Machine>)
    requires Chain(h) && forall k | 0 <= k < |ms| :: RanHealthy(h, ms[k])
    ensures forall k | 0 <= k < |ms| ::
              && |ms[k].rounds| <= 5
              && (ms[k].verdict == Completed || ms[k].verdict == Aborted(RetrieveFailed))
              && (ms[k].verdict == Completed <==> !DisturbedLast(h, ms[k]))
              && (ms[k].verdict == Completed ==> Reaches(h, ms[k]))
    ensures (forall c | c in h.calls :: !c.op.Destroy?) ==> forall k | 0 <= k < |ms| :: ms[k].verdict == Completed
  {
    forall k | 0 <= k < |ms|
      ensures |ms[k].rounds| <= 5
      ensures ms[k].verdict == Completed || ms[k].verdict == Aborted(RetrieveFailed)
      ensures ms[k].verdict == Completed <==> !DisturbedLast(h, ms[k])
      ensures ms[k].verdict == Completed ==> Reaches(h, ms[k])
    {
      HealthyConverges(h, ms[k]);
      hide Chain, RanHealthy, Reaches, DisturbedLast;
      CompletesIffUndisturbed(h, ms[k]);
      if ms[k].verdict == Completed {
        CompletedReaches(h, ms[k]);
      }
    }
    forall k | 0 <= k < |ms| && DisturbedLast(h, ms[k]) ensures exists c :: c in h.calls && c.op.Destroy? {
      var i := DisturbedWhen(h, ms[k]);
      assert h.calls[i] in h.calls;
    }
  }

  lemma DisturbedWhen(h: History, m: Machine) returns (i: nat)
    requires DisturbedLast(h, m)
    ensures m.spans[|m.rounds| - 1].begin <= i < m.spans[|m.rounds| - 1].end <= |h.calls|
    ensures h.calls[i].op.Destroy? && h.calls[i].caller != m.cfg.lb
  {
    var n := |m.rounds| - 1;
    var l, k, p :| l in m.rounds[n].got && DisturbedAt(h, m.cfg, m.spans[n], l, k, p);
    i := k;
  }

  // ---- After the destroying ----

  /** The round in which a call of ours was made. */
  lemma {:induction false} RoundAround(h: History, m: Machine, n: nat, i: nat) returns (x: nat)
    requires RanHealthy(h, m) && 1 <= n <= |m.rounds|
    requires m.spans[0].end <= i < m.spans[n - 1].end
    ensures 1 <= x < n && m.spans[x].begin <= i < m.spans[x].end
    decreases n
  {
    hide RanHealthy, TakesPlace, Faithful;
    MachineRound(h, m, n - 1);
    if n >= 2 {
      MachineRound(h, m, n - 2);
      if m.spans[n - 1].begin <= i {
        x := n - 1;
      } else {
        x := RoundAround(h, m, n - 1, i);
      }
    }
  }

  lemma NothingToDestroy(cfg: Config, r: Round, c: Call)
    requires Faithful(cfg, r) && r.toDestroy == [] && c in r.calls
    ensures !c.op.Destroy?
  {
  }

  /** The call was made by the run, after its first round. */
  ghost predicate PastFirst(h: History, m: Machine, i: nat) {
    i < |h.calls| && h.calls[i].caller == m.cfg.lb && |m.spans| > 0 && m.spans[0].end <= i
  }

  lemma OwnInSpan(h: History, cfg: Config, r: Round, s: Span, i: nat)
    requires TakesPlace(h, cfg, r, s) && s.begin <= i < s.end && h.calls[i].caller == cfg.lb
    ensures h.calls[i] in r.calls
  {
    OwnIsIn(h, cfg.lb, s.read, s.acted, i);
  }

  lemma BeforeTheEnd(h: History, m: Machine, i: nat)
    requires RanHealthy(h, m) && PastFirst(h, m, i)
    ensures i < m.spans[|m.rounds| - 1].end
  {
  }

  /** A healthy run destroys in its first round only. */
  lemma DestroyingIsOver(h: History, m: Machine, i: nat)
    requires Chain(h) && RanHealthy(h, m) && PastFirst(h, m, i)
    ensures !h.calls[i].op.Destroy?
  {
    HealthyConverges(h, m);
    BeforeTheEnd(h, m, i);
    MachineRound(h, m, 0);
    var x := RoundAround(h, m, |m.rounds|, i);
    var r := m.rounds[x];
    MachineRound(h, m, x);
    assert r.toDestroy == [];
    hide Chain, RanHealthy, TakesPlace, Faithful, Converges;
    OwnInSpan(h, m.cfg, r, m.spans[x], i);
    NothingToDestroy(m.cfg, r, h.calls[i]);
  }

  /** While this run lasts all others that make calls are past their first round. */
  ghost predicate OthersPastFirst(h: History, ms: seq<Machine>, m: Machine) {
    forall i | 0 <= i < |h.calls| && h.calls[i].caller != m.cfg.lb && During(m, i) :: MadeLater(h, ms, i)
  }

  ghost predicate During(m: Machine, i: nat) {
    exists k :: 0 <= k < |m.spans| && m.spans[k].begin <= i < m.spans[k].end
  }

  ghost predicate MadeLater(h: History, ms: seq<Machine>, i: nat) {
    exists k :: 0 <= k < |ms| && PastFirst(h, ms[k], i)
  }

  /** So a healthy run completes if the others have done their destroying when it begins. */
  lemma CompletesAfterDestroying(h: History, ms: seq<Machine>, m: Machine)
    requires Chain(h) && (forall k | 0 <= k < |ms| :: RanHealthy(h, ms[k])) && RanHealthy(h, m)
    requires OthersPastFirst(h, ms, m)
    ensures m.verdict == Completed && Reaches(h, m)
  {
    CompletesIffUndisturbed(h, m);
    hide Chain, RanHealthy, Reaches;
    if m.verdict == Completed {
      CompletedReaches(h, m);
    } else {
      var i := DisturbedWhen(h, m);
      assert During(m, i);
      var k :| 0 <= k < |ms| && PastFirst(h, ms[k], i);
      DestroyingIsOver(h, ms[k], i);
    }
  }

  /**
    * That does happen. The Destroy of another reconciliation between our listing and our
    * retrieving what was listed makes our check fail, although nothing of ours has changed.
    */
  lemma ListingIsShared(tag: string, me: Id, other: Id)
    requires me != other
    ensures exists c: Call, list: seq<Resource>, got: seq<Look> ::
              && c.caller == other && Polite(c) && c.op == Op.Destroy(0, Gone)
              && Lists(c.before, tag, list) && LookedUp(Some(list), got) && (forall l | l in got :: l.at == c.after)
              && !Succeeds(Some(list), got)
              && EstateOf(c.before, me) == EstateOf(c.after, me) == map[]
  {
    hide Polite, EstateOf, LookedUp, Succeeds, Lists;
    var s := LoneStore(tag, other);
    var c := Call(Op.Destroy(0, Gone), other, true, s, map[], 1, 1);
    LoneEstate(s, me, other);
    LoneDestroyed(c, other);
    LoneListed(s, tag);
    LoneLooked();
    assert c.caller == other && Polite(c);
  }

  ghost function LoneStore(tag: string, lb: Id): (s: Store) {
    map[0 := Record(Backend("b", TCP, TCP_CHECK, lb), State(false, OK), {tag})]
  }

  lemma LoneListed(s: Store, tag: string)
    requires s.Keys == {0} && s[0].spec.Backend? && s[0].tags == {tag}
    ensures Lists(s, tag, [Resource(0, Backends)])
  {
    assert [Resource(0, Backends)][0] in [Resource(0, Backends)];
  }

  lemma LoneLooked()
    ensures LookedUp(Some([Resource(0, Backends)]), [Look(0, Absent, map[])])
    ensures !Succeeds(Some([Resource(0, Backends)]), [Look(0, Absent, map[])])
  {
    var list, got := [Resource(0, Backends)], [Look(0, Absent, map[])];
    assert list[..1] == list && list[..0] == [];
    TypedStep(list, 0);
    NothingMore(list);
    hide Typed;
    assert Typed(list) == list;
    assert got[0] in got;
  }

  lemma LoneEstate(s: Store, me: Id, other: Id)
    requires me != other && s.Keys == {0} && s[0].spec.Backend? && s[0].spec.lb == other
    ensures EstateOf(s, me) == EstateOf(map[], me) == map[]
  {
    assert Home(s, s[0].spec) == Some(other);
  }

  lemma LoneDestroyed(c: Call, other: Id)
    requires c.before.Keys == {0} && c.before[0].spec.Backend? && c.before[0].spec.lb == other && c.caller == other
    requires c.after == map[] && c.free == c.free' && c.op.Destroy? && c.op.id == 0
    ensures Polite(c)
  {
    assert c.before - {0} == map[];
    PoliteDestroy(c, 0);
  }
}
