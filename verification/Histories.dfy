/**
  * The calls of all reconciliations on one Engine, in the order the Engine saw them;
  * each call is one of those whose makers promise to leave the resources of other
  * LoadBalancers alone.
  */
module Histories {
  import opened Common
  import opened Resources
  import opened Engines

  /** What the Engine does by itself: states change; in a reliable one what is ready stays so. */
  ghost predicate Drift(s: Store, s': Store, reliable: bool) {
    && s.Keys == s'.Keys
    && (forall id | id in s :: s'[id].spec == s[id].spec && s'[id].tags == s[id].tags)
    && (reliable ==> forall id | id in s && ReadyIn(s, id) :: ReadyIn(s', id))
  }

  /** What the Engine holds at first, whether it is reliable, and all calls that follow. */
  datatype History = History(store: Store, free: Id, reliable: bool, calls: seq<Call>)

  /** The store after the first `i` calls. */
  ghost function StoreAt(h: History, i: nat): (at: Store)
    requires i <= |h.calls|
  {
    if i == 0 then h.store else h.calls[i - 1].after
  }

  /** The first free identifier after the first `i` calls. */
  ghost function FreeAt(h: History, i: nat): (free: Id)
    requires i <= |h.calls|
  {
    if i == 0 then h.free else h.calls[i - 1].free'
  }

  ghost predicate Bounded(s: Store, free: Id) {
    forall id | id in s :: id < free
  }

  /**
    * The calls follow each other, and everyone keeps to their own resources; a reliable
    * Engine carries them out.
    */
  ghost predicate Chain(h: History) {
    && Sound(h.store) && Bounded(h.store, h.free)
    && (forall i | 0 <= i < |h.calls| :: Drift(StoreAt(h, i), h.calls[i].before, h.reliable))
    && (forall i | 0 <= i < |h.calls| :: FreeAt(h, i) <= h.calls[i].free)
    && (forall i | 0 <= i < |h.calls| :: Polite(h.calls[i]))
    && (h.reliable ==> forall i | 0 <= i < |h.calls| :: Carried(h.calls[i]))
  }

  lemma DriftKeepsEstate(s: Store, s': Store, reliable: bool, me: Id)
    requires Drift(s, s', reliable)
    ensures EstateOf(s, me) == EstateOf(s', me)
  {
    forall id | id in s ensures Home(s, s[id].spec) == Home(s', s'[id].spec) {
    }
  }

  lemma DriftKeepsSound(s: Store, s': Store, reliable: bool)
    requires Drift(s, s', reliable) && Sound(s)
    ensures Sound(s')
  {
    forall id | id in s' ensures ParentExists(s', s'[id].spec) {
      assert ParentExists(s, s[id].spec);
    }
  }

  /** Only others make calls from `i` to `j`. */
  ghost predicate Away(h: History, me: Id, i: nat, j: nat)
    requires j <= |h.calls|
  {
    forall k | i <= k < j :: h.calls[k].caller != me
  }

  // ---- What everyone relies on ----

  /** As long as only others make calls, nothing of ours changes. */
  lemma {:induction false} OthersKeepEstate(h: History, i: nat, j: nat, me: Id)
    requires Chain(h) && i <= j <= |h.calls| && Away(h, me, i, j)
    ensures EstateOf(StoreAt(h, i), me) == EstateOf(StoreAt(h, j), me)
    decreases j
  {
    hide EstateOf, Polite, Drift;
    if i < j {
      OthersKeepEstate(h, i, j - 1, me);
      DriftKeepsEstate(StoreAt(h, j - 1), h.calls[j - 1].before, h.reliable, me);
      PoliteTo(h.calls[j - 1], me);
    }
  }

  /** What is ready stays ready through a call of somebody else. */
  lemma OthersCallKeepsReady(h: History, j: nat, me: Id, id: Id)
    requires Chain(h) && h.reliable && j < |h.calls| && h.calls[j].caller != me
    requires id in EstateOf(StoreAt(h, j), me) && ReadyIn(StoreAt(h, j), id)
    ensures ReadyIn(StoreAt(h, j + 1), id)
  {
    hide EstateOf, Polite, Drift, ReadyIn;
    DriftKeepsEstate(StoreAt(h, j), h.calls[j].before, h.reliable, me);
    ReadyThrough(StoreAt(h, j), h.calls[j], me, id);
  }

  /** And what of ours is ready stays ready. */
  lemma {:induction false} OthersKeepReady(h: History, i: nat, j: nat, me: Id, id: Id)
    requires Chain(h) && h.reliable && i <= j <= |h.calls| && Away(h, me, i, j)
    requires id in EstateOf(StoreAt(h, i), me) && ReadyIn(StoreAt(h, i), id)
    ensures ReadyIn(StoreAt(h, j), id)
    decreases j
  {
    hide Chain, StoreAt, EstateOf, ReadyIn;
    if i < j {
      OthersKeepReady(h, i, j - 1, me, id);
      OthersKeepEstate(h, i, j - 1, me);
      OthersCallKeepsReady(h, j - 1, me, id);
    }
  }

  lemma ReadyThrough(s: Store, c: Call, me: Id, id: Id)
    requires Drift(s, c.before, true) && Polite(c) && c.caller != me
    requires id in EstateOf(c.before, me) && ReadyIn(s, id)
    ensures ReadyIn(c.after, id)
  {
    PoliteKeeps(c, me, id);
  }

  /** The Engine is in order after every call. */
  lemma {:induction false} InOrder(h: History, i: nat)
    requires Chain(h) && i <= |h.calls|
    ensures Sound(StoreAt(h, i)) && Bounded(StoreAt(h, i), FreeAt(h, i))
    decreases i
  {
    hide Sound, Drift, Polite, Numbering, Bounded;
    if i > 0 {
      InOrder(h, i - 1);
      StepsForward(StoreAt(h, i - 1), FreeAt(h, i - 1), h.calls[i - 1], h.reliable);
    }
  }

  /** Identifiers are new, and kinds kept, from one store to a later one. */
  ghost predicate Numbering(s: Store, free: Id, s': Store, free': Id) {
    && free <= free' && NoReuse(s, free, s')
    && (forall id | id in s && id in s' :: KindOf(s[id].spec) == KindOf(s'[id].spec))
  }

  lemma StepsForward(s: Store, free: Id, c: Call, reliable: bool)
    requires Bounded(s, free) && Drift(s, c.before, reliable) && free <= c.free && Polite(c)
    ensures Bounded(c.after, c.free') && Numbering(s, free, c.after, c.free')
    ensures Sound(s) ==> Sound(c.after)
  {
    if Sound(s) {
      DriftKeepsSound(s, c.before, reliable);
    }
  }

  lemma NumberingJoins(s: Store, free: Id, s': Store, free': Id, s'': Store, free'': Id)
    requires Bounded(s, free) && Numbering(s, free, s', free') && Numbering(s', free', s'', free'')
    ensures Numbering(s, free, s'', free'')
  {
  }

  lemma NumberingSame(s: Store, free: Id)
    ensures Numbering(s, free, s, free)
  {
  }

  lemma OneForward(h: History, j: nat)
    requires Chain(h) && j < |h.calls|
    ensures Numbering(StoreAt(h, j), FreeAt(h, j), StoreAt(h, j + 1), FreeAt(h, j + 1))
  {
    InOrder(h, j);
    StepsForward(StoreAt(h, j), FreeAt(h, j), h.calls[j], h.reliable);
  }

  lemma {:induction false} KeepNumbering(h: History, i: nat, j: nat)
    requires Chain(h) && i <= j <= |h.calls|
    ensures Numbering(StoreAt(h, i), FreeAt(h, i), StoreAt(h, j), FreeAt(h, j))
    decreases j
  {
    hide Chain, Numbering, Bounded, StoreAt, FreeAt, Sound;
    if i == j {
      NumberingSame(StoreAt(h, i), FreeAt(h, i));
    } else {
      KeepNumbering(h, i, j - 1);
      OneForward(h, j - 1);
      InOrder(h, i);
      NumberingJoins(StoreAt(h, i), FreeAt(h, i), StoreAt(h, j - 1), FreeAt(h, j - 1), StoreAt(h, j), FreeAt(h, j));
    }
  }

  /**
    * What a reconciliation relies on between two of its own calls is what the others'
    * calls, and the Engine by itself, provide: from the store after the first `i` calls
    * to `s'`, what the store after `j` calls has drifted to.
    */
  lemma OthersAreRelied(h: History, i: nat, j: nat, s': Store, me: Id)
    requires Chain(h) && i <= j <= |h.calls| && Away(h, me, i, j) && Drift(StoreAt(h, j), s', h.reliable)
    ensures Relied(StoreAt(h, i), FreeAt(h, i), s', me, h.reliable)
    ensures Sound(s') && Bounded(s', FreeAt(h, j)) && FreeAt(h, i) <= FreeAt(h, j)
  {
    OthersKeepEstate(h, i, j, me);
    DriftKeepsEstate(StoreAt(h, j), s', h.reliable, me);
    InOrder(h, j);
    DriftKeepsSound(StoreAt(h, j), s', h.reliable);
    KeepNumbering(h, i, j);
    if h.reliable {
      forall id | id in EstateOf(StoreAt(h, i), me) && id in s' && ReadyIn(StoreAt(h, i), id) ensures ReadyIn(s', id) {
        OthersKeepReady(h, i, j, me, id);
      }
    }
  }

  // ---- What our own calls do ----

  /** Those of the calls that `me` made. */
  ghost function By(calls: seq<Call>, me: Id): (own: seq<Call>) {
    if calls == [] then []
    else
      var last := calls[|calls| - 1];
      By(calls[..|calls| - 1], me) + (if last.caller == me then [last] else [])
  }

  lemma {:induction false} ByHas(calls: seq<Call>, me: Id, c: Call)
    ensures c in By(calls, me) <==> c in calls && c.caller == me
  {
    if calls != [] {
      var rest, last := calls[..|calls| - 1], calls[|calls| - 1];
      assert calls == rest + [last];
      ByHas(rest, me, c);
    }
  }

  lemma OwnIsIn(h: History, me: Id, from: nat, to: nat, k: nat)
    requires from <= k < to <= |h.calls| && h.calls[k].caller == me
    ensures h.calls[k] in By(h.calls[from..to], me)
  {
    assert h.calls[from..to][k - from] == h.calls[k];
    ByHas(h.calls[from..to], me, h.calls[k]);
  }

  /** When a call of ours was made. */
  lemma MadeWhen(h: History, me: Id, from: nat, to: nat, c: Call) returns (k: nat)
    requires from <= to <= |h.calls| && c in By(h.calls[from..to], me)
    ensures from <= k < to && h.calls[k] == c && c.caller == me
  {
    ByHas(h.calls[from..to], me, c);
    var i :| 0 <= i < |h.calls[from..to]| && h.calls[from..to][i] == c;
    k := from + i;
  }

  lemma NoneBy(h: History, me: Id, from: nat, to: nat)
    requires from <= to <= |h.calls| && By(h.calls[from..to], me) == []
    ensures Away(h, me, from, to)
  {
    forall k | from <= k < to ensures h.calls[k].caller != me {
      if h.calls[k].caller == me {
        OwnIsIn(h, me, from, to, k);
      }
    }
  }

  lemma ByStep(h: History, me: Id, from: nat, to: nat)
    requires from < to <= |h.calls|
    ensures By(h.calls[from..to], me) ==
            By(h.calls[from..to - 1], me) + (if h.calls[to - 1].caller == me then [h.calls[to - 1]] else [])
  {
    assert h.calls[from..to][..to - 1 - from] == h.calls[from..to - 1];
  }

  /** A reliable Engine may have answered the calls like this, one after the other. */
  ghost predicate Legal(e: Estate, calls: seq<Call>)
    decreases |calls|, 0
  {
    calls == [] ||
    (Legal(e, calls[..|calls| - 1]) && Allowed(calls[|calls| - 1].op, After(e, calls[..|calls| - 1])))
  }

  /** What the calls make of the estate. */
  ghost function After(e: Estate, calls: seq<Call>): (e': Estate)
    requires Legal(e, calls)
    decreases |calls|, 1
  {
    if calls == [] then e else Effect(calls[|calls| - 1].op, After(e, calls[..|calls| - 1]))
  }

  /** The calls lead from the one estate to the other. */
  ghost predicate Replays(e: Estate, calls: seq<Call>, e': Estate) {
    Legal(e, calls) && e' == After(e, calls)
  }

  lemma ReplaysMore(e: Estate, calls: seq<Call>, e1: Estate, c: Call, e': Estate)
    requires Replays(e, calls, e1) && Does(c.op, e1, e')
    ensures Replays(e, calls + [c], e')
  {
    assert (calls + [c])[..|calls|] == calls;
  }

  lemma ReplaysLess(e: Estate, calls: seq<Call>, e': Estate) returns (e1: Estate)
    requires calls != [] && Replays(e, calls, e')
    ensures Replays(e, calls[..|calls| - 1], e1) && Does(calls[|calls| - 1].op, e1, e')
  {
    e1 := After(e, calls[..|calls| - 1]);
  }

  /** What one more call makes of our estate. */
  lemma OneCall(h: History, j: nat, me: Id)
    requires Chain(h) && j < |h.calls|
    ensures h.calls[j].caller != me ==> EstateOf(StoreAt(h, j + 1), me) == EstateOf(StoreAt(h, j), me)
    ensures h.calls[j].caller == me && h.reliable ==>
              Does(h.calls[j].op, EstateOf(StoreAt(h, j), me), EstateOf(StoreAt(h, j + 1), me))
  {
    hide EstateOf, Polite, Drift, Does;
    var c := h.calls[j];
    DriftKeepsEstate(StoreAt(h, j), c.before, h.reliable, me);
    if c.caller != me {
      PoliteTo(c, me);
    } else if h.reliable {
      assert Carried(c);
    }
  }

  /** What becomes of our estate is what our own calls make of it. */
  lemma {:induction false} OwnReplay(h: History, i: nat, j: nat, me: Id)
    requires Chain(h) && h.reliable && i <= j <= |h.calls|
    ensures Replays(EstateOf(StoreAt(h, i), me), By(h.calls[i..j], me), EstateOf(StoreAt(h, j), me))
    decreases j
  {
    hide Chain, EstateOf, StoreAt, Does;
    if i == j {
      assert h.calls[i..j] == [];
    } else {
      hide Replays;
      OwnReplay(h, i, j - 1, me);
      ByStep(h, me, i, j);
      OneCall(h, j - 1, me);
      NothingMore(By(h.calls[i..j - 1], me));
      if h.calls[j - 1].caller == me {
        ReplaysMore(EstateOf(StoreAt(h, i), me), By(h.calls[i..j - 1], me), EstateOf(StoreAt(h, j - 1), me),
                    h.calls[j - 1], EstateOf(StoreAt(h, j), me));
      }
    }
  }

  /** Nothing but Creates, tags and Destroys of ours from `i` to `j`. */
  ghost predicate NoUpdates(h: History, me: Id, i: nat, j: nat)
    requires j <= |h.calls|
  {
    forall k | i <= k < j && h.calls[k].caller == me :: !h.calls[k].op.Update?
  }

  /** What is not new and is in our estate after a call of ours was in it before. */
  lemma WasThere(c: Call, id: Id)
    requires Carried(c) && id < c.free && Polite(c) && id in EstateOf(c.after, c.caller)
    ensures id in EstateOf(c.before, c.caller)
  {
    if c.op.Create? {
      assert c.op.made.value in EstateOf(c.after, c.caller);
      assert c.op.made.value in c.after ==> c.op.made.value >= c.free;
    }
  }

  lemma OwnKeepsReady(s: Store, c: Call, id: Id)
    requires Drift(s, c.before, true) && Carried(c) && !c.op.Update?
    requires id in EstateOf(c.before, c.caller) && id in c.after && ReadyIn(s, id)
    ensures ReadyIn(c.after, id)
  {
  }

  lemma InEstate(s: Store, me: Id, id: Id)
    requires id in EstateOf(s, me)
    ensures id in s
  {
  }

  /** What we have at `i` and just after call `j` we had just before it. */
  lemma StillThere(h: History, i: nat, j: nat, me: Id, id: Id)
    requires Chain(h) && h.reliable && i <= j < |h.calls|
    requires id in EstateOf(StoreAt(h, i), me) && id in EstateOf(StoreAt(h, j + 1), me)
    ensures id in EstateOf(StoreAt(h, j), me)
  {
    var c := h.calls[j];
    assert Polite(c) && Carried(c) && FreeAt(h, j) <= c.free;
    InEstate(StoreAt(h, i), me, id);
    InOrder(h, i);
    assert id < FreeAt(h, i);
    KeepNumbering(h, i, j);
    assert FreeAt(h, i) <= FreeAt(h, j);
    hide EstateOf, Polite, Drift, Carried, Numbering, FreeAt, Sound;
    OneCall(h, j, me);
    if c.caller == me {
      DriftKeepsEstate(StoreAt(h, j), c.before, h.reliable, me);
      WasThere(c, id);
    }
  }

  /** What is ready stays ready through call `j`. */
  lemma ReadyThroughCall(h: History, j: nat, me: Id, id: Id)
    requires Chain(h) && h.reliable && j < |h.calls| && NoUpdates(h, me, j, j + 1)
    requires id in EstateOf(StoreAt(h, j), me) && ReadyIn(StoreAt(h, j), id) && id in EstateOf(StoreAt(h, j + 1), me)
    ensures ReadyIn(StoreAt(h, j + 1), id)
  {
    var c := h.calls[j];
    assert Polite(c) && Carried(c) && Drift(StoreAt(h, j), c.before, h.reliable);
    hide EstateOf, Polite, Drift, Carried, ReadyIn, Sound;
    DriftKeepsEstate(StoreAt(h, j), c.before, h.reliable, me);
    if c.caller == me {
      InEstate(StoreAt(h, j + 1), me, id);
      OwnKeepsReady(StoreAt(h, j), c, id);
    } else {
      ReadyThrough(StoreAt(h, j), c, me, id);
    }
  }

  /** What is ready stays so as long as it is there and we do not reset it. */
  lemma {:induction false} StaysReady(h: History, i: nat, j: nat, me: Id, id: Id)
    requires Chain(h) && h.reliable && i <= j <= |h.calls| && NoUpdates(h, me, i, j)
    requires id in EstateOf(StoreAt(h, i), me) && ReadyIn(StoreAt(h, i), id) && id in EstateOf(StoreAt(h, j), me)
    ensures ReadyIn(StoreAt(h, j), id)
    decreases j
  {
    hide Chain, EstateOf, StoreAt, ReadyIn;
    if i < j {
      StillThere(h, i, j - 1, me, id);
      StaysReady(h, i, j - 1, me, id);
      ReadyThroughCall(h, j - 1, me, id);
    }
  }
}
