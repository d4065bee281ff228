/** What polling for resources to become ready has seen of them. */
module Waiting {
  import opened Common
  import opened Resources
  import opened Engines
  import opened Compare
  import opened Calls

  ghost predicate UnsettledIn(looks: seq<Look>) {
    exists l :: l in looks && Unsettled(l)
  }

  ghost predicate BadIn(looks: seq<Look>) {
    exists l :: l in looks && Bad(l)
  }

  /**
    * The first `n` objects have been fetched, and `states` is what each said of
    * itself when it was last fetched.
    */
  ghost predicate Polled(os: seq<Object>, states: seq<State>, looks: seq<Look>, n: nat)
    requires n <= |os| == |states|
  {
    DistinctIds(os) ==> forall k | 0 <= k < n :: LastSeen(looks, os[k].id) == Some(states[k])
  }

  /** What was found OK and not updating is not looked at again. */
  ghost predicate AskedOnce(looks: seq<Look>) {
    forall i, j | 0 <= i < j < |looks| && looks[i].id == looks[j].id && looks[i].answer.Found? ::
      looks[i].answer.value.state.updating || !looks[i].answer.value.state.kind.OK?
  }

  /** Only the first `n` objects have been looked at. */
  ghost predicate LookedUpTo(os: seq<Object>, looks: seq<Look>, n: nat) {
    forall l | l in looks :: exists k :: 0 <= k < n && k < |os| && os[k].id == l.id
  }

  /** Every object has been fetched, and was ready when it was last fetched. */
  ghost predicate SeenFine(os: seq<Object>, looks: seq<Look>) {
    && !BadIn(looks)
    && (DistinctIds(os) ==> forall k | 0 <= k < |os| ::
          LastSeen(looks, os[k].id).Some? && IsReady(LastSeen(looks, os[k].id).value))
  }

  /**
    * What a wait of so many steps for these objects says, and what it has seen of them: it
    * times out only if it was given no step, or something was not ready yet.
    */
  ghost predicate Awaited(os: seq<Object>, looks: seq<Look>, err: Option<Error>, steps: int) {
    && (err.None? || err.value == WaitTimeout || err.value == ResourceFailed)
    && (err.None? ==> SeenFine(os, looks))
    && (err == Some(ResourceFailed) <==> BadIn(looks))
    && (err == Some(WaitTimeout) ==> steps < 1 || UnsettledIn(looks))
    && LooksOf(os, looks) && (DistinctIds(os) ==> AskedOnce(looks))
  }

  ghost predicate LooksOf(os: seq<Object>, looks: seq<Look>) {
    forall l | l in looks :: Truthful(l) && exists o :: o in os && o.id == l.id
  }

  ghost predicate FineBelow(states: seq<State>, n: nat)
    requires n <= |states|
  {
    forall k | 0 <= k < n :: IsReady(states[k])
  }

  lemma FineOneMore(states: seq<State>, i: nat, s: State)
    requires i < |states|
    ensures FineBelow(states[i := s], i + 1) <==> FineBelow(states, i) && IsReady(s)
  {
    if FineBelow(states[i := s], i + 1) {
      forall k | 0 <= k < i ensures IsReady(states[k]) {
        assert states[i := s][k] == states[k];
      }
      assert states[i := s][i] == s;
    }
  }

  /** One look at an object, or none if its state was fine and it has been looked at before. */
  ghost predicate Polling(id: Id, state: State, firstPass: bool, before: seq<Look>, got: seq<Look>, bad: bool,
                          unsettled: bool) {
    if state.kind == OK && !state.updating && !firstPass then got == before && !bad && !unsettled
    else
      && |got| == |before| + 1 && got == before + [got[|before|]] && got[|before|].id == id && Truthful(got[|before|])
      && bad == Bad(got[|before|]) && unsettled == Unsettled(got[|before|])
  }

  /** What an object says of itself after the look, if there was one. */
  ghost function Said(state: State, before: seq<Look>, got: seq<Look>): (state': State) {
    if |got| > |before| && got[|before|].answer.Found? then got[|before|].answer.value.state else state
  }

  lemma PollingBad(id: Id, state: State, firstPass: bool, before: seq<Look>, got: seq<Look>, bad: bool, unsettled: bool)
    requires Polling(id, state, firstPass, before, got, bad, unsettled)
    ensures BadIn(got) <==> BadIn(before) || bad
    ensures UnsettledIn(before) || unsettled ==> UnsettledIn(got)
    ensures !(bad && unsettled)
    ensures !bad ==> (unsettled <==> !IsReady(Said(state, before, got)))
  {
    if |got| > |before| {
      var l := got[|before|];
      assert l in got;
      if BadIn(before) {
        var x :| x in before && Bad(x);
        assert x in got;
      }
      if UnsettledIn(before) {
        var x :| x in before && Unsettled(x);
        assert x in got;
      }
    }
  }

  lemma PollingLooks(os: seq<Object>, i: nat, state: State, firstPass: bool, before: seq<Look>, got: seq<Look>,
                     bad: bool, unsettled: bool)
    requires i < |os| && LooksOf(os, before) && Polling(os[i].id, state, firstPass, before, got, bad, unsettled)
    ensures LooksOf(os, got)
  {
    assert os[i] in os;
  }

  lemma PollingPolled(os: seq<Object>, states: seq<State>, before: seq<Look>, got: seq<Look>, i: nat, firstPass: bool,
                      bad: bool, unsettled: bool)
    requires i < |os| == |states| && Polling(os[i].id, states[i], firstPass, before, got, bad, unsettled)
    requires !bad || !firstPass
    requires Polled(os, states, before, if firstPass then i else |os|)
    ensures Polled(os, states[i := Said(states[i], before, got)], got, if firstPass then i + 1 else |os|)
  {
    if DistinctIds(os) && |got| > |before| {
      var states' := states[i := Said(states[i], before, got)];
      forall k | 0 <= k < (if firstPass then i + 1 else |os|) ensures LastSeen(got, os[k].id) == Some(states'[k]) {
        LastSeenAppend(before, got[|before|], os[k].id);
      }
    }
  }

  lemma PollingAsksOnce(os: seq<Object>, states: seq<State>, before: seq<Look>, got: seq<Look>, i: nat,
                        firstPass: bool,
                        bad: bool, unsettled: bool)
    requires i < |os| == |states| && Polling(os[i].id, states[i], firstPass, before, got, bad, unsettled)
    requires DistinctIds(os) && AskedOnce(before)
    requires if firstPass then LookedUpTo(os, before, i) else Polled(os, states, before, |os|)
    ensures AskedOnce(got) && (firstPass ==> LookedUpTo(os, got, i + 1))
  {
    assert firstPass ==> forall l | l in before :: l.id != os[i].id;
    if |got| > |before| && !firstPass {
      assert LastSeen(before, os[i].id) == Some(states[i]);
      forall a | 0 <= a < |before| && before[a].id == os[i].id && before[a].answer.Found?
        ensures before[a].answer.value.state.updating || !before[a].answer.value.state.kind.OK?
      {
        if !before[a].answer.value.state.updating && before[a].answer.value.state.kind.OK? {
          assert LastAt(before, os[i].id, a);
          LastSeenIff(before, os[i].id, before[a].answer.value.state);
        }
      }
    }
  }
}
