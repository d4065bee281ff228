/**
  * What a check, a run and a wait do, told from the fields of the states they saw: a
  * resource may be updating, and it may be in Error or Pending besides.
  */
module Conditions {
  import opened Common
  import opened Resources
  import opened Layout
  import opened Engines
  import opened Compare
  import opened Retrieval
  import opened Calls
  import opened Waiting
  import opened Rounds

  // ---- The three arrays ----

  /** An object belongs into the array of this condition, by the fields of its state. */
  predicate Belongs(s: State, c: Condition) {
    match c
    case Updating => s.updating
    case Failed => !s.updating && s.kind.Error?
    case Progressing => !s.updating && s.kind.Pending?
    case Ready => !s.updating && (s.kind.OK? || s.kind.Unknown?)
  }

  ghost function PlacesIn(os: seq<Object>, c: Condition): (places: set<nat>) {
    set i: nat | i < |os| && Belongs(os[i].state, c)
  }

  /** Each array holds the objects of its condition in the order in which they were sorted. */
  lemma {:induction false} SelectPicked(os: seq<Object>, c: Condition)
    ensures Picks(Select(os, c), os, PlacesIn(os, c))
  {
    hide Picks;
    if os == [] {
      PicksNothing<Object>([]);
      assert PlacesIn(os, c) == {};
    } else {
      var rest, last := os[..|os| - 1], os[|os| - 1];
      assert os == rest + [last];
      SelectPicked(rest, c);
      PicksMore(Select(rest, c), rest, PlacesIn(rest, c), last);
      if Belongs(last.state, c) {
        assert PlacesIn(os, c) == PlacesIn(rest, c) + {|rest|};
      } else {
        assert PlacesIn(os, c) == PlacesIn(rest, c) && Select(os, c) == Select(rest, c);
      }
    }
  }

  ghost predicate SomeIn(os: seq<Object>, c: Condition) {
    exists o :: o in os && Belongs(o.state, c)
  }

  lemma SelectSome(os: seq<Object>, c: Condition)
    ensures Select(os, c) != [] <==> SomeIn(os, c)
  {
    SelectIs(os, c);
    EmptyIff(Select(os, c));
  }

  // ---- One check ----

  /**
    * A check that has retrieved stops for recovery exactly if it saw something that was
    * updating or in Error, waits exactly if it saw nothing of that and something
    * Pending, and goes on exactly if all it saw was in none of the three.
    */
  lemma CheckByStates(cfg: Config, r: Round)
    requires Checked(cfg, r) && r.check != Some(RetrieveFailed)
    ensures (r.check == Some(RecoveryPending) || r.check == Some(UpdateFailed)) <==>
            exists o :: o in r.seen && (o.state.updating || o.state.kind.Error?)
    ensures r.check == Some(ResourcesProgressing) <==>
            && (forall o | o in r.seen :: !o.state.updating && !o.state.kind.Error?)
            && exists o :: o in r.seen && o.state.kind.Pending?
    ensures r.check.None? <==>
            forall o | o in r.seen :: !o.state.updating && (o.state.kind.OK? || o.state.kind.Unknown?)
  {
    hide Checked, Select;
    CheckExits(cfg, r);
    SelectSome(r.seen, Updating);
    SelectSome(r.seen, Failed);
    SelectSome(r.seen, Progressing);
  }

  lemma CheckExits(cfg: Config, r: Round)
    requires Checked(cfg, r) && r.check != Some(RetrieveFailed)
    ensures ExitFor(r.seen, r.check)
  {
    hide ExitFor, Surveyed;
  }

  /** `calls` are Updates of the first objects seen that were in Error and not updating, in order. */
  ghost predicate ResetsInOrder(calls: seq<Call>, seen: seq<Object>, failed: seq<Object>) {
    && Picks(failed, seen, PlacesIn(seen, Failed)) && |calls| <= |failed|
    && forall i | 0 <= i < |calls| :: calls[i].op == Op.Update(failed[i].id)
  }

  /**
    * What a check that stops for recovery calls: an Update for each object in Error that
    * was not updating, in the order in which they were seen, and for no other; all of
    * them, unless an Update fails, which is then the last.
    */
  lemma ResetsByStates(cfg: Config, r: Round) returns (failed: seq<Object>)
    requires Faithful(cfg, r) && (r.check == Some(RecoveryPending) || r.check == Some(UpdateFailed))
    ensures ResetsInOrder(r.calls, r.seen, failed)
    ensures r.check == Some(RecoveryPending) ==> |r.calls| == |failed| && forall c | c in r.calls :: c.ok
    ensures r.check == Some(UpdateFailed) ==> r.calls != [] && !r.calls[|r.calls| - 1].ok
  {
    hide Faithful, Recovered, Picks, Polite;
    StopIsRecovered(cfg, r);
    failed := Select(r.seen, Failed);
    SelectPicked(r.seen, Failed);
    RecoveredCalls(cfg, r);
  }

  lemma StopIsRecovered(cfg: Config, r: Round)
    requires Faithful(cfg, r) && (r.check == Some(RecoveryPending) || r.check == Some(UpdateFailed))
    ensures Recovered(cfg, r)
  {
    hide Checked, Recovered, Awaited, Own, Made, LastPass;
  }

  lemma RecoveredCalls(cfg: Config, r: Round)
    requires Recovered(cfg, r) && (r.check == Some(RecoveryPending) || r.check == Some(UpdateFailed))
    ensures Resets(r.calls, cfg.lb, Select(r.seen, Failed))
    ensures ResetAll(r.calls, Select(r.seen, Failed), r.check == Some(RecoveryPending))
  {
    hide Polite;
  }

  /** A run updates nothing else: what it updates it has seen in Error, and not updating. */
  lemma UpdatedWasFailed(cfg: Config, rounds: seq<Round>, verdict: Verdict, c: Call)
    requires Chronicle(cfg, rounds, verdict) && c in Log(rounds) && c.op.Update?
    ensures rounds != []
    ensures exists o :: o in rounds[|rounds| - 1].seen && c.op.id == o.id && !o.state.updating && o.state.kind.Error?
  {
    hide Faithful;
    RecoveryComesLast(cfg, rounds, verdict, c);
    RoundUpdated(cfg, rounds[|rounds| - 1], c);
  }

  lemma RoundUpdated(cfg: Config, r: Round, c: Call)
    requires Faithful(cfg, r) && c in r.calls && c.op.Update?
    ensures exists o :: o in r.seen && c.op.id == o.id && !o.state.updating && o.state.kind.Error?
  {
    hide Faithful, Recovered, Polite;
    RoundUpdates(cfg, r, c);
    ResetCalls(cfg, r);
    var i :| 0 <= i < |r.calls| && r.calls[i] == c;
    SelectIs(r.seen, Failed);
    var o := Select(r.seen, Failed)[i];
    assert o in Select(r.seen, Failed);
  }

  lemma ResetCalls(cfg: Config, r: Round)
    requires Recovered(cfg, r) && r.calls != []
    ensures Resets(r.calls, cfg.lb, Select(r.seen, Failed))
  {
    hide Resets, ResetAll;
  }

  // ---- A run that returns nil ----

  /**
    * The last check of a run that returns nil saw nothing updating and nothing in Error;
    * it saw something Pending exactly if the nil follows a wait.
    */
  lemma NilByStates(cfg: Config, rounds: seq<Round>, verdict: Verdict)
    requires Chronicle(cfg, rounds, verdict) && (verdict == Completed || verdict == Unchecked)
    ensures rounds != []
    ensures var seen := rounds[|rounds| - 1].seen;
            && (forall o | o in seen :: !o.state.updating && !o.state.kind.Error?)
            && (verdict == Unchecked <==> exists o :: o in seen && o.state.kind.Pending?)
  {
    var r := rounds[|rounds| - 1];
    assert Faithful(cfg, r) && r.verdict == Some(verdict);
    hide Chronicle;
    NilChecks(cfg, r);
    CheckByStates(cfg, r);
  }

  lemma NilChecks(cfg: Config, r: Round)
    requires Faithful(cfg, r) && (r.verdict == Some(Completed) || r.verdict == Some(Unchecked))
    ensures Checked(cfg, r)
    ensures r.verdict == Some(Completed) ==> r.check.None?
    ensures r.verdict == Some(Unchecked) ==> r.check == Some(ResourcesProgressing) && Waited(cfg, r)
  {
    hide Checked, Resets, Made, Own, Awaited, LastPass;
  }

  // ---- A wait ----

  /** Look `i` found the object, in none of the three conditions, and it was not looked at again. */
  ghost predicate FineAt(looks: seq<Look>, id: Id, i: nat) {
    && i < |looks| && looks[i].id == id && looks[i].answer.Found?
    && !looks[i].answer.value.state.updating
    && (looks[i].answer.value.state.kind.OK? || looks[i].answer.value.state.kind.Unknown?)
    && forall j | i < j < |looks| :: looks[j].id != id
  }

  /**
    * A wait fails exactly if a look found nothing, or found something in Error that was
    * not updating. It succeeds only if every object was found in the end in none of the
    * three conditions, and times out only if something found was updating or Pending.
    * What was found OK and not updating is not asked for again.
    */
  lemma WaitByStates(os: seq<Object>, looks: seq<Look>, err: Option<Calls.Error>, steps: int)
    requires Awaited(os, looks, err, steps) && DistinctIds(os)
    ensures err == Some(ResourceFailed) <==>
            exists l :: l in looks
                        && (l.answer.Found? ==> !l.answer.value.state.updating && l.answer.value.state.kind.Error?)
    ensures err.None? ==> forall o | o in os :: exists i: nat :: FineAt(looks, o.id, i)
    ensures forall i, j | 0 <= i < j < |looks| && looks[i].id == looks[j].id && looks[i].answer.Found? ::
              looks[i].answer.value.state.updating || !looks[i].answer.value.state.kind.OK?
    ensures err == Some(WaitTimeout) && steps >= 1 ==>
              exists l :: l in looks
                          && l.answer.Found? && (l.answer.value.state.updating || l.answer.value.state.kind.Pending?)
  {
    if l :| l in looks && Bad(l) {
    }
    if err == Some(WaitTimeout) && steps >= 1 {
      var l :| l in looks && Unsettled(l);
    }
    if err.None? {
      forall o | o in os ensures exists i: nat :: FineAt(looks, o.id, i) {
        var k :| 0 <= k < |os| && os[k] == o;
        SeenFineAt(os, looks, k);
      }
    }
  }

  lemma SeenFineAt(os: seq<Object>, looks: seq<Look>, k: nat)
    requires SeenFine(os, looks) && DistinctIds(os) && k < |os|
    ensures exists i: nat :: FineAt(looks, os[k].id, i)
  {
    var s := LastSeen(looks, os[k].id).value;
    LastSeenIff(looks, os[k].id, s);
    var i: nat :| LastAt(looks, os[k].id, i) && looks[i].answer.value.state == s;
    forall j | i < j < |looks| ensures looks[j].id != os[k].id {
      assert !Bad(looks[j]);
    }
    assert FineAt(looks, os[k].id, i);
  }
}
