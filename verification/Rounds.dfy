/**
  * Runs of Reconcile as sequences of rounds: what one round may do, given what its
  * check saw, and what follows for whole runs whatever the Engine answered.
  */
module Rounds {
  import opened Common
  import opened Resources
  import opened Layout
  import opened Engines
  import opened Compare
  import opened Retrieval
  import opened Convergence
  import opened Calls
  import opened Waiting
  import opened Steps

  /**
    * How Reconcile ends. Completed and Unchecked are both nil in Go: Completed
    * follows a check that found nothing to do, Unchecked follows a wait. Running
    * is not an end: the loop was watched no longer.
    */
  datatype Verdict = Completed | Unchecked | Aborted(error: Error) | Running

  /**
    * One pass through the loop of Reconcile: the listing, the Gets that followed it
    * and the objects they yielded, the working set these show, the links, the error
    * and the lists the check gave, the objects that were created, the changing calls,
    * those of the last pass over what was to be destroyed, the Gets of the wait and
    * its error, and the end, if it was the end.
    */
  datatype Round = Round(
    listed: Option<seq<Resource>>,
    got: seq<Look>,
    seen: seq<Object>,
    topology: Topology,
    links: Links,
    check: Option<Error>,
    toCreate: seq<Spec>,
    toDestroy: seq<Object>,
    created: seq<Object>,
    calls: seq<Call>,
    pass: seq<Call>,
    waits: seq<Look>,
    waited: Option<Error>,
    verdict: Option<Verdict>)

  /** The exit of a check, by the conditions of the objects it saw. */
  ghost predicate ExitFor(seen: seq<Object>, check: Option<Error>) {
    && (check.None? <==> Select(seen, Failed) == [] && Select(seen, Updating) == [] && Select(seen, Progressing) == [])
    && (check == Some(ResourcesProgressing) <==>
         Select(seen, Failed) == [] && Select(seen, Updating) == [] && Select(seen, Progressing) != [])
    && (check == Some(RecoveryPending) || check == Some(UpdateFailed) <==>
         Select(seen, Failed) != [] || Select(seen, Updating) != [])
  }

  /**
    * What a check has retrieved. It fails exactly if there was no listing or a listed
    * resource of a known type could not be fetched; otherwise it has seen the working
    * set, each object as the Engine answered.
    */
  ghost predicate Surveyed(r: Round) {
    && LookedUp(r.listed, r.got)
    && (r.check == Some(RetrieveFailed) <==> !Succeeds(r.listed, r.got))
    && (r.check != Some(RetrieveFailed) ==> Depicts(r.seen, r.topology) && Answered(r.seen, r.got))
  }

  ghost predicate Checked(cfg: Config, r: Round) {
    && Surveyed(r)
    && (r.check != Some(RetrieveFailed) ==> ExitFor(r.seen, r.check))
    && (r.check.Some? ==> r.toCreate == [] && r.toDestroy == [])
    && (r.check.None? ==>
          && LinksFor(cfg, r.topology, r.links)
          && (forall spec :: spec in r.toCreate <==> Missing(cfg, r.topology, r.links, spec))
          && (forall id :: id in Ids(r.toDestroy) <==> id in r.topology && !Wanted(cfg, r.links, r.topology[id]))
          && ParentsOnce(r.toCreate) && NoDup(Ids(r.toDestroy)))
  }

  /** A list to destroy means that the working set is not clear, an empty one that it is. */
  lemma SomeDoomed(cfg: Config, r: Round)
    requires Checked(cfg, r) && r.check.None?
    ensures r.toDestroy == [] <==> Clear(cfg, r.topology, r.links)
  {
    EmptyIff(Ids(r.toDestroy));
  }

  lemma SomeMissing(cfg: Config, r: Round)
    requires Checked(cfg, r) && r.check.None?
    ensures r.toDestroy == [] <==> Clear(cfg, r.topology, r.links)
    ensures r.toCreate == [] <==> Complete(cfg, r.topology, r.links)
  {
    SomeDoomed(cfg, r);
    EmptyIff(r.toCreate);
  }

  /** A check that failed: at most the failed objects were reset, and that was all. */
  ghost predicate Recovered(cfg: Config, r: Round) {
    && r.check.Some? && r.waits == []
    && r.verdict == Some(Aborted(r.check.value))
    && (r.calls != [] ==> r.check.value == RecoveryPending || r.check.value == UpdateFailed)
    && (r.calls != [] ==> Resets(r.calls, cfg.lb, Select(r.seen, Failed)))
    && (r.check.value == RecoveryPending ==> ResetAll(r.calls, Select(r.seen, Failed), true))
    && (r.check.value == UpdateFailed ==> ResetAll(r.calls, Select(r.seen, Failed), false))
    && DistinctIds(Select(r.seen, Failed))
  }

  /** A round that only waited: its result decides, and there is no second check. */
  ghost predicate Waited(cfg: Config, r: Round) {
    && r.check == Some(ResourcesProgressing) && r.calls == []
    && Awaited(Select(r.seen, Progressing), r.waits, r.waited, cfg.backoffSteps)
    && r.verdict == Some(if r.waited.Some? then Aborted(r.waited.value) else Unchecked)
  }

  ghost predicate Dismantled(cfg: Config, r: Round) {
    && r.check.None? && r.toDestroy != [] && r.waits == []
    && Own(r.calls, cfg.lb) && DestroysOf(r.calls, Ids(r.toDestroy))
    && r.verdict in {None, Some(Aborted(NotDestroyable)), Some(Running)}
    && LastPass(r.calls, r.pass)
    && (r.verdict == Some(Aborted(NotDestroyable)) <==> Limited(r.pass) && |r.pass| == 1)
    && (r.verdict.None? && !Limited(r.pass) ==> Attempts(r.calls) == |r.toDestroy| + Failures(r.calls))
    && (r.verdict.None? && !Limited(r.pass) ==> Cleared(r.calls, r.toDestroy, []))
  }

  /** The error of creating or tagging that a round has ended with. */
  function CreationError(verdict: Option<Verdict>): (err: Option<Error>) {
    if verdict == Some(Aborted(CreateFailed)) then Some(CreateFailed)
    else if verdict == Some(Aborted(TagFailed)) then Some(TagFailed)
    else None
  }

  predicate CreationFailed(verdict: Option<Verdict>) {
    CreationError(verdict).Some?
  }

  ghost predicate Built(cfg: Config, r: Round) {
    && r.check.None? && r.toDestroy == [] && r.toCreate != []
    && (r.verdict.None? || r.verdict == Some(Aborted(WaitTimeout)) || CreationFailed(r.verdict))
    && Made(r.calls, r.toCreate, r.created, CreationError(r.verdict), cfg.lb, cfg.tag)
    && (!CreationFailed(r.verdict) ==>
          && |r.created| == |r.toCreate| && Awaited(r.created, r.waits, r.waited, cfg.backoffSteps)
          && r.verdict == if r.waited == Some(WaitTimeout) then Some(Aborted(WaitTimeout)) else None)
    && (CreationFailed(r.verdict) ==> r.waits == [])
  }

  ghost predicate Finished(r: Round) {
    && r.check.None? && r.toDestroy == [] && r.toCreate == []
    && r.calls == [] && r.waits == [] && r.verdict == Some(Completed)
  }

  ghost predicate Faithful(cfg: Config, r: Round) {
    && Checked(cfg, r)
    && (Recovered(cfg, r) || Waited(cfg, r) || Dismantled(cfg, r) || Built(cfg, r) || Finished(r))
  }

  /** The round after it has done what its check called for. */
  ghost predicate Performs(r0: Round, r: Round) {
    r == r0.(created := r.created, calls := r.calls, pass := r.pass, waits := r.waits, waited := r.waited,
      verdict := r.verdict)
  }

  lemma StaysChecked(cfg: Config, r0: Round, r: Round)
    requires Checked(cfg, r0) && Performs(r0, r)
    ensures Checked(cfg, r)
  {
  }

  /** All rounds are faithful, and exactly the last one ends the run. */
  ghost predicate Chronicle(cfg: Config, rounds: seq<Round>, verdict: Verdict) {
    && (forall i | 0 <= i < |rounds| :: Faithful(cfg, rounds[i]))
    && (forall i | 0 <= i < |rounds| - 1 :: rounds[i].verdict.None?)
    && verdict == if rounds == [] || rounds[|rounds| - 1].verdict.None? then Running
         else rounds[|rounds| - 1].verdict.value
  }

  /** The rounds of a run that has not ended. */
  ghost predicate Open(cfg: Config, rounds: seq<Round>) {
    forall i | 0 <= i < |rounds| :: Faithful(cfg, rounds[i]) && rounds[i].verdict.None?
  }

  lemma OpenExtends(cfg: Config, rounds: seq<Round>, r: Round)
    requires Open(cfg, rounds) && Faithful(cfg, r)
    ensures Chronicle(cfg, rounds + [r], if r.verdict.None? then Running else r.verdict.value)
    ensures r.verdict.None? ==> Open(cfg, rounds + [r])
  {
  }

  /** All changing calls of a run, in order. */
  ghost function Log(rounds: seq<Round>): (calls: seq<Call>) {
    if rounds == [] then [] else Log(rounds[..|rounds| - 1]) + rounds[|rounds| - 1].calls
  }

  lemma LogAppend(rounds: seq<Round>, r: Round)
    ensures Log(rounds + [r]) == Log(rounds) + r.calls
  {
    assert (rounds + [r])[..|rounds|] == rounds;
  }

  /** All Gets of a run, in order. */
  ghost function Looks(rounds: seq<Round>): (looks: seq<Look>) {
    if rounds == [] then []
    else Looks(rounds[..|rounds| - 1]) + rounds[|rounds| - 1].got + rounds[|rounds| - 1].waits
  }

  lemma LooksAppend(rounds: seq<Round>, r: Round)
    ensures Looks(rounds + [r]) == Looks(rounds) + r.got + r.waits
  {
    assert (rounds + [r])[..|rounds|] == rounds;
  }

  lemma {:induction false} LogHas(rounds: seq<Round>, c: Call) returns (i: nat)
    requires c in Log(rounds)
    ensures i < |rounds| && c in rounds[i].calls
  {
    var last := |rounds| - 1;
    if c in rounds[last].calls {
      i := last;
    } else {
      i := LogHas(rounds[..last], c);
    }
  }

  // ---- Convergence ----

  ghost function Snapshots(rounds: seq<Round>): (run: seq<Snapshot>) {
    seq(|rounds|, i requires 0 <= i < |rounds| => Snapshot(rounds[i].topology, rounds[i].links))
  }

  lemma RunExtends(cfg: Config, before: seq<Round>, r: Round)
    requires Faithful(cfg, r) && r.check.None? && UniqueParents(r.topology)
    requires before != [] ==>
               var last := before[|before| - 1];
               Run(cfg, Snapshots(before)) && Iteration(cfg, last.topology, last.links, r.topology)
    ensures Run(cfg, Snapshots(before + [r]))
  {
    hide Faithful, LinksFor, UniqueParents, Iteration;
    FoundLinks(cfg, r);
    SnapshotsMore(before, r);
    RunMore(cfg, Snapshots(before), Snapshot(r.topology, r.links));
  }

  lemma FoundLinks(cfg: Config, r: Round)
    requires Faithful(cfg, r) && r.check.None?
    ensures LinksFor(cfg, r.topology, r.links)
  {
  }

  lemma SnapshotsMore(before: seq<Round>, r: Round)
    ensures Snapshots(before + [r]) == Snapshots(before) + [Snapshot(r.topology, r.links)]
    ensures |Snapshots(before)| == |before|
    ensures before != [] ==>
              var last := before[|before| - 1];
              Snapshots(before)[|before| - 1] == Snapshot(last.topology, last.links)
  {
  }

  lemma RunMore(cfg: Config, run: seq<Snapshot>, s: Snapshot)
    requires UniqueParents(s.topology) && LinksFor(cfg, s.topology, s.links)
    requires run != [] ==> Run(cfg, run) && Follows(cfg, run[|run| - 1], s)
    ensures Run(cfg, run + [s])
  {
    hide LinksFor, UniqueParents, Iteration;
    var run' := run + [s];
    assert run'[|run|] == s && forall i | 0 <= i < |run| :: run'[i] == run[i];
  }

  /** No round but the first has anything to destroy. */
  ghost predicate DestroysFirst(rounds: seq<Round>) {
    forall i | 0 < i < |rounds| :: rounds[i].toDestroy == []
  }

  lemma DestroysFirstExtends(rounds: seq<Round>, r: Round)
    requires DestroysFirst(rounds) && (rounds != [] ==> r.toDestroy == [])
    ensures DestroysFirst(rounds + [r])
  {
  }

  lemma FinishesWhenDone(cfg: Config, r: Round)
    requires Faithful(cfg, r) && r.check.None?
    ensures r.toDestroy == [] <==> Clear(cfg, r.topology, r.links)
    ensures Clear(cfg, r.topology, r.links) && Complete(cfg, r.topology, r.links) ==> r.verdict == Some(Completed)
  {
    hide Faithful, Checked, Clear, Complete;
    FaultlessRound(cfg, r);
    SomeMissing(cfg, r);
  }

  /** With nothing on its lists a round that found no fault ends the run. */
  lemma FaultlessRound(cfg: Config, r: Round)
    requires Faithful(cfg, r) && r.check.None?
    ensures Checked(cfg, r) && (r.toDestroy == [] && r.toCreate == [] ==> r.verdict == Some(Completed))
  {
    hide Checked, Made, Own, DestroysOf, LastPass, Limited, Awaited, Resets, ResetAll, Cleared;
  }

  /** The fifth round of a healthy run finds nothing to do, if not an earlier one. */
  lemma FifthFinishes(cfg: Config, before: seq<Round>, r: Round)
    requires Faithful(cfg, r) && r.check.None? && Run(cfg, Snapshots(before + [r]))
    ensures |before| <= 4
    ensures |before| == 4 ==> r.verdict == Some(Completed)
    ensures before != [] ==> r.toDestroy == []
  {
    hide Faithful, Run, Exact, Clear, Complete;
    var run := Snapshots(before + [r]);
    ConvergesWithinFive(cfg, run);
    FinishesWhenDone(cfg, r);
    assert run[|run| - 1] == Snapshot(r.topology, r.links);
  }

  /** Every retrieval of the run succeeded. */
  ghost predicate Undisturbed(rounds: seq<Round>) {
    forall i | 0 <= i < |rounds| :: Succeeds(rounds[i].listed, rounds[i].got)
  }

  lemma UndisturbedMore(before: seq<Round>, r: Round)
    ensures Undisturbed(before + [r]) <==> Undisturbed(before) && Succeeds(r.listed, r.got)
  {
    var rounds := before + [r];
    assert rounds[|before|] == r && forall i | 0 <= i < |before| :: rounds[i] == before[i];
  }

  /**
    * How a healthy run goes: five rounds at most, destroying in the first only; it
    * completes exactly if every retrieval succeeds, and otherwise ends with the
    * retrieval that failed.
    */
  ghost predicate Converges(cfg: Config, rounds: seq<Round>, verdict: Verdict) {
    && |rounds| <= 5 && DestroysFirst(rounds)
    && (verdict == Completed || verdict == Aborted(RetrieveFailed))
    && (verdict == Completed <==> Undisturbed(rounds))
    && (verdict == Completed ==> Run(cfg, Snapshots(rounds)))
  }

  /** A healthy run that has not ended, and of which the next check sees `t`. */
  ghost predicate OnCourse(cfg: Config, rounds: seq<Round>, t: Topology) {
    && |rounds| <= 4 && DestroysFirst(rounds) && Undisturbed(rounds)
    && (rounds != [] ==>
          var last := rounds[|rounds| - 1];
          Run(cfg, Snapshots(rounds)) && Iteration(cfg, last.topology, last.links, t))
  }

  /** What a healthy round does for convergence, if `t` is what it leaves. */
  ghost predicate Advances(cfg: Config, r: Round, t: Topology) {
    && (r.check.None? || r.check == Some(RetrieveFailed))
    && (r.check.None? ==>
          || r.verdict == Some(Completed)
          || (r.verdict.None? && Iteration(cfg, r.topology, r.links, t)))
  }

  /** What the next round makes of a healthy run. */
  lemma CourseHeld(cfg: Config, before: seq<Round>, r: Round, t: Topology)
    requires UniqueParents(r.topology) && Faithful(cfg, r)
    requires OnCourse(cfg, before, r.topology) && Advances(cfg, r, t)
    ensures if r.verdict.None? then OnCourse(cfg, before + [r], t) else Converges(cfg, before + [r], r.verdict.value)
  {
    hide Faithful, Run, Iteration, UniqueParents, Succeeds, Surveyed, DestroysFirst, Undisturbed, Snapshots;
    RetrievalDecides(cfg, r);
    if r.check.None? {
      RunExtends(cfg, before, r);
      FifthFinishes(cfg, before, r);
    }
    DestroysFirstExtends(before, r);
    UndisturbedMore(before, r);
  }

  /** The Engine answered every listing and every Get of the checks. */
  ghost predicate AllReached(rounds: seq<Round>) {
    forall i | 0 <= i < |rounds| :: rounds[i].listed.Some? && Reached(rounds[i].got)
  }

  lemma ReachedMore(before: seq<Round>, r: Round)
    ensures AllReached(before + [r]) <==> AllReached(before) && r.listed.Some? && Reached(r.got)
  {
    var rounds := before + [r];
    assert rounds[|before|] == r && forall i | 0 <= i < |before| :: rounds[i] == before[i];
  }

  lemma FirstRound(before: seq<Round>, r: Round)
    ensures (before + [r])[0] == if before == [] then r else before[0]
  {
  }

  /** A listed resource of a known type had gone before it was fetched. */
  ghost predicate Vanished(r: Round) {
    r.listed.Some? && r.got != [] && r.got[|r.got| - 1].answer.Absent?
  }

  /** If the Engine answers everything, this is the only way for a retrieval to fail. */
  lemma OnlyVanished(r: Round)
    requires Surveyed(r) && r.listed.Some? && Reached(r.got)
    ensures r.check == Some(RetrieveFailed) <==> Vanished(r)
  {
    if r.check == Some(RetrieveFailed) {
      var l :| l in r.got && !l.answer.Found?;
      var i :| 0 <= i < |r.got| && r.got[i] == l;
      assert i == |r.got| - 1;
    } else if r.got != [] {
      assert r.got[|r.got| - 1] in r.got;
    }
  }

  lemma RetrievalDecides(cfg: Config, r: Round)
    requires Faithful(cfg, r)
    ensures Surveyed(r)
    ensures r.check == Some(RetrieveFailed) <==> !Succeeds(r.listed, r.got)
    ensures r.check == Some(RetrieveFailed) <==> r.verdict == Some(Aborted(RetrieveFailed))
    ensures r.check == Some(RetrieveFailed) ==> r.calls == [] && r.toDestroy == []
  {
    hide LooksAt, Depicts, Answered, Resets, ResetAll, Made, LastPass;
  }

  /** A run that ends with a clean check has the intended topology, unless a Backend or Frontend is there twice. */
  lemma CompletedIsExact(cfg: Config, r: Round)
    requires Faithful(cfg, r) && r.verdict == Some(Completed)
    ensures Exact(cfg, r.topology) <==> UniqueParents(r.topology)
  {
    assert Checked(cfg, r) && Finished(r) && LinksFor(cfg, r.topology, r.links);
    hide Faithful, Checked, Exact, UniqueParents, Surveyed;
    SomeMissing(cfg, r);
    if UniqueParents(r.topology) {
      FixpointIffExact(cfg, r.topology, r.links);
    }
    if Exact(cfg, r.topology) {
      ExactUniqueParents(cfg, r.topology);
    }
  }

  /** On the intended topology a round changes nothing, and ends the run. */
  lemma ExactIsLeftAlone(cfg: Config, r: Round)
    requires Faithful(cfg, r) && Exact(cfg, r.topology)
    ensures r.verdict.Some? && forall c | c in r.calls :: c.op.Update?
    ensures r.check.None? ==> r.calls == [] && r.verdict == Some(Completed)
  {
    if r.check.None? {
      ExactUniqueParents(cfg, r.topology);
      FixpointIffExact(cfg, r.topology, r.links);
      SomeMissing(cfg, r);
    }
  }

  // ---- Nobody else is disturbed ----

  lemma RoundOwn(cfg: Config, r: Round)
    requires Faithful(cfg, r)
    ensures Own(r.calls, cfg.lb)
  {
  }

  /** Every call of a run is made for the run's own LoadBalancer and leaves all others as they were. */
  lemma RunOwn(cfg: Config, rounds: seq<Round>, verdict: Verdict)
    requires Chronicle(cfg, rounds, verdict)
    ensures Own(Log(rounds), cfg.lb)
  {
    forall c | c in Log(rounds) ensures c.caller == cfg.lb && Polite(c) {
      var i := LogHas(rounds, c);
      RoundOwn(cfg, rounds[i]);
    }
  }

  // ---- Tagging ----

  /** What follows call `i` of a run that ends with `verdict`, if it creates something. */
  ghost predicate TaggedNext(calls: seq<Call>, i: nat, tag: string, verdict: Option<Verdict>)
    requires i < |calls|
  {
    calls[i].op.Create? ==>
      if calls[i].ok then
        && calls[i].op.made.Some? && i + 1 < |calls| && calls[i + 1].op == Op.AddTag(calls[i].op.made.value, tag)
        && (calls[i + 1].ok || (i + 2 == |calls| && verdict == Some(Aborted(TagFailed))))
      else i + 1 == |calls| && verdict == Some(Aborted(CreateFailed))
  }

  lemma MadeTagged(calls: seq<Call>, specs: seq<Spec>, created: seq<Object>, err: Option<Error>, me: Id, tag: string,
                   i: nat)
    requires Made(calls, specs, created, err, me, tag) && i < |calls|
    ensures TaggedNext(calls, i, tag, if err.None? then None else Some(Aborted(err.value)))
  {
    hide Own, AllCreates;
    var k := i / 2;
    assert i == 2 * k || i == 2 * k + 1;
    if k >= |created| {
      var tail := calls[2 * |created|..];
      assert calls[i] == tail[i - 2 * |created|];
      assert |tail| == 2 ==> calls[2 * |created| + 1] == tail[1];
    }
  }

  lemma RoundTagged(cfg: Config, r: Round, j: nat)
    requires Faithful(cfg, r) && j < |r.calls|
    ensures TaggedNext(r.calls, j, cfg.tag, r.verdict)
  {
    assert Recovered(cfg, r) || Waited(cfg, r) || Dismantled(cfg, r) || Built(cfg, r) || Finished(r);
    assert r.calls[j] in r.calls;
    hide Checked, Faithful, Made;
    if Built(cfg, r) {
      MadeTagged(r.calls, r.toCreate, r.created, CreationError(r.verdict), cfg.lb, cfg.tag, j);
    }
  }

  /** Where call `i` of a run was made. */
  lemma {:induction false} Locate(rounds: seq<Round>, i: nat) returns (k: nat, j: nat)
    requires i < |Log(rounds)|
    ensures k < |rounds| && j < |rounds[k].calls| && i == |Log(rounds[..k])| + j
    ensures Log(rounds)[i] == rounds[k].calls[j]
    ensures j + 1 < |rounds[k].calls| ==> i + 1 < |Log(rounds)| && Log(rounds)[i + 1] == rounds[k].calls[j + 1]
    ensures k == |rounds| - 1 ==> |Log(rounds)| == |Log(rounds[..k])| + |rounds[k].calls|
  {
    var n := |rounds| - 1;
    var before := Log(rounds[..n]);
    if i >= |before| {
      k, j := n, i - |before|;
    } else {
      k, j := Locate(rounds[..n], i);
      assert rounds[..n][..k] == rounds[..k];
    }
  }

  /**
    * Whatever a run creates with success it tags in the very next call, with success,
    * unless that call is the last of the run, which then ends with this error; a Create
    * without success is the last call of a run that ends with that error. So a run leaves
    * at most one thing behind that it knows of and has not tagged.
    */
  lemma CreatedIsTagged(cfg: Config, rounds: seq<Round>, verdict: Verdict, i: nat)
    requires Chronicle(cfg, rounds, verdict) && i < |Log(rounds)|
    ensures TaggedNext(Log(rounds), i, cfg.tag, Some(verdict))
  {
    var k, j := Locate(rounds, i);
    RoundTagged(cfg, rounds[k], j);
    assert rounds[k].verdict.Some? ==> k == |rounds| - 1;
  }

  // ---- Recovery ----

  lemma RoundUpdates(cfg: Config, r: Round, c: Call)
    requires Faithful(cfg, r) && c in r.calls && c.op.Update?
    ensures Recovered(cfg, r)
  {
  }

  /**
    * Failed objects are reset at the very end of a run only: the round that does it
    * makes no other call, the run ends with it, and it ends with an error.
    */
  lemma RecoveryComesLast(cfg: Config, rounds: seq<Round>, verdict: Verdict, c: Call)
    requires Chronicle(cfg, rounds, verdict)
    requires c in Log(rounds) && c.op.Update?
    ensures rounds != [] && c in rounds[|rounds| - 1].calls
    ensures forall d | d in rounds[|rounds| - 1].calls :: d.op.Update?
    ensures verdict == Aborted(RecoveryPending) || verdict == Aborted(UpdateFailed)
  {
    var i := LogHas(rounds, c);
    RoundUpdates(cfg, rounds[i], c);
  }

  /** No object is reset twice in a run. */
  lemma RecoveredOnce(cfg: Config, rounds: seq<Round>, verdict: Verdict, i: nat, j: nat, k: nat, m: nat)
    requires Chronicle(cfg, rounds, verdict)
    requires i < |rounds| && j < |rounds[i].calls| && rounds[i].calls[j].op.Update?
    requires k < |rounds| && m < |rounds[k].calls| && rounds[k].calls[m].op == rounds[i].calls[j].op
    ensures i == k && j == m
  {
    RoundUpdates(cfg, rounds[i], rounds[i].calls[j]);
    RoundUpdates(cfg, rounds[k], rounds[k].calls[m]);
  }

  /** A round that saw an object that was not ready creates nothing and destroys nothing, and ends the run. */
  lemma UnhealthyIsLeftAlone(cfg: Config, rounds: seq<Round>, verdict: Verdict, i: nat, o: Object)
    requires Chronicle(cfg, rounds, verdict) && i < |rounds|
    requires rounds[i].check != Some(RetrieveFailed)
    requires o in rounds[i].seen && !IsReady(o.state)
    ensures forall c | c in rounds[i].calls :: c.op.Update?
    ensures i == |rounds| - 1 && verdict != Completed
  {
    hide Faithful;
    SelectIs(rounds[i].seen, ConditionOf(o.state));
    FaultyRound(cfg, rounds[i], o);
  }

  lemma FaultyRound(cfg: Config, r: Round, o: Object)
    requires Faithful(cfg, r) && r.check != Some(RetrieveFailed)
    requires o in r.seen && o in Select(r.seen, ConditionOf(o.state)) && !IsReady(o.state)
    ensures r.check.Some? && r.verdict.Some? && r.verdict != Some(Completed) && forall c | c in r.calls :: c.op.Update?
  {
    assert ExitFor(r.seen, r.check);
    assert r.check.Some?;
  }

  // ---- The gauges ----

  /** What a run adds to the gauge of pending creations while it counts down from there. */
  ghost function ToCreate(rounds: seq<Round>): (n: nat) {
    if rounds == [] then 0
    else ToCreate(rounds[..|rounds| - 1]) + Wishes(rounds[|rounds| - 1])
  }

  ghost function Wishes(r: Round): (n: nat) {
    if r.toDestroy == [] then |r.toCreate| else 0
  }

  ghost function ToDestroy(rounds: seq<Round>): (n: nat) {
    if rounds == [] then 0 else ToDestroy(rounds[..|rounds| - 1]) + |rounds[|rounds| - 1].toDestroy|
  }

  lemma GaugesAppend(rounds: seq<Round>, r: Round)
    ensures ToCreate(rounds + [r]) == ToCreate(rounds) + Wishes(r)
    ensures ToDestroy(rounds + [r]) == ToDestroy(rounds) + |r.toDestroy|
    ensures Attempts(Log(rounds + [r])) == Attempts(Log(rounds)) + Attempts(r.calls)
    ensures Creations(Log(rounds + [r])) == Creations(Log(rounds)) + Creations(r.calls)
  {
    assert (rounds + [r])[..|rounds|] == rounds;
    TallyJoin(Log(rounds), r.calls, {Gone, NotFound, Engines.Refused});
    CreationsJoin(Log(rounds), r.calls);
  }

  /** The Engine's records of calls and Gets, and the two gauges. */
  datatype Ledger = Ledger(log: seq<Call>, looks: seq<Look>, pendingCreate: int, pendingDestroy: int)

  /** What these rounds add to the records, and to the gauges less what they take off. */
  ghost predicate Booked(rounds: seq<Round>, l0: Ledger, l: Ledger) {
    && l.log == l0.log + Log(rounds) && l.looks == l0.looks + Looks(rounds)
    && l.pendingCreate == l0.pendingCreate + ToCreate(rounds) - Creations(Log(rounds))
    && l.pendingDestroy == l0.pendingDestroy + ToDestroy(rounds) - Attempts(Log(rounds))
  }

  lemma NothingBooked(l: Ledger)
    ensures Booked([], l, l)
  {
  }

  lemma BookedMore(before: seq<Round>, r: Round, l0: Ledger, l: Ledger, l': Ledger)
    requires Booked(before, l0, l) && l'.log == l.log + r.calls && l'.looks == l.looks + r.got + r.waits
    requires l'.pendingCreate == l.pendingCreate + Wishes(r) - Creations(r.calls)
    requires l'.pendingDestroy == l.pendingDestroy + |r.toDestroy| - Attempts(r.calls)
    ensures Booked(before + [r], l0, l')
  {
    hide Attempts, Creations, ToCreate, ToDestroy, Wishes;
    GaugesAppend(before, r);
    LogAppend(before, r);
    LooksAppend(before, r);
  }

  ghost predicate AllOk(calls: seq<Call>) {
    forall c | c in calls :: c.ok && (c.op.Destroy? ==> Succeeded(c.op.answer))
  }

  ghost predicate Unlimited(calls: seq<Call>) {
    forall c | c in calls :: c.op.Destroy? ==> !c.op.answer.RateLimited?
  }

  lemma {:induction false} CountsOfOthers(calls: seq<Call>)
    ensures (forall c | c in calls :: !c.op.Create?) ==> Creations(calls) == 0
    ensures (forall c | c in calls :: !c.op.Destroy?) ==> Attempts(calls) == 0 && Failures(calls) == 0
    ensures AllOk(calls) ==> Failures(calls) == 0
  {
    if calls != [] {
      CountsOfOthers(calls[..|calls| - 1]);
    }
  }

  /** A round that does not end with an error and hits no rate limit. */
  ghost predicate Smooth(cfg: Config, r: Round) {
    Faithful(cfg, r) && Unlimited(r.calls) && r.verdict in {None, Some(Completed), Some(Unchecked)}
  }

  /**
    * A round that does not end with an error and hits no rate limit counts each of its
    * objects once, and each refusal once more.
    */
  lemma RoundBalanced(cfg: Config, r: Round)
    requires Smooth(cfg, r)
    ensures Creations(r.calls) == Wishes(r) && Attempts(r.calls) == |r.toDestroy| + Failures(r.calls)
  {
    hide Smooth, Faithful, Unlimited, Dismantled, Built;
    SmoothIs(cfg, r);
    KindOfRound(cfg, r);
    if Dismantled(cfg, r) {
      DismantledBalanced(cfg, r);
    } else if Built(cfg, r) {
      BuiltBalanced(cfg, r);
    } else {
      CountsOfOthers(r.calls);
    }
  }

  lemma SmoothIs(cfg: Config, r: Round)
    requires Smooth(cfg, r)
    ensures Faithful(cfg, r) && Unlimited(r.calls) && CreationError(r.verdict).None?
    ensures r.verdict.None? || r.verdict == Some(Completed) || r.verdict == Some(Unchecked)
  {
    hide Faithful, Unlimited;
  }

  /** A round destroys, or it creates, or it has nothing on its lists and does neither. */
  lemma KindOfRound(cfg: Config, r: Round)
    requires Faithful(cfg, r)
    ensures || Dismantled(cfg, r) || Built(cfg, r)
            || (r.toCreate == [] && r.toDestroy == [] && forall c | c in r.calls :: c.op.Update?)
    ensures Dismantled(cfg, r) ==> r.verdict.None? || r.verdict.value.Aborted? || r.verdict.value.Running?
    ensures Dismantled(cfg, r) ==> r.toDestroy != []
    ensures Built(cfg, r) ==> r.toDestroy == []
  {
  }

  lemma BuiltBalanced(cfg: Config, r: Round)
    requires Built(cfg, r) && CreationError(r.verdict).None?
    ensures Creations(r.calls) == |r.toCreate| && Attempts(r.calls) == 0 && Failures(r.calls) == 0
  {
    hide Own, Awaited;
    MadeCounts(r.calls, r.toCreate, r.created, cfg.lb, cfg.tag);
  }

  lemma DismantledBalanced(cfg: Config, r: Round)
    requires Dismantled(cfg, r) && Unlimited(r.calls) && r.verdict.None?
    ensures Creations(r.calls) == 0 && Attempts(r.calls) == |r.toDestroy| + Failures(r.calls)
  {
    hide Own, LinksFor;
    CountsOfOthers(r.calls);
    NotLimited(r.calls, r.pass);
  }

  lemma NotLimited(calls: seq<Call>, pass: seq<Call>)
    requires LastPass(calls, pass) && Unlimited(calls)
    ensures !Limited(pass)
  {
    if pass != [] {
      assert pass[|pass| - 1] == calls[|calls| - 1];
      assert calls[|calls| - 1] in calls;
    }
  }

  lemma MadeCounts(calls: seq<Call>, specs: seq<Spec>, created: seq<Object>, me: Id, tag: string)
    requires Made(calls, specs, created, None, me, tag)
    ensures Creations(calls) == |created| && Attempts(calls) == 0 && Failures(calls) == 0
  {
    CountsOfOthers(calls);
  }

  lemma {:induction false} RoundsBalanced(cfg: Config, rounds: seq<Round>)
    requires forall i | 0 <= i < |rounds| :: Smooth(cfg, rounds[i])
    ensures Creations(Log(rounds)) == ToCreate(rounds)
    ensures Attempts(Log(rounds)) == ToDestroy(rounds) + Failures(Log(rounds))
  {
    hide Smooth;
    if rounds != [] {
      var rest, last := rounds[..|rounds| - 1], rounds[|rounds| - 1];
      RoundsBalanced(cfg, rest);
      assert rounds == rest + [last];
      GaugesAppend(rest, last);
      TallyJoin(Log(rest), last.calls, {Engines.Refused});
      RoundBalanced(cfg, last);
    }
  }

  lemma {:induction false} LogCovers(rounds: seq<Round>, i: nat, c: Call)
    requires i < |rounds| && c in rounds[i].calls
    ensures c in Log(rounds)
  {
    if i < |rounds| - 1 {
      LogCovers(rounds[..|rounds| - 1], i, c);
    }
  }

  /**
    * After a run that returns nil and hit no rate limit the gauge of creations is back
    * where it was, and that of destructions is too low by the number of refusals; so it
    * is back exactly if nothing was refused.
    */
  lemma GaugesReturn(cfg: Config, rounds: seq<Round>, verdict: Verdict)
    requires Chronicle(cfg, rounds, verdict) && (verdict == Completed || verdict == Unchecked)
    requires Unlimited(Log(rounds))
    ensures Creations(Log(rounds)) == ToCreate(rounds)
    ensures Attempts(Log(rounds)) == ToDestroy(rounds) + Failures(Log(rounds))
    ensures AllOk(Log(rounds)) ==> Attempts(Log(rounds)) == ToDestroy(rounds)
  {
    forall i | 0 <= i < |rounds| ensures Smooth(cfg, rounds[i]) {
      forall c | c in rounds[i].calls ensures c in Log(rounds) {
        LogCovers(rounds, i, c);
      }
    }
    RoundsBalanced(cfg, rounds);
    CountsOfOthers(Log(rounds));
  }
}
