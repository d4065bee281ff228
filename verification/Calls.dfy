/** What can be said of the changing calls a reconciliation has made, whatever the Engine answered. */
module Calls {
  import opened Common
  import opened Resources
  import opened Engines
  import opened Creating

  datatype Error =
    | RetrieveFailed
    | UpdateFailed
    | RecoveryPending
    | ResourcesProgressing
    | ResourceFailed
    | WaitTimeout
    | NotDestroyable
    | CreateFailed
    | TagFailed

  /** `calls` are Updates by `me` of the first of these objects, in order; only the last can have failed. */
  ghost predicate Resets(calls: seq<Call>, me: Id, os: seq<Object>) {
    && |calls| <= |os|
    && forall i | 0 <= i < |calls| ::
         && calls[i].op == Op.Update(os[i].id) && calls[i].caller == me && Polite(calls[i])
         && (i < |calls| - 1 ==> calls[i].ok)
  }

  /** All of the objects were reset, or the last call that was made failed. */
  ghost predicate ResetAll(calls: seq<Call>, os: seq<Object>, ok: bool) {
    if ok then |calls| == |os| && (calls != [] ==> calls[|calls| - 1].ok)
    else calls != [] && !calls[|calls| - 1].ok
  }

  /** `calls` are Destroys by `me` of the first of these objects, in order; a rate limit can only be the last answer. */
  ghost predicate Destroys(calls: seq<Call>, me: Id, os: seq<Object>) {
    && |calls| <= |os|
    && forall i | 0 <= i < |calls| ::
         && calls[i].op.Destroy? && calls[i].op.id == os[i].id && calls[i].caller == me && Polite(calls[i])
         && (i < |calls| - 1 ==> !calls[i].op.answer.RateLimited?)
  }

  /** Calls of `me` that left everybody else's resources alone. */
  ghost predicate Own(calls: seq<Call>, me: Id) {
    forall c | c in calls :: c.caller == me && Polite(c)
  }

  ghost predicate DestroysOf(calls: seq<Call>, ids: seq<Id>) {
    forall c | c in calls :: c.op.Destroy? && c.op.id in ids
  }

  /** Each of the first objects was created and then tagged, with success, in that order. */
  ghost predicate CreatedAndTagged(calls: seq<Call>, created: seq<Object>, tag: string) {
    && 2 * |created| <= |calls| <= 2 * |created| + 2
    && forall i | 0 <= i < |created| ::
         && calls[2 * i].op == Op.Create(created[i].spec, Some(created[i].id)) && calls[2 * i].ok
         && calls[2 * i + 1].op == Op.AddTag(created[i].id, tag) && calls[2 * i + 1].ok
  }

  /** The calls about an object that could not be created, or not be tagged. */
  ghost predicate GaveUp(calls: seq<Call>, spec: Spec, tag: string, err: Error) {
    || (err == CreateFailed && |calls| == 1 && calls[0].op == Op.Create(spec, None) && !calls[0].ok)
    || (err == TagFailed && |calls| == 2
        && calls[0].op.Create? && calls[0].op.spec == spec && calls[0].op.made.Some? && calls[0].ok
        && calls[1].op == Op.AddTag(calls[0].op.made.value, tag) && !calls[1].ok)
  }

  lemma OwnJoin(a: seq<Call>, b: seq<Call>, me: Id)
    requires Own(a, me) && Own(b, me)
    ensures Own(a + b, me)
  {
  }

  ghost predicate AllCreates(calls: seq<Call>) {
    forall c | c in calls :: c.op.Create? || c.op.AddTag?
  }

  /** How many objects have been tried to create. */
  ghost function Creations(calls: seq<Call>): (n: nat) {
    if calls == [] then 0
    else Creations(calls[..|calls| - 1]) + if calls[|calls| - 1].op.Create? then 1 else 0
  }

  lemma CreationsAppend(calls: seq<Call>, c: Call)
    ensures Creations(calls + [c]) == Creations(calls) + if c.op.Create? then 1 else 0
  {
    assert (calls + [c])[..|calls|] == calls;
  }

  lemma {:induction false} CreationsJoin(a: seq<Call>, b: seq<Call>)
    ensures Creations(a + b) == Creations(a) + Creations(b)
  {
    if b == [] {
      assert a + b == a;
    } else {
      assert a + b == (a + b[..|b| - 1]) + [b[|b| - 1]];
      CreationsAppend(a + b[..|b| - 1], b[|b| - 1]);
      CreationsJoin(a, b[..|b| - 1]);
    }
  }

  /** The last of these calls hit the rate limit. */
  ghost predicate Limited(calls: seq<Call>) {
    calls != [] && calls[|calls| - 1].op.Destroy? && calls[|calls| - 1].op.answer.RateLimited?
  }

  /** `pass` is what the calls end with. */
  ghost predicate LastPass(calls: seq<Call>, pass: seq<Call>) {
    |pass| <= |calls| && calls[|calls| - |pass|..] == pass
  }

  lemma LastPassJoins(done: seq<Call>, pass: seq<Call>)
    ensures LastPass(done + pass, pass) && (pass != [] ==> (Limited(done + pass) <==> Limited(pass)))
  {
  }

  /**
    * The calls of a creating loop that has dealt with the first of `specs`, or that has
    * given up at the next object.
    */
  ghost predicate Made(calls: seq<Call>, specs: seq<Spec>, created: seq<Object>, err: Option<Error>, me: Id,
                       tag: string) {
    && SpecsOf(created, specs) && CreatedAndTagged(calls, created, tag)
    && (err.None? ==> |calls| == 2 * |created|)
    && (err.Some? ==> |created| < |specs| && GaveUp(calls[2 * |created|..], specs[|created|], tag, err.value))
    && Creations(calls) == |created| + (if err.Some? then 1 else 0)
    && Own(calls, me) && AllCreates(calls)
  }

  /** The calls about one object. */
  ghost predicate Pair(calls: seq<Call>, spec: Spec, o: Option<Object>, err: Option<Error>, me: Id, tag: string) {
    && Own(calls, me) && (o.Some? <==> err.None?)
    && (o.Some? ==>
          && o.value.spec == spec && |calls| == 2 && calls[0].op == Op.Create(spec, Some(o.value.id)) && calls[0].ok
          && calls[1].op == Op.AddTag(o.value.id, tag) && calls[1].ok)
    && (err.Some? ==> GaveUp(calls, spec, tag, err.value))
  }

  lemma PairNotCreated(c: Call, spec: Spec, me: Id, tag: string)
    requires c.op == Op.Create(spec, None) && c.caller == me && !c.ok && Polite(c)
    ensures Pair([c], spec, None, Some(CreateFailed), me, tag)
  {
    hide Polite;
  }

  lemma PairCreated(c: Call, c': Call, spec: Spec, o: Object, me: Id, tag: string)
    requires c.op == Op.Create(spec, Some(o.id)) && c.caller == me && c.ok && Polite(c) && o.spec == spec
    requires c'.op == Op.AddTag(o.id, tag) && c'.caller == me && Polite(c')
    ensures c'.ok ==> Pair([c, c'], spec, Some(o), None, me, tag)
    ensures !c'.ok ==> Pair([c, c'], spec, None, Some(TagFailed), me, tag)
  {
    hide Polite;
  }

  ghost predicate CreateFirst(calls: seq<Call>) {
    1 <= |calls| <= 2 && calls[0].op.Create? && (|calls| == 2 ==> calls[1].op.AddTag?)
  }

  lemma CreationsOfOne(calls: seq<Call>)
    requires CreateFirst(calls)
    ensures Creations(calls) == 1 && AllCreates(calls)
  {
    CreationsAppend([], calls[0]);
    if |calls| == 1 {
      assert calls == [] + [calls[0]];
    } else {
      CreationsAppend([] + [calls[0]], calls[1]);
      assert calls == [] + [calls[0]] + [calls[1]];
    }
  }

  lemma PairCounts(calls: seq<Call>, more: seq<Call>, spec: Spec, o: Option<Object>, err: Option<Error>, me: Id,
                   tag: string)
    requires Pair(more, spec, o, err, me, tag)
    ensures Creations(calls + more) == Creations(calls) + 1 && AllCreates(more)
  {
    hide Own, Creations, AllCreates;
    assert CreateFirst(more);
    CreationsJoin(calls, more);
    CreationsOfOne(more);
  }

  lemma PairAppends(calls: seq<Call>, created: seq<Object>, more: seq<Call>, o: Object, tag: string)
    requires CreatedAndTagged(calls, created, tag) && |calls| == 2 * |created|
    requires |more| == 2 && more[0].op == Op.Create(o.spec, Some(o.id)) && more[0].ok
    requires more[1].op == Op.AddTag(o.id, tag) && more[1].ok
    ensures CreatedAndTagged(calls + more, created + [o], tag)
  {
    var all, os := calls + more, created + [o];
    forall i | 0 <= i < |os|
      ensures all[2 * i].op == Op.Create(os[i].spec, Some(os[i].id)) && all[2 * i].ok
              && all[2 * i + 1].op == Op.AddTag(os[i].id, tag) && all[2 * i + 1].ok
    {
      if i < |created| {
        assert all[2 * i] == calls[2 * i] && all[2 * i + 1] == calls[2 * i + 1];
      }
    }
  }

  lemma PairGaveUp(calls: seq<Call>, created: seq<Object>, more: seq<Call>, spec: Spec, tag: string, err: Error)
    requires CreatedAndTagged(calls, created, tag) && |calls| == 2 * |created| && GaveUp(more, spec, tag, err)
    ensures CreatedAndTagged(calls + more, created, tag) && GaveUp((calls + more)[2 * |created|..], spec, tag, err)
  {
    assert (calls + more)[2 * |created|..] == more;
  }

  /** One more object was created and tagged, or this is where the loop gave up. */
  lemma MadeOneMore(calls: seq<Call>, specs: seq<Spec>, created: seq<Object>, me: Id, tag: string, more: seq<Call>,
                    o: Option<Object>, err: Option<Error>)
    requires Made(calls, specs, created, None, me, tag) && |created| < |specs|
    requires Pair(more, specs[|created|], o, err, me, tag)
    ensures Made(calls + more, specs, if o.Some? then created + [o.value] else created, err, me, tag)
  {
    hide Polite, Creations, SpecsOf;
    PairCounts(calls, more, specs[|created|], o, err, me, tag);
    OwnJoin(calls, more, me);
    assert AllCreates(calls + more);
    hide CreatedAndTagged, SpecsOf, Own, AllCreates;
    if o.Some? {
      PairAppends(calls, created, more, o.value, tag);
      SpecsOneMore(created, specs, |created|, o.value);
    } else {
      PairGaveUp(calls, created, more, specs[|created|], tag, err.value);
    }
  }

  ghost function Ids(os: seq<Object>): (ids: seq<Id>) {
    seq(|os|, i requires 0 <= i < |os| => os[i].id)
  }

  lemma IdsStep(os: seq<Object>, i: nat)
    requires i < |os|
    ensures Ids(os[..i + 1]) == Ids(os[..i]) + [os[i].id]
  {
  }

  lemma IdsAppend(os: seq<Object>, o: Object)
    ensures Ids(os + [o]) == Ids(os) + [o.id]
  {
  }

  lemma OnlyLostSome(e0: Resources.Estate, e: Resources.Estate, e': Resources.Estate, os: seq<Object>, all: seq<Object>)
    requires OnlyLost(e0, e, Ids(all)) && OnlyLost(e, e', Ids(os)) && forall o | o in os :: o in all
    ensures OnlyLost(e0, e', Ids(all))
  {
    forall id | id in Ids(os) ensures id in Ids(all) {
      var i :| 0 <= i < |os| && os[i].id == id;
      assert os[i] in all;
      var j :| 0 <= j < |all| && all[j] == os[i];
      assert Ids(all)[j] == id;
    }
  }

  /** The resource was destroyed by one of these calls, or was gone already. */
  ghost predicate Razed(calls: seq<Call>, id: Id) {
    exists c :: c in calls && c.op.Destroy? && c.op.id == id && Succeeded(c.op.answer)
  }

  /** All of these but the ones to do are gone. */
  ghost predicate Cleared(calls: seq<Call>, all: seq<Object>, todo: seq<Object>) {
    forall o | o in all && o !in todo :: Razed(calls, o.id)
  }

  /** None of these Destroys was answered with a rate limit, and `kept` are the refused objects. */
  ghost predicate Attempted(calls: seq<Call>, me: Id, os: seq<Object>, kept: seq<Object>) {
    && Destroys(calls, me, os)
    && (forall k | 0 <= k < |calls| :: !calls[k].op.answer.RateLimited?)
    && Failures(calls) == |kept|
    && (forall o | o in kept :: o in os)
    && (forall k | 0 <= k < |calls| :: os[k] in kept || Succeeded(calls[k].op.answer))
  }

  /** After a whole pass, what is not kept is gone. */
  lemma AttemptedClears(calls: seq<Call>, me: Id, os: seq<Object>, kept: seq<Object>)
    requires Attempted(calls, me, os, kept) && |calls| == |os|
    ensures Cleared(calls, os, kept)
  {
    forall o | o in os && o !in kept ensures Razed(calls, o.id) {
      var k :| 0 <= k < |os| && os[k] == o;
      assert calls[k] in calls;
    }
  }

  lemma ClearedJoins(done: seq<Call>, all: seq<Object>, todo: seq<Object>, calls: seq<Call>, kept: seq<Object>)
    requires Cleared(done, all, todo) && Cleared(calls, todo, kept)
    ensures Cleared(done + calls, all, kept)
  {
    forall o | o in all && o !in kept ensures Razed(done + calls, o.id) {
      if o in todo {
        var c :| c in calls && c.op.Destroy? && c.op.id == o.id && Succeeded(c.op.answer);
        assert c in done + calls;
      } else {
        var c :| c in done && c.op.Destroy? && c.op.id == o.id && Succeeded(c.op.answer);
        assert c in done + calls;
      }
    }
  }

  lemma DestroysOwn(calls: seq<Call>, me: Id, os: seq<Object>, all: seq<Object>)
    requires Destroys(calls, me, os) && forall o | o in os :: o in all
    ensures Own(calls, me) && DestroysOf(calls, Ids(all))
  {
    forall o | o in os ensures o.id in Ids(all) {
      var j :| 0 <= j < |all| && all[j] == o;
      assert Ids(all)[j] == o.id;
    }
  }

  lemma AttemptedOneMore(calls: seq<Call>, me: Id, os: seq<Object>, kept: seq<Object>, c: Call)
    requires Attempted(calls, me, os, kept) && |calls| < |os|
    requires c.op.Destroy? && c.op.id == os[|calls|].id && c.caller == me && Polite(c)
    ensures Destroys(calls + [c], me, os)
    ensures !c.op.answer.RateLimited? ==>
              Attempted(calls + [c], me, os, if c.op.answer.Refused? then kept + [os[|calls|]] else kept)
  {
    TallyAppend(calls, c, {Refused});
  }

  lemma NoTally(answers: set<Destruction>)
    ensures Tally([], answers) == 0
  {
  }

  /** All calls of a pass count as attempts, except one that hit the rate limit. */
  lemma {:induction false} DestroysAttempts(calls: seq<Call>, me: Id, os: seq<Object>)
    requires Destroys(calls, me, os)
    ensures Attempts(calls) == |calls| - if calls != [] && calls[|calls| - 1].op.answer.RateLimited? then 1 else 0
  {
    hide Polite, Tally;
    if calls == [] {
      NoTally({Gone, NotFound, Refused});
    } else {
      var rest, last := calls[..|calls| - 1], calls[|calls| - 1];
      assert rest + [last] == calls;
      DestroysAttempts(rest, me, os);
      TallyAppend(rest, last, {Gone, NotFound, Refused});
    }
  }

  lemma AttemptedAll(calls: seq<Call>, me: Id, os: seq<Object>, kept: seq<Object>)
    requires Attempted(calls, me, os, kept)
    ensures Attempts(calls) == |calls|
  {
    DestroysAttempts(calls, me, os);
  }

  /** The calls of complete passes over `all` that leave `todo`. */
  ghost predicate Demolished(calls: seq<Call>, me: Id, all: seq<Object>, todo: seq<Object>) {
    && Own(calls, me) && DestroysOf(calls, Ids(all))
    && Attempts(calls) + |todo| == |all| + Failures(calls)
    && Cleared(calls, all, todo)
  }

  lemma DemolishedMore(done: seq<Call>, me: Id, all: seq<Object>, todo: seq<Object>, calls: seq<Call>,
                       kept: seq<Object>)
    requires Demolished(done, me, all, todo) && Attempted(calls, me, todo, kept) && |calls| == |todo|
    requires forall o | o in todo :: o in all
    ensures Demolished(done + calls, me, all, kept)
  {
    AttemptedAll(calls, me, todo, kept);
    AttemptedClears(calls, me, todo, kept);
    ClearedJoins(done, all, todo, calls, kept);
    hide Cleared;
    DestroysOwn(calls, me, todo, all);
    TallyJoin(done, calls, {Gone, NotFound, Refused});
    TallyJoin(done, calls, {Refused});
  }

  /** The calls of one more pass, complete or cut short by the rate limit. */
  lemma PassJoins(done: seq<Call>, me: Id, all: seq<Object>, todo: seq<Object>, pass: seq<Call>, kept: seq<Object>,
                  limited: bool)
    requires Demolished(done, me, all, todo) && Destroys(pass, me, todo) && forall o | o in todo :: o in all
    requires limited ==> Limited(pass)
    requires !limited ==> |pass| == |todo| && Attempted(pass, me, todo, kept)
    ensures Attempts(done + pass) == Attempts(done) + Attempts(pass)
    ensures limited ==> Own(done + pass, me) && DestroysOf(done + pass, Ids(all)) && Limited(done + pass)
    ensures !limited ==> Demolished(done + pass, me, all, kept)
  {
    TallyJoin(done, pass, {Gone, NotFound, Refused});
    DestroysOwn(pass, me, todo, all);
    if !limited {
      DemolishedMore(done, me, all, todo, pass, kept);
    }
  }

  /** The estate has lost nothing but some of these, and nothing in it has changed. */
  ghost predicate OnlyLost(e: Resources.Estate, e': Resources.Estate, doomed: seq<Id>) {
    && (forall id | id in e' :: id in e && e'[id] == e[id])
    && (forall id | id in e && id !in e' :: id in doomed)
  }

  lemma OnlyLostOneMore(e0: Resources.Estate, e: Resources.Estate, e': Resources.Estate, os: seq<Object>, i: nat)
    requires OnlyLost(e0, e, Ids(os)) && i < |os|
    requires e' == e || e' == e - {os[i].id}
    ensures OnlyLost(e0, e', Ids(os))
  {
    assert Ids(os)[i] == os[i].id;
  }
}
