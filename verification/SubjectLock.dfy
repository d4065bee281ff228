/**
  * A lock for each subject, made of one mutex and a map. Any number of threads go
  * through Lock and Unlock; a step is what lies between two points where others
  * can get in between.
  */
module SubjectLock {
  import opened Common

  /**
    * Where a thread is. Lock: Entering waits for the mutex, Inside has it, Read has
    * looked into the map, Marked has written to it, Sleeping has given the mutex
    * back without success. Unlock: Leaving waits for the mutex, Deleting has it,
    * Deleted has written to the map. Holding lies between the two, Idle outside.
    */
  datatype Place =
    | Idle
    | Entering(subject: string)
    | Inside(subject: string)
    | Read(subject: string, locked: nat)
    | Marked(subject: string)
    | Sleeping(subject: string)
    | Holding(subject: string)
    | Leaving(subject: string)
    | Deleting(subject: string)
    | Deleted(subject: string)

  datatype State = State(threads: seq<Place>, mutex: Option<nat>, locks: map<string, nat>)

  function Initial(n: nat): (s: State) {
    State(seq(n, i => Idle), None, map[])
  }

  function At(s: State, t: nat, p: Place): (s': State)
    requires t < |s.threads|
  {
    s.(threads := s.threads[t := p])
  }

  /** Go's map access: zero for what is not there. */
  function Lookup(locks: map<string, nat>, subject: string): (v: nat) {
    if subject in locks then locks[subject] else 0
  }

  /** One step of thread `t`. Only a thread that holds a subject unlocks it. */
  ghost predicate Step(s: State, s': State, t: nat) {
    && t < |s.threads|
    && match s.threads[t]
       case Idle =>
         t < |s'.threads| && s'.threads[t].Entering? && s' == At(s, t, s'.threads[t])
       case Entering(x) =>
         s.mutex.None? && s' == At(s, t, Inside(x)).(mutex := Some(t))
       case Inside(x) =>
         s' == At(s, t, Read(x, Lookup(s.locks, x)))
       case Read(x, locked) =>
         s' == if locked == 0 then At(s, t, Marked(x)).(locks := s.locks[x := 1])
           else At(s, t, Sleeping(x)).(mutex := None)
       case Marked(x) =>
         s' == At(s, t, Holding(x)).(mutex := None)
       case Sleeping(x) =>
         s' == At(s, t, Entering(x))
       case Holding(x) =>
         s' == At(s, t, Leaving(x))
       case Leaving(x) =>
         s.mutex.None? && s' == At(s, t, Deleting(x)).(mutex := Some(t))
       case Deleting(x) =>
         s' == At(s, t, Deleted(x)).(locks := s.locks - {x})
       case Deleted(_) =>
         s' == At(s, t, Idle).(mutex := None)
  }

  ghost predicate Run(n: nat, run: seq<State>) {
    && run != [] && run[0] == Initial(n)
    && forall k | 0 < k < |run| :: Moves(run[k - 1], run[k])
  }

  ghost predicate Moves(s: State, s': State) {
    exists t :: Step(s, s', t)
  }

  /** The subject a thread has locked, from writing to the map to deleting from it. */
  function Locked(p: Place): (subject: Option<string>) {
    match p
    case Marked(x) => Some(x)
    case Holding(x) => Some(x)
    case Leaving(x) => Some(x)
    case Deleting(x) => Some(x)
    case _ => None
  }

  predicate HasMutex(p: Place) {
    p.Inside? || p.Read? || p.Marked? || p.Deleting? || p.Deleted?
  }

  ghost predicate Taken(s: State, subject: string) {
    exists t :: 0 <= t < |s.threads| && Locked(s.threads[t]) == Some(subject)
  }

  ghost predicate Inv(s: State) {
    && (forall x :: x in s.locks <==> Taken(s, x))
    && (forall x | x in s.locks :: s.locks[x] == 1)
    && (forall t, u | 0 <= t < |s.threads| && 0 <= u < |s.threads| && Locked(s.threads[t]).Some?
         && Locked(s.threads[t]) == Locked(s.threads[u]) :: t == u)
    && (forall t | 0 <= t < |s.threads| :: HasMutex(s.threads[t]) <==> s.mutex == Some(t))
    && (forall t | 0 <= t < |s.threads| && s.threads[t].Read? ::
         s.threads[t].locked == Lookup(s.locks, s.threads[t].subject))
  }

  /** A step that changes nobody's claims and not the map. */
  lemma QuietStep(s: State, s': State, t: nat, p: Place, mutex: Option<nat>)
    requires Inv(s) && t < |s.threads|
    requires s' == At(s, t, p).(mutex := mutex)
    requires Locked(p) == Locked(s.threads[t])
    requires p.Read? ==> p.locked == Lookup(s.locks, p.subject)
    requires HasMutex(p) <==> mutex == Some(t)
    requires s.mutex == mutex || s.mutex == Some(t) || s.mutex.None?
    requires mutex.None? || mutex == Some(t) || mutex == s.mutex
    ensures Inv(s')
  {
    forall x ensures x in s'.locks <==> Taken(s', x) {
      if Taken(s, x) {
        var u :| 0 <= u < |s.threads| && Locked(s.threads[u]) == Some(x);
        assert Locked(s'.threads[u]) == Some(x);
      }
      if Taken(s', x) {
        var u :| 0 <= u < |s.threads| && Locked(s'.threads[u]) == Some(x);
        assert Locked(s.threads[u]) == Some(x);
      }
    }
  }

  lemma MarkStep(s: State, s': State, t: nat, x: string)
    requires Inv(s) && t < |s.threads| && s.threads[t] == Read(x, 0)
    requires s' == At(s, t, Marked(x)).(locks := s.locks[x := 1])
    ensures Inv(s')
  {
    assert x !in s.locks && !Taken(s, x);
    forall y ensures y in s'.locks <==> Taken(s', y) {
      if Taken(s, y) {
        var u :| 0 <= u < |s.threads| && Locked(s.threads[u]) == Some(y);
        assert Locked(s'.threads[u]) == Some(y);
      }
      if Taken(s', y) {
        var u :| 0 <= u < |s.threads| && Locked(s'.threads[u]) == Some(y);
        assert u == t || Locked(s.threads[u]) == Some(y);
      }
      assert Locked(s'.threads[t]) == Some(x);
    }
  }

  lemma TakenAfterDelete(s: State, s': State, t: nat, x: string, y: string)
    requires Inv(s) && t < |s.threads| && s.threads[t] == Deleting(x)
    requires s' == At(s, t, Deleted(x)).(locks := s.locks - {x})
    ensures y in s'.locks <==> Taken(s', y)
  {
    assert Locked(s.threads[t]) == Some(x);
    if y != x && Taken(s, y) {
      var u :| 0 <= u < |s.threads| && Locked(s.threads[u]) == Some(y);
      assert Locked(s'.threads[u]) == Some(y);
    }
    if Taken(s', y) {
      var u :| 0 <= u < |s.threads| && Locked(s'.threads[u]) == Some(y);
      assert Locked(s.threads[u]) == Some(y) && u != t;
    }
  }

  lemma DeleteStep(s: State, s': State, t: nat, x: string)
    requires Inv(s) && t < |s.threads| && s.threads[t] == Deleting(x)
    requires s' == At(s, t, Deleted(x)).(locks := s.locks - {x})
    ensures Inv(s')
  {
    hide Taken;
    forall y ensures y in s'.locks <==> Taken(s', y) {
      TakenAfterDelete(s, s', t, x, y);
    }
  }

  lemma StepInv(s: State, s': State, t: nat)
    requires Inv(s) && Step(s, s', t)
    ensures Inv(s')
  {
    var p := s.threads[t];
    if p.Read? && p.locked == 0 {
      MarkStep(s, s', t, p.subject);
    } else if p.Deleting? {
      DeleteStep(s, s', t, p.subject);
    } else {
      QuietStep(s, s', t, s'.threads[t], s'.mutex);
    }
  }

  lemma {:induction false} RunInv(n: nat, run: seq<State>, k: nat)
    requires Run(n, run) && k < |run|
    ensures Inv(run[k])
  {
    if k > 0 {
      RunInv(n, run, k - 1);
      assert Moves(run[k - 1], run[k]);
      var t :| Step(run[k - 1], run[k], t);
      StepInv(run[k - 1], run[k], t);
    }
  }

  /** In no run do two threads have the same subject locked at the same time. */
  lemma MutualExclusion(n: nat, run: seq<State>, k: nat, t: nat, u: nat)
    requires Run(n, run) && k < |run| && t < |run[k].threads| && u < |run[k].threads|
    requires Locked(run[k].threads[t]).Some? && Locked(run[k].threads[t]) == Locked(run[k].threads[u])
    ensures t == u
  {
    RunInv(n, run, k);
  }

  /** Whenever the mutex is free, the map marks exactly the subjects that are held, or about to be given back. */
  lemma MapMarksHeld(n: nat, run: seq<State>, k: nat, subject: string)
    requires Run(n, run) && k < |run| && run[k].mutex.None?
    ensures subject in run[k].locks <==> exists t ::
            0 <= t < |run[k].threads| && run[k].threads[t] in {Holding(subject), Leaving(subject)}
  {
    var s := run[k];
    RunInv(n, run, k);
    if Taken(s, subject) {
      var t :| 0 <= t < |s.threads| && Locked(s.threads[t]) == Some(subject);
      assert !HasMutex(s.threads[t]);
      assert s.threads[t] in {Holding(subject), Leaving(subject)};
    }
    if exists t :: 0 <= t < |s.threads| && s.threads[t] in {Holding(subject), Leaving(subject)} {
      var t :| 0 <= t < |s.threads| && s.threads[t] in {Holding(subject), Leaving(subject)};
      assert Locked(s.threads[t]) == Some(subject);
    }
  }

  /** A thread goes to sleep only because another thread has locked the very same subject. */
  lemma OnlyTheSubjectBlocks(n: nat, run: seq<State>, k: nat, t: nat)
    requires Run(n, run) && k < |run| && t < |run[k].threads|
    requires run[k].threads[t].Read? && run[k].threads[t].locked != 0
    ensures exists u ::
              && 0 <= u < |run[k].threads| && u != t
              && Locked(run[k].threads[u]) == Some(run[k].threads[t].subject)
  {
    RunInv(n, run, k);
    var s := run[k];
    assert Taken(s, s.threads[t].subject);
  }

  /**
    * Once a thread finds the mutex free and its subject not locked, four steps of its
    * own lock it, whatever else is locked.
    */
  lemma FreeSubjectIsLocked(n: nat, run: seq<State>, k: nat, t: nat, subject: string) returns (after: seq<State>)
    requires Run(n, run) && k < |run| && t < |run[k].threads|
    requires run[k].threads[t] == Entering(subject) && run[k].mutex.None?
    requires !Taken(run[k], subject)
    ensures |after| == 5 && after[0] == run[k] && StepsOf(after, t)
    ensures after[4] == At(run[k], t, Holding(subject)).(locks := run[k].locks[subject := 1])
  {
    RunInv(n, run, k);
    after := LockSteps(run[k], t, subject);
  }

  /** All these steps are steps of `t`. */
  ghost predicate StepsOf(states: seq<State>, t: nat) {
    forall i | 0 < i < |states| :: Step(states[i - 1], states[i], t)
  }

  lemma LockSteps(s: State, t: nat, subject: string) returns (after: seq<State>)
    requires t < |s.threads| && s.threads[t] == Entering(subject) && s.mutex.None? && subject !in s.locks
    ensures |after| == 5 && after[0] == s && StepsOf(after, t)
    ensures after[4] == At(s, t, Holding(subject)).(locks := s.locks[subject := 1])
  {
    var a := At(s, t, Inside(subject)).(mutex := Some(t));
    var b := At(a, t, Read(subject, 0));
    var c := At(b, t, Marked(subject)).(locks := b.locks[subject := 1]);
    var d := At(c, t, Holding(subject)).(mutex := None);
    after := [s, a, b, c, d];
  }

  // ---- What happens without discipline ----

  /** A thread calls Unlock for a subject it does not hold. */
  ghost predicate Intrude(s: State, s': State, t: nat) {
    t < |s.threads| && s.threads[t].Idle? && t < |s'.threads| && s'.threads[t].Leaving? && s' == At(s, t, s'.threads[t])
  }

  lemma IntruderSteps(s: State, u: nat, subject: string) returns (after: seq<State>)
    requires u < |s.threads| && s.threads[u] == Idle && s.mutex.None?
    ensures |after| == 5 && after[0] == s && Intrude(s, after[1], u) && StepsOf(after[1..], u)
    ensures after[4] == s.(locks := s.locks - {subject})
  {
    var a := At(s, u, Leaving(subject));
    var b := At(a, u, Deleting(subject)).(mutex := Some(u));
    var c := At(b, u, Deleted(subject)).(locks := b.locks - {subject});
    var d := At(c, u, Idle).(mutex := None);
    after := [s, a, b, c, d];
    assert after[1..] == [a, b, c, d];
    assert d.threads == s.threads;
  }

  /**
    * Such a call does no harm if and only if nobody has the subject locked; then it
    * leaves everything as it was.
    */
  lemma IntruderHarmlessIff(s: State, u: nat, subject: string) returns (after: seq<State>)
    requires Inv(s) && s.mutex.None? && u < |s.threads| && s.threads[u] == Idle
    ensures |after| == 5 && after[0] == s && Intrude(s, after[1], u) && StepsOf(after[1..], u)
    ensures Inv(after[4]) <==> !Taken(s, subject)
    ensures !Taken(s, subject) ==> after[4] == s
  {
    after := IntruderSteps(s, u, subject);
    if Taken(s, subject) {
      var t :| 0 <= t < |s.threads| && Locked(s.threads[t]) == Some(subject);
      assert Taken(after[4], subject);
    } else {
      assert s.locks - {subject} == s.locks;
    }
  }

  /**
    * One such call is enough: while thread `t` holds a subject, an idle thread `u`
    * unlocks it, and a waiting thread `w` gets to hold it as well.
    */
  lemma OneIntruderBreaksIt(s: State, t: nat, u: nat, w: nat, subject: string)
    returns (first: seq<State>, second: seq<State>)
    requires Inv(s) && s.mutex.None? && t < |s.threads| && u < |s.threads| && w < |s.threads|
    requires s.threads[t] == Holding(subject) && s.threads[u] == Idle && s.threads[w] == Entering(subject)
    ensures |first| == |second| == 5 && first[0] == s && second[0] == first[4]
    ensures Intrude(s, first[1], u) && StepsOf(first[1..], u) && StepsOf(second, w)
    ensures |second[4].threads| == |s.threads|
    ensures second[4].threads[t] == second[4].threads[w] == Holding(subject) && t != w
  {
    first := IntruderSteps(s, u, subject);
    second := LockSteps(first[4], w, subject);
  }

  /** The run of `t` locking a subject, after which `w` begins to lock it too. */
  lemma HeldAndAwaited(n: nat, t: nat, w: nat, subject: string) returns (run: seq<State>)
    requires t < n && w < n && t != w
    ensures Run(n, run)
    ensures var s := run[|run| - 1];
            && s.mutex.None? && |s.threads| == n
            && s.threads[t] == Holding(subject) && s.threads[w] == Entering(subject)
            && forall u | 0 <= u < n && u != t && u != w :: s.threads[u] == Idle
  {
    var start := Initial(n);
    var s := At(start, t, Entering(subject));
    assert Step(start, s, t);
    var after := LockSteps(s, t, subject);
    var end := At(after[4], w, Entering(subject));
    assert Step(after[4], end, w);
    run := [start] + after + [end];
    forall k | 0 < k < |run| ensures Moves(run[k - 1], run[k]) {
      if 1 < k < 6 {
        assert run[k - 1] == after[k - 2] && run[k] == after[k - 1];
        assert Step(after[k - 2], after[k - 1], t);
      }
    }
  }

  /** So it is with any three threads, from the very beginning. */
  lemma ThreeThreadsBreakIt(n: nat, t: nat, u: nat, w: nat, subject: string)
    returns (run: seq<State>, first: seq<State>, second: seq<State>)
    requires t < n && u < n && w < n && t != u && u != w && t != w
    ensures Run(n, run) && |first| == |second| == 5 && first[0] == run[|run| - 1] && second[0] == first[4]
    ensures Intrude(first[0], first[1], u) && StepsOf(first[1..], u) && StepsOf(second, w)
    ensures |second[4].threads| == n && second[4].threads[t] == second[4].threads[w] == Holding(subject)
  {
    run := HeldAndAwaited(n, t, w, subject);
    RunInv(n, run, |run| - 1);
    first, second := OneIntruderBreaksIt(run[|run| - 1], t, u, w, subject);
  }
}
