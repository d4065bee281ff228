/**
  * The fan-out that Reconcile, ReconcileCheck and Status of multirecon share: one
  * goroutine for each reconciliation, a channel with room for all results, a wait
  * group, and a loop over the results once the channel is closed. The steps of the
  * goroutines may come in any order.
  */
module FanOut {
  import opened Common

  /** What one reconciliation comes back with. */
  datatype Result<T> = Result(items: seq<T>, failed: bool)

  datatype Routine = Unborn | Running | Sent | Gone

  /** Where the caller is; the last parameter tells whether it returns without an error. */
  datatype Main = Spawning(next: nat) | Waiting | Closing | Draining | Returned(ok: bool)

  /** The channel holds the numbers of the reconciliations whose results are in it. */
  datatype State<T> = State(
    routines: seq<Routine>,
    channel: seq<nat>,
    closed: bool,
    pending: int,
    main: Main,
    received: seq<nat>,
    collected: seq<T>)

  function Initial<T>(n: nat): (s: State<T>) {
    State(seq(n, i => Unborn), [], false, n, Spawning(0), [], [])
  }

  /** The go statement for the next reconciliation, or the end of the loop of them. */
  ghost predicate Spawn<T(!new)>(s: State<T>, s': State<T>) {
    && s.main.Spawning?
    && if s.main.next < |s.routines|
       then s' == s.(routines := s.routines[s.main.next := Running], main := Spawning(s.main.next + 1))
       else s' == s.(main := Waiting)
  }

  /** Goroutine `i` sends its result; it would block on a full channel and panic on a closed one. */
  ghost predicate Send<T(!new)>(s: State<T>, s': State<T>, i: nat) {
    && i < |s.routines| && s.routines[i].Running?
    && |s.channel| < |s.routines| && !s.closed
    && s' == s.(routines := s.routines[i := Sent], channel := s.channel + [i])
  }

  /** The deferred wg.Done of goroutine `i`. */
  ghost predicate Exit<T(!new)>(s: State<T>, s': State<T>, i: nat) {
    && i < |s.routines| && s.routines[i].Sent?
    && s' == s.(routines := s.routines[i := Gone], pending := s.pending - 1)
  }

  ghost predicate Wait<T(!new)>(s: State<T>, s': State<T>) {
    s.main.Waiting? && s.pending == 0 && s' == s.(main := Closing)
  }

  ghost predicate Close<T(!new)>(s: State<T>, s': State<T>) {
    s.main.Closing? && s' == s.(closed := true, main := Draining)
  }

  /** The loop over the results: return on the first error, and when there are no more. */
  ghost predicate Receive<T(!new)>(results: seq<Result<T>>, s: State<T>, s': State<T>) {
    && s.main.Draining?
    && if s.channel == [] then s' == s.(main := Returned(true))
       else
         var i := s.channel[0];
         && i < |results|
         && var rest := s.(channel := s.channel[1..], received := s.received + [i]);
         s' == if results[i].failed then rest.(main := Returned(false))
               else rest.(collected := s.collected + results[i].items)
  }

  ghost predicate Next<T(!new)>(results: seq<Result<T>>, s: State<T>, s': State<T>) {
    || Spawn(s, s') || Wait(s, s') || Close(s, s') || Receive(results, s, s')
    || (exists i :: Send(s, s', i)) || (exists i :: Exit(s, s', i))
  }

  ghost predicate Run<T(!new)>(results: seq<Result<T>>, run: seq<State<T>>) {
    && run != [] && run[0] == Initial(|results|)
    && forall k | 0 < k < |run| :: Next(results, run[k - 1], run[k])
  }

  // ---- Counting ----

  ghost function Live(rs: seq<Routine>): (n: nat)
    ensures n <= |rs|
  {
    if rs == [] then 0 else Live(rs[..|rs| - 1]) + if rs[|rs| - 1].Gone? then 0 else 1
  }

  lemma {:induction false} LiveUpdate(rs: seq<Routine>, i: nat, r: Routine)
    requires i < |rs| && !rs[i].Gone?
    ensures Live(rs[i := r]) == Live(rs) - if r.Gone? then 1 else 0
  {
    var n := |rs| - 1;
    if i == n {
      assert rs[i := r][..n] == rs[..n];
    } else {
      assert rs[i := r][..n] == rs[..n][i := r];
      LiveUpdate(rs[..n], i, r);
    }
  }

  lemma {:induction false} LiveIsZero(rs: seq<Routine>)
    ensures Live(rs) == 0 <==> forall r | r in rs :: r.Gone?
  {
    if rs != [] {
      assert rs == rs[..|rs| - 1] + [rs[|rs| - 1]];
      LiveIsZero(rs[..|rs| - 1]);
    }
  }

  lemma {:induction false} LiveAll(n: nat)
    ensures Live(seq(n, i => Unborn)) == n
  {
    if n > 0 {
      assert seq(n, i => Unborn)[..n - 1] == seq(n - 1, i => Unborn);
      LiveAll(n - 1);
    }
  }

  lemma Without(s: seq<nat>, i: nat)
    requires NoDup(s) && i < |s|
    ensures var rest := s[..i] + s[i + 1..];
            && NoDup(rest) && |rest| == |s| - 1 && s[i] !in rest
            && forall x :: x in s <==> x in rest || x == s[i]
  {
    var rest := s[..i] + s[i + 1..];
    assert forall k | 0 <= k < |rest| :: rest[k] == if k < i then s[k] else s[k + 1];
    assert s == s[..i] + [s[i]] + s[i + 1..];
  }

  /** A duplicate-free sequence of numbers below `n` has at most `n` elements, and less if one is missing. */
  lemma {:induction false} Pigeons(s: seq<nat>, n: nat)
    requires NoDup(s) && forall x | x in s :: x < n
    ensures |s| <= n
    ensures |s| == n ==> forall x: nat | x < n :: x in s
  {
    if n == 0 {
      EmptyIff(s);
    } else if n - 1 in s {
      var i :| 0 <= i < |s| && s[i] == n - 1;
      Without(s, i);
      hide NoDup;
      Pigeons(s[..i] + s[i + 1..], n - 1);
    } else {
      Pigeons(s, n - 1);
    }
  }

  // ---- The invariant ----

  /** The result of `i` is in the channel, or has been received. */
  ghost predicate Delivered<T(!new)>(s: State<T>, i: nat) {
    i in s.channel || i in s.received
  }

  ghost predicate Accounted<T(!new)>(results: seq<Result<T>>, s: State<T>) {
    && |s.routines| == |results|
    && NoDup(s.channel) && NoDup(s.received) && (forall i | i in s.channel :: i !in s.received)
    && (forall i: nat :: Delivered(s, i) <==> i < |results| && (s.routines[i].Sent? || s.routines[i].Gone?))
    && s.pending == Live(s.routines)
  }

  ghost predicate InPlace<T(!new)>(results: seq<Result<T>>, s: State<T>)
    requires |s.routines| == |results|
  {
    && (s.closed <==> s.main.Draining? || s.main.Returned?)
    && (s.main.Spawning? ==>
          && s.main.next <= |results|
          && forall i | 0 <= i < |results| :: s.routines[i].Unborn? <==> i >= s.main.next)
    && (!s.main.Spawning? ==> forall r | r in s.routines :: !r.Unborn?)
    && (s.main.Closing? || s.closed ==> forall r | r in s.routines :: r.Gone?)
    && (!s.closed ==> s.received == [])
  }

  ghost predicate InRange(order: seq<nat>, n: nat) {
    forall k | 0 <= k < |order| :: order[k] < n
  }

  ghost function Gather<T>(results: seq<Result<T>>, order: seq<nat>): (items: seq<T>)
    requires InRange(order, |results|)
  {
    if order == [] then [] else Gather(results, order[..|order| - 1]) + results[order[|order| - 1]].items
  }

  ghost predicate Collected<T(!new)>(results: seq<Result<T>>, s: State<T>)
    requires InRange(s.received, |results|)
  {
    && (s.main != Returned(false) ==>
          && (forall i | i in s.received :: !results[i].failed)
          && s.collected == Gather(results, s.received))
    && (s.main == Returned(true) ==> s.channel == [])
    && (s.main == Returned(false) ==> exists i :: i in s.received && results[i].failed)
  }

  ghost predicate Inv<T(!new)>(results: seq<Result<T>>, s: State<T>) {
    && Accounted(results, s)
    && InPlace(results, s)
    && InRange(s.received, |results|)
    && Collected(results, s)
  }

  lemma InitialInv<T(!new)>(results: seq<Result<T>>)
    ensures Inv(results, Initial(|results|))
  {
    LiveAll(|results|);
    assert forall k: nat :: !Delivered(Initial<T>(|results|), k);
  }

  lemma SpawnInv<T(!new)>(results: seq<Result<T>>, s: State<T>, s': State<T>)
    requires Inv(results, s) && Spawn(s, s')
    ensures Inv(results, s')
  {
    if s.main.next < |s.routines| {
      LiveUpdate(s.routines, s.main.next, Running);
      forall k: nat ensures Delivered(s', k) <==> k < |results| && (s'.routines[k].Sent? || s'.routines[k].Gone?) {
        assert Delivered(s', k) <==> Delivered(s, k);
      }
    } else {
      assert forall k: nat :: Delivered(s', k) <==> Delivered(s, k);
      forall r | r in s.routines ensures !r.Unborn? {
        var i :| 0 <= i < |s.routines| && s.routines[i] == r;
      }
    }
  }

  lemma SendInv<T(!new)>(results: seq<Result<T>>, s: State<T>, s': State<T>, i: nat)
    requires Inv(results, s) && Send(s, s', i)
    ensures Inv(results, s')
  {
    LiveUpdate(s.routines, i, Sent);
    assert !Delivered(s, i);
    NoDupAppend(s.channel, i);
    forall k: nat ensures Delivered(s', k) <==> k < |results| && (s'.routines[k].Sent? || s'.routines[k].Gone?) {
      assert Delivered(s', k) <==> Delivered(s, k) || k == i;
    }
    assert forall r | r in s'.routines :: r in s.routines || r == Sent;
    assert s.routines[i] in s.routines;
  }

  lemma ExitInv<T(!new)>(results: seq<Result<T>>, s: State<T>, s': State<T>, i: nat)
    requires Inv(results, s) && Exit(s, s', i)
    ensures Inv(results, s')
  {
    LiveUpdate(s.routines, i, Gone);
    forall k: nat ensures Delivered(s', k) <==> k < |results| && (s'.routines[k].Sent? || s'.routines[k].Gone?) {
      assert Delivered(s', k) <==> Delivered(s, k);
    }
    assert forall r | r in s'.routines :: r in s.routines || r == Gone;
    assert s.routines[i] in s.routines;
  }

  lemma WaitInv<T(!new)>(results: seq<Result<T>>, s: State<T>, s': State<T>)
    requires Inv(results, s) && (Wait(s, s') || Close(s, s'))
    ensures Inv(results, s')
  {
    LiveIsZero(s.routines);
    assert forall k: nat :: Delivered(s', k) <==> Delivered(s, k);
  }

  lemma ReceivedAccounted<T(!new)>(results: seq<Result<T>>, s: State<T>, s': State<T>)
    requires Accounted(results, s) && s.channel != []
    requires s'.routines == s.routines && s'.pending == s.pending
    requires s'.channel == s.channel[1..] && s'.received == s.received + [s.channel[0]]
    ensures Accounted(results, s') && s.channel[0] < |results|
  {
    var i := s.channel[0];
    assert s.channel == [i] + s'.channel;
    assert Delivered(s, i);
    NoDupAppend(s.received, i);
    forall k: nat ensures Delivered(s', k) <==> k < |results| && (s'.routines[k].Sent? || s'.routines[k].Gone?) {
      assert Delivered(s', k) <==> Delivered(s, k);
    }
  }

  lemma GatherMore<T>(results: seq<Result<T>>, order: seq<nat>, i: nat)
    requires InRange(order, |results|) && i < |results|
    ensures InRange(order + [i], |results|)
    ensures Gather(results, order + [i]) == Gather(results, order) + results[i].items
  {
    assert (order + [i])[..|order|] == order;
  }

  lemma ReceivedCollected<T(!new)>(results: seq<Result<T>>, s: State<T>, s': State<T>)
    requires InRange(s.received, |results|) && Collected(results, s) && Receive(results, s, s')
    requires s.channel != [] ==> s.channel[0] < |results|
    ensures InRange(s'.received, |results|) && Collected(results, s')
  {
    if s.channel != [] {
      GatherMore(results, s.received, s.channel[0]);
      hide Gather, InRange;
      assert s.channel[0] in s'.received;
    }
  }

  lemma SameAccounted<T(!new)>(results: seq<Result<T>>, s: State<T>, main: Main)
    requires Accounted(results, s)
    ensures Accounted(results, s.(main := main))
  {
    assert forall k: nat :: Delivered(s.(main := main), k) <==> Delivered(s, k);
  }

  lemma ReceiveInv<T(!new)>(results: seq<Result<T>>, s: State<T>, s': State<T>)
    requires Inv(results, s) && Receive(results, s, s')
    ensures Inv(results, s')
  {
    assert |s.routines| == |results|;
    hide Accounted, Collected, InRange;
    if s.channel != [] {
      ReceivedAccounted(results, s, s');
    } else {
      SameAccounted(results, s, s'.main);
    }
    ReceivedCollected(results, s, s');
  }

  lemma NextInv<T(!new)>(results: seq<Result<T>>, s: State<T>, s': State<T>)
    requires Inv(results, s) && Next(results, s, s')
    ensures Inv(results, s')
  {
    if Spawn(s, s') {
      SpawnInv(results, s, s');
    } else if Wait(s, s') || Close(s, s') {
      WaitInv(results, s, s');
    } else if Receive(results, s, s') {
      ReceiveInv(results, s, s');
    } else if exists i :: Send(s, s', i) {
      var i :| Send(s, s', i);
      SendInv(results, s, s', i);
    } else {
      var i :| Exit(s, s', i);
      ExitInv(results, s, s', i);
    }
  }

  lemma {:induction false} RunInv<T(!new)>(results: seq<Result<T>>, run: seq<State<T>>, k: nat)
    requires Run(results, run) && k < |run|
    ensures Inv(results, run[k])
  {
    if k == 0 {
      InitialInv(results);
    } else {
      RunInv(results, run, k - 1);
      NextInv(results, run[k - 1], run[k]);
    }
  }

  // ---- What holds in every run ----

  /**
    * No goroutine ever waits for room in the channel, none sends after it is closed, and
    * the wait group never goes negative.
    */
  lemma SendersNeverBlock<T(!new)>(results: seq<Result<T>>, run: seq<State<T>>, k: nat, i: nat)
    requires Run(results, run) && k < |run|
    requires i < |run[k].routines| && run[k].routines[i].Running?
    ensures |run[k].channel| < |run[k].routines| && !run[k].closed && run[k].pending > 0
  {
    RunInv(results, run, k);
    SenderEnabled(results, run[k], i);
  }

  lemma SenderEnabled<T(!new)>(results: seq<Result<T>>, s: State<T>, i: nat)
    requires Inv(results, s) && i < |s.routines| && s.routines[i].Running?
    ensures |s.channel| < |s.routines| && !s.closed && s.pending > 0
  {
    assert !Delivered(s, i) && s.routines[i] in s.routines;
    forall x | x in s.channel ensures x < |results| {
      assert Delivered(s, x);
    }
    Pigeons(s.channel, |results|);
    LiveIsZero(s.routines);
  }

  /** The items of these results, in any order. */
  ghost function Bag<T>(results: seq<Result<T>>, order: seq<nat>): (bag: multiset<T>)
    requires InRange(order, |results|)
  {
    if order == [] then multiset{} else Bag(results, order[..|order| - 1]) + multiset(results[order[|order| - 1]].items)
  }

  lemma {:induction false} GatherIsBag<T>(results: seq<Result<T>>, order: seq<nat>)
    requires InRange(order, |results|)
    ensures multiset(Gather(results, order)) == Bag(results, order)
  {
    if order != [] {
      GatherIsBag(results, order[..|order| - 1]);
    }
  }

  lemma BagAppend<T>(results: seq<Result<T>>, order: seq<nat>, i: nat)
    requires InRange(order, |results|) && i < |results|
    ensures InRange(order + [i], |results|)
    ensures Bag(results, order + [i]) == Bag(results, order) + multiset(results[i].items)
  {
    assert (order + [i])[..|order|] == order;
  }

  lemma {:induction false} BagInsert<T>(results: seq<Result<T>>, a: seq<nat>, i: nat, b: seq<nat>)
    requires InRange(a, |results|) && InRange(b, |results|) && i < |results|
    ensures InRange(a + [i] + b, |results|) && InRange(a + b, |results|)
    ensures Bag(results, a + [i] + b) == Bag(results, a + b) + multiset(results[i].items)
  {
    hide Bag;
    if b == [] {
      assert a + [i] + b == a + [i] && a + b == a;
      BagAppend(results, a, i);
    } else {
      var b', last := b[..|b| - 1], b[|b| - 1];
      BagInsert(results, a, i, b');
      assert a + [i] + b == (a + [i] + b') + [last] && a + b == (a + b') + [last];
      BagAppend(results, a + [i] + b', last);
      BagAppend(results, a + b', last);
    }
  }

  /** In whichever order results are gathered, the same items come out. */
  lemma {:induction false} BagOrderFree<T>(results: seq<Result<T>>, x: seq<nat>, y: seq<nat>)
    requires InRange(x, |results|) && InRange(y, |results|) && multiset(x) == multiset(y)
    ensures Bag(results, x) == Bag(results, y)
    decreases |x|
  {
    if x == [] {
      assert |multiset(y)| == 0;
    } else {
      var i := TakeOut(x, y);
      var a, b := y[..i], y[i + 1..];
      BagInsert(results, a, y[i], b);
      BagOrderFree(results, x[..|x| - 1], a + b);
    }
  }

  ghost function All(n: nat): (order: seq<nat>) {
    seq(n, i => i)
  }

  lemma AllHas(n: nat, x: nat)
    ensures NoDup(All(n)) && InRange(All(n), n)
    ensures x in All(n) <==> x < n
  {
    if x < n {
      assert All(n)[x] == x;
    }
  }

  lemma PermutationOfAll(order: seq<nat>, n: nat)
    requires NoDup(order) && forall x: nat :: x in order <==> x < n
    ensures multiset(order) == multiset(All(n))
  {
    forall x: nat ensures multiset(order)[x] == multiset(All(n))[x] {
      NoDupMultiset(order, x);
      NoDupMultiset(All(n), x);
      AllHas(n, x);
    }
  }

  /**
    * In whatever order the reconciliations finish: the caller returns without an
    * error exactly if none of them failed, and then with all that they found.
    */
  lemma JoinIsRight<T(!new)>(results: seq<Result<T>>, run: seq<State<T>>, k: nat)
    requires Run(results, run) && k < |run| && run[k].main.Returned?
    ensures run[k].main.ok <==> forall r | r in results :: !r.failed
    ensures run[k].main.ok ==> multiset(run[k].collected) == multiset(Gather(results, All(|results|)))
  {
    var s := run[k];
    RunInv(results, run, k);
    if s.main.ok {
      forall i: nat ensures i in s.received <==> i < |results| {
        if i < |results| {
          assert s.routines[i] in s.routines;
        }
        assert Delivered(s, i) <==> i in s.received;
      }
      forall r | r in results ensures !r.failed {
        var i :| 0 <= i < |results| && results[i] == r;
        assert i in s.received;
      }
      PermutationOfAll(s.received, |results|);
      AllHas(|results|, 0);
      BagOrderFree(results, s.received, All(|results|));
      GatherIsBag(results, s.received);
      GatherIsBag(results, All(|results|));
    } else {
      var i :| i in s.received && results[i].failed;
      assert results[i] in results;
    }
  }

  // ---- Every run comes to its end ----

  ghost function Weight(r: Routine): (n: nat) {
    match r
    case Unborn => 4
    case Running => 3
    case Sent => 1
    case Gone => 0
  }

  ghost function Work(rs: seq<Routine>): (n: nat) {
    if rs == [] then 0 else Work(rs[..|rs| - 1]) + Weight(rs[|rs| - 1])
  }

  lemma {:induction false} WorkUpdate(rs: seq<Routine>, i: nat, r: Routine)
    requires i < |rs|
    ensures Work(rs[i := r]) == Work(rs) - Weight(rs[i]) + Weight(r)
  {
    var n := |rs| - 1;
    if i == n {
      assert rs[i := r][..n] == rs[..n];
    } else {
      assert rs[i := r][..n] == rs[..n][i := r];
      WorkUpdate(rs[..n], i, r);
    }
  }

  lemma {:induction false} WorkAll(n: nat)
    ensures Work(seq(n, i => Unborn)) == 4 * n
  {
    if n > 0 {
      assert seq(n, i => Unborn)[..n - 1] == seq(n - 1, i => Unborn);
      WorkAll(n - 1);
    }
  }

  ghost function MainLeft(m: Main): (n: nat) {
    match m
    case Spawning(_) => 4
    case Waiting => 3
    case Closing => 2
    case Draining => 1
    case Returned(_) => 0
  }

  /** How many steps are left at most. */
  ghost function Left<T>(s: State<T>): (n: nat) {
    Work(s.routines) + |s.channel| + MainLeft(s.main)
  }

  lemma StepShortens<T(!new)>(results: seq<Result<T>>, s: State<T>, s': State<T>)
    requires Inv(results, s) && Next(results, s, s')
    ensures Left(s') < Left(s)
  {
    if Spawn(s, s') {
      if s.main.next < |s.routines| {
        WorkUpdate(s.routines, s.main.next, Running);
      }
    } else if exists i :: Send(s, s', i) {
      var i :| Send(s, s', i);
      WorkUpdate(s.routines, i, Sent);
    } else if exists i :: Exit(s, s', i) {
      var i :| Exit(s, s', i);
      WorkUpdate(s.routines, i, Gone);
    }
  }

  /** No run takes more than 4n + 4 steps. */
  lemma {:induction false} RunIsShort<T(!new)>(results: seq<Result<T>>, run: seq<State<T>>)
    requires Run(results, run)
    ensures Left(run[|run| - 1]) + |run| <= 4 * |results| + 5
  {
    if |run| == 1 {
      WorkAll(|results|);
    } else {
      var shorter := run[..|run| - 1];
      RunIsShort(results, shorter);
      RunInv(results, run, |run| - 2);
      StepShortens(results, run[|run| - 2], run[|run| - 1]);
    }
  }

  // ---- What can hold a run up ----

  /** A step for which no wrapped reconciliation has to return. */
  ghost predicate Unaided<T(!new)>(results: seq<Result<T>>, s: State<T>, s': State<T>) {
    Spawn(s, s') || Wait(s, s') || Close(s, s') || Receive(results, s, s') || exists i :: Exit(s, s', i)
  }

  /** The caller waits, somebody has not sent a result yet, and nobody is about to exit. */
  ghost predicate HeldUp<T>(s: State<T>) {
    && s.main.Waiting?
    && (exists i :: 0 <= i < |s.routines| && s.routines[i].Running?)
    && (forall i | 0 <= i < |s.routines| :: !s.routines[i].Sent?)
  }

  lemma UnaidedWaiting<T(!new)>(results: seq<Result<T>>, s: State<T>)
    requires Inv(results, s) && s.main.Waiting?
    ensures HeldUp(s) || exists s' :: Unaided(results, s, s')
  {
    LiveIsZero(s.routines);
    if s.pending == 0 {
      assert Wait(s, s.(main := Closing)) && Unaided(results, s, s.(main := Closing));
    } else if i :| 0 <= i < |s.routines| && s.routines[i].Sent? {
      var s' := s.(routines := s.routines[i := Gone], pending := s.pending - 1);
      assert Exit(s, s', i) && Unaided(results, s, s');
    } else {
      var r :| r in s.routines && !r.Gone?;
      var i :| 0 <= i < |s.routines| && s.routines[i] == r;
      assert s.routines[i] in s.routines;
      assert s.routines[i].Running?;
    }
  }

  lemma HeldUpWaits<T(!new)>(results: seq<Result<T>>, s: State<T>, s': State<T>)
    requires Inv(results, s) && HeldUp(s)
    ensures !Unaided(results, s, s')
  {
    LiveIsZero(s.routines);
    var i :| 0 <= i < |s.routines| && s.routines[i].Running?;
    assert s.routines[i] in s.routines;
  }

  lemma CallerMoves<T(!new)>(results: seq<Result<T>>, s: State<T>)
    requires Inv(results, s) && !s.main.Waiting? && !s.main.Returned?
    ensures exists s' :: Unaided(results, s, s')
  {
    match s.main
    case Spawning(next) =>
      var s' := if next < |s.routines| then s.(routines := s.routines[next := Running], main := Spawning(next + 1))
        else s.(main := Waiting);
      assert Spawn(s, s') && Unaided(results, s, s');
    case Closing =>
      var s' := s.(closed := true, main := Draining);
      assert Close(s, s') && Unaided(results, s, s');
    case Draining =>
      if s.channel == [] {
        var s' := s.(main := Returned(true));
        assert Receive(results, s, s') && Unaided(results, s, s');
      } else {
        var i := s.channel[0];
        assert Delivered(s, i);
        var rest := s.(channel := s.channel[1..], received := s.received + [i]);
        var s' := if results[i].failed then rest.(main := Returned(false))
          else rest.(collected := s.collected + results[i].items);
        assert Receive(results, s, s') && Unaided(results, s, s');
      }
  }

  /**
    * Nothing but a wrapped reconciliation that does not return can hold a run up: before
    * the caller has returned no other step is possible if and only if the caller waits,
    * some reconciliation is still at work, and no other goroutine is about to exit.
    */
  lemma HeldUpIff<T(!new)>(results: seq<Result<T>>, run: seq<State<T>>, k: nat)
    requires Run(results, run) && k < |run| && !run[k].main.Returned?
    ensures (forall s' :: !Unaided(results, run[k], s')) <==> HeldUp(run[k])
  {
    var s := run[k];
    RunInv(results, run, k);
    if HeldUp(s) {
      forall s' ensures !Unaided(results, s, s') {
        HeldUpWaits(results, s, s');
      }
    } else if s.main.Waiting? {
      UnaidedWaiting(results, s);
    } else {
      CallerMoves(results, s);
    }
  }

  /** So if each of them returns, no run gets stuck before the caller has returned. */
  lemma NeverStuck<T(!new)>(results: seq<Result<T>>, run: seq<State<T>>, k: nat)
    requires Run(results, run) && k < |run| && !run[k].main.Returned?
    ensures exists s' :: Next(results, run[k], s')
  {
    var s := run[k];
    RunInv(results, run, k);
    HeldUpIff(results, run, k);
    if HeldUp(s) {
      var i :| 0 <= i < |s.routines| && s.routines[i].Running?;
      SenderEnabled(results, s, i);
      var s' := s.(routines := s.routines[i := Sent], channel := s.channel + [i]);
      assert Send(s, s', i) && Next(results, s, s');
    } else {
      var s' :| Unaided(results, s, s');
      assert Next(results, s, s');
    }
  }
}
