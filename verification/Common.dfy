/** Small value types and sequence vocabulary shared by all modules. */
module Common {

  datatype Option<+T> = None | Some(value: T)

  /** No element occurs twice. */
  ghost predicate NoDup<T>(s: seq<T>) {
    forall i, j | 0 <= i < j < |s| :: s[i] != s[j]
  }

  lemma NoDupAppend<T>(s: seq<T>, x: T)
    requires NoDup(s) && x !in s
    ensures NoDup(s + [x])
  {
  }

  lemma NothingMore<T>(s: seq<T>)
    ensures s + [] == s
  {
  }

  lemma OneMoreJoins<T>(a: seq<T>, b: seq<T>, x: T)
    ensures a + b + [x] == a + (b + [x])
  {
  }

  lemma EmptyIff<T>(s: seq<T>)
    ensures s == [] <==> forall x :: x !in s
  {
    if s != [] {
      assert s[0] in s;
    }
  }

  /** A duplicate-free sequence counts every element at most once. */
  lemma {:induction false} NoDupMultiset<T>(s: seq<T>, x: T)
    requires NoDup(s)
    ensures multiset(s)[x] == if x in s then 1 else 0
  {
    if s != [] {
      var last := s[|s| - 1];
      var rest := s[..|s| - 1];
      assert s == rest + [last];
      NoDupMultiset(rest, x);
      assert last !in rest;
    }
  }

  /** `kept` are the elements of `all` at these places, each of them once and in their order; `at` lists the places. */
  ghost predicate PicksAt<T(!new)>(kept: seq<T>, all: seq<T>, places: set<nat>, at: seq<nat>) {
    && |at| == |kept|
    && (forall i :: i in at <==> i in places)
    && (forall j, k | 0 <= j < k < |at| :: at[j] < at[k])
    && (forall j | 0 <= j < |at| :: at[j] < |all| && kept[j] == all[at[j]])
  }

  ghost predicate Picks<T(!new)>(kept: seq<T>, all: seq<T>, places: set<nat>) {
    exists at: seq<nat> :: PicksAt(kept, all, places, at)
  }

  lemma PicksNothing<T(!new)>(all: seq<T>)
    ensures Picks([], all, {})
  {
    assert PicksAt([], all, {}, []);
  }

  lemma PicksMore<T(!new)>(kept: seq<T>, all: seq<T>, places: set<nat>, x: T)
    requires Picks(kept, all, places)
    ensures Picks(kept, all + [x], places) && Picks(kept + [x], all + [x], places + {|all|})
  {
    var at: seq<nat> :| PicksAt(kept, all, places, at);
    assert PicksAt(kept, all + [x], places, at);
    assert PicksAt(kept + [x], all + [x], places + {|all|}, at + [|all|]);
  }

  lemma PicksCount<T(!new)>(kept: seq<T>, all: seq<T>, places: set<nat>)
    requires Picks(kept, all, places)
    ensures kept == [] <==> places == {}
  {
    var at: seq<nat> :| PicksAt(kept, all, places, at);
    if at != [] {
      assert at[0] in at;
    }
  }

  /** The last element of one sequence can be taken out of any permutation of it. */
  lemma TakeOut<T>(x: seq<T>, y: seq<T>) returns (i: nat)
    requires x != [] && multiset(x) == multiset(y)
    ensures i < |y| && y[i] == x[|x| - 1] && y == y[..i] + [y[i]] + y[i + 1..]
    ensures multiset(x[..|x| - 1]) == multiset(y[..i] + y[i + 1..])
  {
    var rest, last := x[..|x| - 1], x[|x| - 1];
    assert x == rest + [last];
    assert last in multiset(y);
    i :| 0 <= i < |y| && y[i] == last;
    assert y == y[..i] + [last] + y[i + 1..];
    assert multiset(x) == multiset(rest) + multiset{last};
    assert multiset(y) == multiset(y[..i]) + multiset{last} + multiset(y[i + 1..]);
    assert multiset(y[..i] + y[i + 1..]) == multiset(y) - multiset{last} == multiset(rest);
  }

  /**
    * The keys of a map in some order. Go iterates over a map in an order that
    * changes from loop to loop, so nothing is said about which order it is.
    */
  method Enumerate<K(==), V>(m: map<K, V>) returns (keys: seq<K>)
    ensures NoDup(keys)
    ensures forall k :: k in keys <==> k in m
  {
    keys := [];
    var rest := m.Keys;
    while rest != {}
      invariant rest <= m.Keys
      invariant NoDup(keys)
      invariant forall k :: k in keys <==> k in m.Keys - rest
      decreases rest
    {
      var k :| k in rest;
      NoDupAppend(keys, k);
      keys := keys + [k];
      rest := rest - {k};
    }
  }
}
