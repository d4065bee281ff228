/**
  * The two helpers of go-anxcloud's compare package. Their code is not part of
  * the repository; what is relied upon is the contracts.
  */
module Compare {
  import opened Common
  import opened Resources

  ghost predicate DistinctIds(os: seq<Object>) {
    forall i, j | 0 <= i < j < |os| :: os[i].id != os[j].id
  }

  /** Index of the first object with the given identifier, or -1. */
  method Search(id: Id, objects: seq<Object>) returns (idx: int)
    ensures -1 <= idx < |objects|
    ensures idx == -1 <==> forall o | o in objects :: o.id != id
    ensures idx >= 0 ==> objects[idx].id == id
  {
    for i := 0 to |objects|
      invariant forall k | 0 <= k < i :: objects[k].id != id
    {
      if objects[i].id == id {
        return i;
      }
    }
    return -1;
  }

  ghost predicate Exists(spec: Spec, objects: seq<Object>) {
    exists o :: o in objects && o.spec == spec
  }

  /** Index of the first object that compares equal to `spec`, or -1. */
  method Match(spec: Spec, objects: seq<Object>) returns (idx: int)
    ensures -1 <= idx < |objects|
    ensures idx >= 0 <==> Exists(spec, objects)
    ensures idx >= 0 ==> objects[idx].spec == spec
  {
    for i := 0 to |objects|
      invariant forall k | 0 <= k < i :: objects[k].spec != spec
    {
      if objects[i].spec == spec {
        return i;
      }
    }
    return -1;
  }

  /**
    * Targets nothing existing compares equal to are to be created, existing
    * objects equal to no target are to be destroyed, and every other target
    * takes over the identifier of an existing object it is equal to.
    */
  method Reconcile(targets: seq<Spec>, existing: seq<Object>)
    returns (toCreate: seq<Spec>, toDestroy: seq<Object>, ids: seq<Option<Id>>)
    ensures forall spec :: spec in toCreate <==> spec in targets && !Exists(spec, existing)
    ensures NoDup(targets) ==> NoDup(toCreate)
    ensures forall o :: o in toDestroy <==> o in existing && o.spec !in targets
    ensures DistinctIds(existing) ==> DistinctIds(toDestroy)
    ensures |ids| == |targets|
    ensures forall i | 0 <= i < |targets| :: ids[i].Some? <==> Exists(targets[i], existing)
    ensures forall i | 0 <= i < |targets| && ids[i].Some? :: exists o ::
            o in existing && o.id == ids[i].value && o.spec == targets[i]
  {
    toCreate, ids := [], [];
    for i := 0 to |targets|
      invariant forall spec :: spec in toCreate <==> spec in targets[..i] && !Exists(spec, existing)
      invariant NoDup(targets) ==> NoDup(toCreate)
      invariant |ids| == i
      invariant forall k | 0 <= k < i :: ids[k].Some? <==> Exists(targets[k], existing)
      invariant forall k | 0 <= k < i && ids[k].Some? :: exists o ::
                o in existing && o.id == ids[k].value && o.spec == targets[k]
    {
      assert targets[..i + 1] == targets[..i] + [targets[i]];
      var idx := Match(targets[i], existing);
      if idx == -1 {
        assert NoDup(targets) ==> targets[i] !in targets[..i];
        toCreate := toCreate + [targets[i]];
        ids := ids + [None];
      } else {
        ids := ids + [Some(existing[idx].id)];
      }
    }
    assert targets[..|targets|] == targets;
    toDestroy := Superfluous(targets, existing);
  }

  method Superfluous(targets: seq<Spec>, existing: seq<Object>) returns (toDestroy: seq<Object>)
    ensures forall o :: o in toDestroy <==> o in existing && o.spec !in targets
    ensures DistinctIds(existing) ==> DistinctIds(toDestroy)
  {
    toDestroy := [];
    for i := 0 to |existing|
      invariant forall o :: o in toDestroy <==> o in existing[..i] && o.spec !in targets
      invariant DistinctIds(existing) ==> DistinctIds(toDestroy)
    {
      assert existing[..i + 1] == existing[..i] + [existing[i]];
      if existing[i].spec !in targets {
        toDestroy := toDestroy + [existing[i]];
      }
    }
    assert existing[..|existing|] == existing;
  }
}
