/** The search for a free package id in the Leshan protocol's DeployPackage. */
module PackageSearch {
  import opened Options

  const FIRST_ID := 1000

  /** The listed ids that a search standing at `candidate` may still meet. */
  ghost function Ahead(ids: seq<int>, candidate: int): set<int> {
    set x | x in ids && candidate <= x
  }

  /**
   The least id from 1000 on that no available instance has, whatever the order of the instances
   and however often one is listed. `instances` is absent when the node lists no object 9 at all.
   */
  method FindPackageId(instances: Option<seq<int>>) returns (packageId: int)
    ensures 1000 <= packageId
    ensures instances.None? ==> packageId == 1000
    ensures instances.Some? ==> packageId !in instances.value && packageId <= 1000 + |instances.value|
    ensures instances.Some? ==> forall x | 1000 <= x < packageId :: x in instances.value
  {
    packageId := FIRST_ID;
    if instances.Some? {
      var ids := instances.value;
      var searching := true;
      while searching
        invariant FIRST_ID <= packageId
        invariant forall x | FIRST_ID <= x < packageId :: x in ids
        invariant !searching ==> packageId !in ids
        decreases Ahead(ids, packageId), searching
      {
        var inUse := false;
        ghost var candidate := packageId;
        var i := 0;
        while i < |ids| && !inUse
          invariant i <= |ids|
          invariant !inUse ==> packageId == candidate && candidate !in ids[..i]
          invariant inUse ==> packageId == candidate + 1 && candidate in ids
        {
          if ids[i] == packageId {
            inUse := true;
            packageId := packageId + 1;
          }
          i := i + 1;
        }
        if inUse {
          assert candidate in Ahead(ids, candidate) && candidate !in Ahead(ids, packageId);
        } else {
          searching := false;
        }
      }
      RunIsNoLongerThanList(ids, packageId);
    }
  }

  /** Consecutive listed ids are no more than the list is long. */
  lemma RunIsNoLongerThanList(ids: seq<int>, end: int)
    requires FIRST_ID <= end && forall x | FIRST_ID <= x < end :: x in ids
    ensures end <= FIRST_ID + |ids|
  {
    RunFits((set x | x in ids), FIRST_ID, end);
    ListedSize(ids);
  }

  lemma {:induction false} RunFits(listed: set<int>, from: int, end: int)
    requires from <= end && forall x | from <= x < end :: x in listed
    ensures end - from <= |listed|
    decreases end - from
  {
    if from == end {
    } else {
      RunFits(listed - {end - 1}, from, end - 1);
    }
  }

  lemma {:induction false} ListedSize(ids: seq<int>)
    ensures |set x | x in ids| <= |ids|
  {
    if ids == [] {
    } else {
      ListedSize(ids[1..]);
      assert (set x | x in ids) == {ids[0]} + (set x | x in ids[1..]);
    }
  }
}
