/**
 The instance ids of the NextGenGW protocol, after providers/fhpAicos/protocol/nextgengw: an ordered
 list of ids in use, appended to by a deployment and searched by bisection on removal.

 A remote call is its reply, arbitrary and given beforehand. Success codes are those of section
 12.1.2 of RFC 7252: 2.01 Created, 2.02 Deleted and 2.04 Changed.
 */
module NextGenGW {
  const CREATED := 65
  const DELETED := 66
  const CHANGED := 68

  // No reply is one that was never asked for: the request, or the package file, could not be prepared or sent.
  datatype Reply = NotSent | TimedOut | Malformed | Code(code: int)

  /** The replies a deployment meets on its way; `remove` is met only when it has to be undone. */
  datatype Replies = Replies(create: Reply, add: Reply, install: Reply, activate: Reply, remove: Reply)

  predicate Ascending(ids: seq<int>) {
    forall i, j | 0 <= i < j < |ids| :: ids[i] < ids[j]
  }

  function NextId(ids: seq<int>): int {
    if ids == [] then 0 else ids[|ids| - 1] + 1
  }

  /** The list with every occurrence of `id` taken out. */
  function Without(ids: seq<int>, id: int): seq<int> {
    if ids == [] then []
    else (if ids[0] == id then [] else [ids[0]]) + Without(ids[1..], id)
  }

  /** The list after a removal: unchanged unless the far edge confirmed it. */
  function Remove(ids: seq<int>, id: int, reply: Reply): seq<int> {
    if reply == Code(DELETED) then Without(ids, id) else ids
  }

  predicate Deploys(r: Replies) {
    r.create == Code(CREATED) && r.add == Code(CHANGED) && r.install == Code(CHANGED) && r.activate == Code(CHANGED)
  }

  /** The list after a deployment. */
  function Deploy(ids: seq<int>, r: Replies): seq<int> {
    if r.create != Code(CREATED) then ids
    else if Deploys(r) then ids + [NextId(ids)]
    else Remove(ids + [NextId(ids)], NextId(ids), r.remove)
  }

  // ---------- The list ----------

  class Gateway {
    var instanceInUse: seq<int>

    predicate Valid()
      reads this
    {
      Ascending(instanceInUse)
    }

    constructor ()
      ensures Valid() && instanceInUse == []
    {
      instanceInUse := [];
    }

    /** The first position holding an id not below `id`, by bisection. */
    method Search(id: int) returns (i: nat)
      requires Valid()
      ensures i <= |instanceInUse|
      ensures forall k | 0 <= k < i :: instanceInUse[k] < id
      ensures forall k | i <= k < |instanceInUse| :: id <= instanceInUse[k]
    {
      i := 0;
      var j := |instanceInUse|;
      while i < j
        invariant i <= j <= |instanceInUse|
        invariant forall k | 0 <= k < i :: instanceInUse[k] < id
        invariant forall k | j <= k < |instanceInUse| :: id <= instanceInUse[k]
      {
        var h := (i + j) / 2;
        if !(instanceInUse[h] >= id) {
          i := h + 1;
        } else {
          j := h;
        }
      }
    }

    method RemovePackage(packageId: int, reply: Reply) returns (err: bool)
      requires Valid()
      modifies this
      ensures Valid()
      ensures instanceInUse == Remove(old(instanceInUse), packageId, reply) && err == (reply != Code(66))
      ensures forall x :: x in instanceInUse <==> x in old(instanceInUse) && !(x == packageId && reply == Code(66))
    {
      WithoutIsAscending(instanceInUse, packageId);
      WithoutMembers(instanceInUse, packageId);
      if reply != Code(DELETED) {
        return true;
      }
      var index := Search(packageId);
      CutIsWithout(instanceInUse, packageId, index);
      if index < |instanceInUse| && instanceInUse[index] == packageId {
        instanceInUse := instanceInUse[..index] + instanceInUse[index + 1..];
      }
      return false;
    }

    method DeployPackage(r: Replies) returns (instanceId: int, err: bool)
      requires Valid()
      modifies this
      ensures Valid()
      ensures instanceInUse == Deploy(old(instanceInUse), r)
      ensures instanceId == NextId(old(instanceInUse)) && instanceId !in old(instanceInUse)
      ensures err == !(r.create == Code(65) && r.add == Code(68) && r.install == Code(68) && r.activate == Code(68))
      ensures !err ==> instanceInUse == old(instanceInUse) + [instanceId]
      ensures err && (r.create != Code(65) || r.remove == Code(66)) ==> instanceInUse == old(instanceInUse)
    {
      DeploysExactly(instanceInUse, r);
      instanceId := 0;
      if |instanceInUse| != 0 {
        instanceId := instanceInUse[|instanceInUse| - 1] + 1;
      }
      if r.create != Code(CREATED) {
        return instanceId, true;
      }
      instanceInUse := instanceInUse + [instanceId];
      if r.add == Code(CHANGED) {
        if r.install == Code(CHANGED) {
          if r.activate == Code(CHANGED) {
            return instanceId, false;
          }
        }
      }
      var _ := RemovePackage(instanceId, r.remove);
      return instanceId, true;
    }
  }

  lemma {:induction false} WithoutMembers(ids: seq<int>, id: int)
    ensures forall x :: x in Without(ids, id) <==> x in ids && x != id
  {
    if ids == [] {
    } else {
      WithoutMembers(ids[1..], id);
    }
  }

  lemma {:induction false} WithoutIsAscending(ids: seq<int>, id: int)
    requires Ascending(ids)
    ensures Ascending(Without(ids, id))
  {
    if ids == [] {
    } else {
      var rest := Without(ids[1..], id);
      WithoutIsAscending(ids[1..], id);
      WithoutMembers(ids[1..], id);
      forall j | 0 <= j < |rest| ensures ids[0] < rest[j] {
        assert rest[j] in rest;
        assert rest[j] in ids[1..];
      }
    }
  }

  lemma {:induction false} WithoutAbsent(ids: seq<int>, id: int)
    requires id !in ids
    ensures Without(ids, id) == ids
  {
    if ids == [] {
    } else {
      WithoutAbsent(ids[1..], id);
    }
  }

  lemma {:induction false} WithoutAppend(a: seq<int>, b: seq<int>, id: int)
    ensures Without(a + b, id) == Without(a, id) + Without(b, id)
  {
    if a == [] {
      assert a + b == b;
    } else {
      assert (a + b)[1..] == a[1..] + b;
      WithoutAppend(a[1..], b, id);
    }
  }

  /** In an ascending list bisection finds the id if it is there, and cutting it out is all there is to removing it. */
  lemma CutIsWithout(ids: seq<int>, id: int, index: nat)
    requires Ascending(ids) && index <= |ids|
    requires (forall k | 0 <= k < index :: ids[k] < id) && (forall k | index <= k < |ids| :: id <= ids[k])
    ensures Without(ids, id) == if index < |ids| && ids[index] == id then ids[..index] + ids[index + 1..] else ids
  {
    if index < |ids| && ids[index] == id {
      assert ids == ids[..index] + ([id] + ids[index + 1..]);
      WithoutMiddle(ids[..index], ids[index + 1..], id);
    } else {
      WithoutAbsent(ids, id);
    }
  }

  lemma WithoutMiddle(a: seq<int>, b: seq<int>, id: int)
    requires id !in a && id !in b
    ensures Without(a + ([id] + b), id) == a + b
  {
    hide Without;
    WithoutAppend(a, [id] + b, id);
    WithoutAbsent(a, id);
    WithoutHead(b, id);
    WithoutAbsent(b, id);
  }

  lemma WithoutHead(b: seq<int>, id: int)
    ensures Without([id] + b, id) == Without(b, id)
  {
    assert ([id] + b)[1..] == b;
  }

  /** A deployment that has to be undone and is, leaves no trace; one that is not undone leaves its id behind. */
  lemma FailedDeployment(ids: seq<int>, r: Replies)
    requires Ascending(ids) && !Deploys(r)
    ensures Ascending(Deploy(ids, r))
    ensures Deploy(ids, r) ==
      if r.create == Code(CREATED) && r.remove != Code(DELETED) then ids + [NextId(ids)] else ids
  {
    if r.create == Code(CREATED) {
      WithoutMiddle(ids, [], NextId(ids));
      assert ids + ([NextId(ids)] + []) == ids + [NextId(ids)];
    }
  }

  /**
   A deployment succeeds exactly if the far edge answers 2.01 to the creation and 2.04 to each of the other three
   steps; it then takes the id behind the last one. If it fails, the id stays on the list exactly if the
   instance was created and its removal was not answered with 2.02.
   */
  lemma DeploysExactly(ids: seq<int>, r: Replies)
    requires Ascending(ids)
    ensures Deploys(r) <==>
      r.create == Code(65) && r.add == Code(68) && r.install == Code(68) && r.activate == Code(68)
    ensures NextId(ids) == if |ids| == 0 then 0 else ids[|ids| - 1] + 1
    ensures Deploys(r) ==> Deploy(ids, r) == ids + [NextId(ids)]
    ensures !Deploys(r) && (r.create != Code(65) || r.remove == Code(66)) ==> Deploy(ids, r) == ids
    ensures !Deploys(r) && r.create == Code(65) && r.remove != Code(66) ==> Deploy(ids, r) == ids + [NextId(ids)]
  {
    if !Deploys(r) { FailedDeployment(ids, r); }
  }
}
