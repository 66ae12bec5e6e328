/** What every sequence of provider calls keeps, and what a failed CreatePod leaves behind. */
module ProviderLaws {
  import opened Options
  import opened NextGenGW
  import opened ProviderSpec

  function Range(base: int, n: nat): seq<int> {
    seq(n, i => base + i)
  }

  // ---------- The deployment loop ----------

  /** The deployment of container `m` created an instance and could neither complete nor take it back. */
  predicate LeavesInstance(st: State, images: seq<Image>, w: World, m: nat) {
    && m < |images| && !Installed(st.pods, images[m]) && w.fetch(m).Some?
    && !Deploys(w.replies(m)) && w.replies(m).create == Code(CREATED) && w.replies(m).remove != Code(DELETED)
  }

  function Tail(st: State, images: seq<Image>, w: World, d: Deployment): seq<int> {
    if d.failed && LeavesInstance(st, images, w, |d.packages|) then [NextId(st.ids) + |d.packages|] else []
  }

  /** The loop gives out consecutive ids from the first free one, one per container, until it fails. */
  ghost predicate DeploymentShape(st: State, images: seq<Image>, w: World, n: nat, d: Deployment) {
    var m, base := |d.packages|, NextId(st.ids);
    && (if d.failed then m < n else m == n) && n <= |images|
    && (forall i | 0 <= i < m ::
          d.packages[i].id == base + i && d.packages[i].image == images[i] && !Installed(st.pods, images[i]))
    && d.ids == st.ids + Range(base, m) + Tail(st, images, w, d)
  }

  lemma {:induction false} DeployAllShape(st: State, images: seq<Image>, w: World, n: nat)
    requires Ascending(st.ids) && n <= |images|
    ensures DeploymentShape(st, images, w, n, DeployAll(st, images, w, n))
  {
    if n == 0 {
      assert DeployAll(st, images, w, 0).ids == st.ids + Range(NextId(st.ids), 0) + [];
    } else {
      DeployAllShape(st, images, w, n - 1);
      var d := DeployAll(st, images, w, n - 1);
      if !d.failed { DeployNextShape(st, images, w, n - 1, d); }
    }
  }

  lemma RangeIsAscending(ids: seq<int>, m: nat)
    requires Ascending(ids)
    ensures Ascending(ids + Range(NextId(ids), m))
    ensures NextId(ids + Range(NextId(ids), m)) == NextId(ids) + m
    ensures forall x | x in ids :: x < NextId(ids)
  {}

  lemma RangeGrows(base: int, m: nat)
    ensures Range(base, m + 1) == Range(base, m) + [base + m]
  {}

  lemma DeployNextShape(st: State, images: seq<Image>, w: World, n: nat, d: Deployment)
    requires Ascending(st.ids) && n < |images|
    requires DeploymentShape(st, images, w, n, d) && !d.failed
    ensures DeploymentShape(st, images, w, n + 1, DeployNext(st.pods, d, images[n], w.fetch(n), w.replies(n)))
  {
    hide Ascending, Installed, Range, NextId, Deploy;
    var r, base := w.replies(n), NextId(st.ids);
    RangeIsAscending(st.ids, n);
    RangeGrows(base, n);
    var d' := DeployNext(st.pods, d, images[n], w.fetch(n), r);
    assert d.ids == st.ids + Range(base, n);
    if Installed(st.pods, images[n]) || w.fetch(n).None? {
      assert d'.ids == st.ids + Range(base, n) + [];
    } else if !Deploys(r) {
      FailedDeployment(d.ids, r);
      assert d'.ids == st.ids + Range(base, n) + Tail(st, images, w, d');
    } else {
      DeployedIds(d.ids, r);
      assert d'.ids == st.ids + Range(base, n + 1) + [];
    }
  }

  lemma DeployedIds(ids: seq<int>, r: Replies)
    requires Deploys(r)
    ensures Deploy(ids, r) == ids + [NextId(ids)]
  {}

  // ---------- When a creation succeeds ----------

  /** A package can be deployed: no tracked pod has its image, its file is there, and all replies are right. */
  ghost predicate CanDeploy(st: State, image: Image, fetched: Option<string>, r: Replies) {
    && (forall k, j | k in st.pods && 0 <= j < |st.pods[k].packages| :: st.pods[k].packages[j].image != image)
    && fetched.Some?
    && r.create == Code(65) && r.add == Code(68) && r.install == Code(68) && r.activate == Code(68)
  }

  lemma InstalledExactly(pods: map<PodKey, ProviderPod>, image: Image)
    ensures Installed(pods, image) <==>
      !forall k, j | k in pods && 0 <= j < |pods[k].packages| :: pods[k].packages[j].image != image
  {
    if k, j :| k in pods && 0 <= j < |pods[k].packages| && pods[k].packages[j].image == image {
      assert HasImage(pods[k].packages, image);
    }
  }

  lemma DeployNextSucceedsExactly(st: State, d: Deployment, image: Image, fetched: Option<string>, r: Replies)
    requires !d.failed
    ensures var d' := DeployNext(st.pods, d, image, fetched, r);
      && (!d'.failed <==> CanDeploy(st, image, fetched, r))
      && (d'.failed ==> d'.packages == d.packages)
      && (!d'.failed ==>
            fetched.Some? && d'.packages == d.packages + [Package(NextId(d.ids), fetched.value, image)])
  {
    hide Installed, Deploy;
    InstalledExactly(st.pods, image);
  }

  lemma {:induction false} DeployAllSucceedsExactly(st: State, images: seq<Image>, w: World, n: nat)
    requires Ascending(st.ids) && n <= |images|
    ensures var d := DeployAll(st, images, w, n);
      && (!d.failed <==> forall i | 0 <= i < n :: CanDeploy(st, images[i], w.fetch(i), w.replies(i)))
      && forall i | 0 <= i < |d.packages| && w.fetch(i).Some? :: d.packages[i].file == w.fetch(i).value
  {
    hide DeployNext, CanDeploy;
    if n == 0 {
    } else {
      var d := DeployAll(st, images, w, n - 1);
      DeployAllSucceedsExactly(st, images, w, n - 1);
      DeployAllShape(st, images, w, n - 1);
      if !d.failed { DeployNextSucceedsExactly(st, d, images[n - 1], w.fetch(n - 1), w.replies(n - 1)); }
    }
  }

  /**
   CreatePod succeeds exactly if every container's package can be deployed and the communication adapter, if one
   is requested, does not fail. Then the pod's packages are the containers' files and images under the ids from
   the first free one on.
   */
  lemma CreateSucceedsExactly(st: State, key: PodKey, pod: Pod, w: World)
    requires Ascending(st.ids)
    ensures !CreateFails(st, pod, w) <==>
      && w.adapter != AdapterFailed
      && forall i | 0 <= i < |pod.images| :: CanDeploy(st, pod.images[i], w.fetch(i), w.replies(i))
    ensures !CreateFails(st, pod, w) ==>
      var base := if |st.ids| == 0 then 0 else st.ids[|st.ids| - 1] + 1;
      var st' := Create(st, key, pod, w);
      && key in st'.pods && |st'.pods[key].packages| == |pod.images|
      && forall i | 0 <= i < |pod.images| ::
           && w.fetch(i).Some?
           && st'.pods[key].packages[i] == Package(base + i, w.fetch(i).value, pod.images[i])
  {
    hide CanDeploy, Installed;
    DeployAllSucceedsExactly(st, pod.images, w, |pod.images|);
    if !CreateFails(st, pod, w) {
      DeployAllShape(st, pod.images, w, |pod.images|);
      forall i | 0 <= i < |pod.images| ensures w.fetch(i).Some? {
        FileIsThere(st, pod.images[i], w.fetch(i), w.replies(i));
      }
    }
  }

  lemma FileIsThere(st: State, image: Image, fetched: Option<string>, r: Replies)
    requires CanDeploy(st, image, fetched, r)
    ensures fetched.Some?
  {}

  /** Updating replaces the pod and nothing else: its packages stay, and an unknown pod has none. */
  lemma UpdateExactly(st: State, key: PodKey, pod: Pod)
    ensures var st' := Update(st, key, pod);
      && st'.ids == st.ids && st'.pods.Keys == st.pods.Keys + {key}
      && (forall k | k in st.pods && k != key :: st'.pods[k] == st.pods[k])
      && st'.pods[key].pod == pod
      && (key in st.pods ==> st'.pods[key].packages == st.pods[key].packages)
      && (key !in st.pods ==> st'.pods[key].packages == [])
  {}

  // ---------- The rollback loop ----------

  /** Of `n` consecutive ids from `base`, those whose removal was not confirmed. */
  function Leftovers(base: int, cleanup: nat -> Reply, n: nat): seq<int> {
    if n == 0 then []
    else Leftovers(base, cleanup, n - 1) + if cleanup(n - 1) == Code(DELETED) then [] else [base + n - 1]
  }

  lemma {:induction false} LeftoversBelow(base: int, cleanup: nat -> Reply, n: nat)
    ensures forall x | x in Leftovers(base, cleanup, n) :: base <= x < base + n
  {
    if n == 0 {
    } else {
      LeftoversBelow(base, cleanup, n - 1);
    }
  }

  /** Removing the first `n` of the ids just given out keeps the unconfirmed ones, in order, and all around them. */
  lemma {:induction false} CleanUpShape(
    ids: seq<int>, base: int, tail: seq<int>, packages: seq<Package>, cleanup: nat -> Reply, n: nat)
    requires forall x | x in ids :: x < base
    requires forall x | x in tail :: base + |packages| <= x
    requires forall i | 0 <= i < |packages| :: packages[i].id == base + i
    requires n <= |packages|
    ensures CleanUp(ids + Range(base, |packages|) + tail, packages, cleanup, n)
         == ids + Leftovers(base, cleanup, n) + (Range(base + n, |packages| - n) + tail)
  {
    hide Without, Remove;
    var m := |packages|;
    if n == 0 {
      assert ids + Range(base, m) + tail == ids + [] + (Range(base, m) + tail);
    } else {
      CleanUpShape(ids, base, tail, packages, cleanup, n - 1);
      var front, id, rest := ids + Leftovers(base, cleanup, n - 1), base + n - 1, Range(base + n, m - n) + tail;
      RangeFirst(base + n - 1, m - n + 1);
      assert Range(base + n - 1, m - n + 1) + tail == [id] + rest;
      LeftoversBelow(base, cleanup, n - 1);
      assert id !in front;
      RemoveMiddle(front, id, rest, cleanup(n - 1));
      assert ids + Leftovers(base, cleanup, n) == front + if cleanup(n - 1) == Code(DELETED) then [] else [id];
    }
  }

  lemma RemoveMiddle(front: seq<int>, id: int, rest: seq<int>, reply: Reply)
    requires id !in front && id !in rest
    ensures Remove(front + ([id] + rest), id, reply) == front + (if reply == Code(DELETED) then [] else [id]) + rest
  {
    WithoutMiddle(front, rest, id);
    hide Without;
    assert front + ([id] + rest) == front + [id] + rest;
    assert front + [] + rest == front + rest;
  }

  lemma RangeFirst(base: int, n: nat)
    requires n > 0
    ensures Range(base, n) == [base] + Range(base + 1, n - 1)
  {}

  /**
   A failed CreatePod leaves the table as it was and the list extended, in order, by exactly the new ids
   whose removal was not confirmed: those of the deployed packages, then that of the failed deployment.
   */
  lemma FailedCreateLeaves(st: State, key: PodKey, pod: Pod, w: World)
    requires Ascending(st.ids) && CreateFails(st, pod, w)
    ensures var d := DeployAll(st, pod.images, w, |pod.images|);
            var st' := Create(st, key, pod, w);
            && st'.pods == st.pods
            && st'.ids == st.ids + Leftovers(NextId(st.ids), w.cleanup, |d.packages|) + Tail(st, pod.images, w, d)
  {
    hide Ascending, Installed, NextId;
    var d := DeployAll(st, pod.images, w, |pod.images|);
    DeployAllShape(st, pod.images, w, |pod.images|);
    RangeIsAscending(st.ids, 0);
    var tail := Tail(st, pod.images, w, d);
    var m := |d.packages|;
    CleanUpShape(st.ids, NextId(st.ids), tail, d.packages, w.cleanup, m);
    assert Range(NextId(st.ids) + m, 0) + tail == tail;
  }

  /** When every removal is confirmed the list is restored. */
  lemma FailedCreateRestores(st: State, key: PodKey, pod: Pod, w: World)
    requires Ascending(st.ids) && CreateFails(st, pod, w)
    requires forall n: nat :: w.cleanup(n) == Code(DELETED) && w.replies(n).remove == Code(DELETED)
    ensures Create(st, key, pod, w) == st
  {
    FailedCreateLeaves(st, key, pod, w);
    var d := DeployAll(st, pod.images, w, |pod.images|);
    NoLeftovers(NextId(st.ids), w.cleanup, |d.packages|);
    assert st.ids + [] + [] == st.ids;
  }

  lemma {:induction false} NoLeftovers(base: int, cleanup: nat -> Reply, n: nat)
    requires forall i: nat :: cleanup(i) == Code(DELETED)
    ensures Leftovers(base, cleanup, n) == []
  {
    if n == 0 {
    } else {
      NoLeftovers(base, cleanup, n - 1);
    }
  }

  /** A successful CreatePod adds consecutive fresh ids, one per container, carrying the containers' images. */
  lemma SuccessfulCreate(st: State, key: PodKey, pod: Pod, w: World)
    requires Ascending(st.ids) && !CreateFails(st, pod, w)
    ensures var st' := Create(st, key, pod, w);
            && st'.ids == st.ids + Range(NextId(st.ids), |pod.images|)
            && st'.pods.Keys == st.pods.Keys + {key} && st'.pods[key].pod == pod
            && (forall k | k in st.pods && k != key :: st'.pods[k] == st.pods[k])
            && var ps := st'.pods[key].packages;
               && |ps| == |pod.images|
               && forall i | 0 <= i < |ps| ::
                    ps[i].id == NextId(st.ids) + i && ps[i].image == pod.images[i] && !Installed(st.pods, ps[i].image)
  {
    DeployAllShape(st, pod.images, w, |pod.images|);
    hide Installed, NextId;
    assert st.ids + Range(NextId(st.ids), |pod.images|) + [] == st.ids + Range(NextId(st.ids), |pod.images|);
  }

  /** Creating a pod and deleting it again gives every id back, if the removals are confirmed. */
  lemma CreateThenDelete(st: State, key: PodKey, pod: Pod, w: World, cleanup: nat -> Reply)
    requires Ascending(st.ids) && !CreateFails(st, pod, w) && forall n: nat :: cleanup(n) == Code(DELETED)
    ensures Delete(Create(st, key, pod, w), key, cleanup) == State(st.pods - {key}, st.ids)
  {
    hide Ascending, Installed, NextId;
    SuccessfulCreate(st, key, pod, w);
    RangeIsAscending(st.ids, 0);
    var st' := Create(st, key, pod, w);
    var base, ps := NextId(st.ids), st'.pods[key].packages;
    assert st'.ids == st.ids + Range(base, |ps|) + [];
    CleanUpShape(st.ids, base, [], ps, cleanup, |ps|);
    NoLeftovers(base, cleanup, |ps|);
    assert st.ids + [] + (Range(base + |ps|, 0) + []) == st.ids;
    assert st'.pods - {key} == st.pods - {key};
  }

  /** Cleaning up takes off the list exactly the ids whose removal was confirmed. */
  lemma {:induction false} CleanUpTakesConfirmed(ids: seq<int>, packages: seq<Package>, cleanup: nat -> Reply, n: nat)
    requires n <= |packages|
    ensures forall x :: x in CleanUp(ids, packages, cleanup, n) <==>
              x in ids && forall i | 0 <= i < n && packages[i].id == x :: cleanup(i) != Code(DELETED)
  {
    if n == 0 {
    } else {
      CleanUpTakesConfirmed(ids, packages, cleanup, n - 1);
      WithoutMembers(CleanUp(ids, packages, cleanup, n - 1), packages[n - 1].id);
    }
  }

  /**
   Deleting a tracked pod always drops the pod; an id leaves the list exactly if it is that of one of its
   packages and the removal was confirmed.
   */
  lemma DeleteTakesConfirmed(st: State, key: PodKey, cleanup: nat -> Reply)
    requires key in st.pods && Ascending(st.ids)
    ensures var st', ps := Delete(st, key, cleanup), st.pods[key].packages;
            && st'.pods == st.pods - {key} && Ascending(st'.ids)
            && forall x :: x in st'.ids <==>
                 x in st.ids && !exists i :: 0 <= i < |ps| && ps[i].id == x && cleanup(i) == Code(DELETED)
  {
    var ps := st.pods[key].packages;
    CleanUpTakesConfirmed(st.ids, ps, cleanup, |ps|);
    CleanUpKeeps(st.ids, ps, cleanup, |ps|);
  }

  // ---------- Any sequence of calls ----------

  ghost predicate Owned(st: State, k: PodKey, i: int) {
    k in st.pods && 0 <= i < |st.pods[k].packages|
  }

  function IdAt(st: State, k: PodKey, i: int): int
    requires k in st.pods && 0 <= i < |st.pods[k].packages|
  {
    st.pods[k].packages[i].id
  }

  /** The list ascends, and the packages of the tracked pods have distinct ids on it. */
  ghost predicate IdsInv(st: State) {
    && Ascending(st.ids)
    && (forall k, i | Owned(st, k, i) :: IdAt(st, k, i) in st.ids)
    && (forall k, i, k', i' | Owned(st, k, i) && Owned(st, k', i') && (k != k' || i != i') ::
          IdAt(st, k, i) != IdAt(st, k', i'))
  }

  /** Packages of different pods never share an image. */
  ghost predicate ImagesInv(st: State) {
    forall k, i, k', i' | Owned(st, k, i) && Owned(st, k', i') && k != k' ::
      st.pods[k].packages[i].image != st.pods[k'].packages[i'].image
  }

  lemma {:induction false} CleanUpKeeps(ids: seq<int>, packages: seq<Package>, cleanup: nat -> Reply, n: nat)
    requires Ascending(ids) && n <= |packages|
    ensures Ascending(CleanUp(ids, packages, cleanup, n))
    ensures forall x | x in ids && (forall i | 0 <= i < n :: packages[i].id != x) ::
      x in CleanUp(ids, packages, cleanup, n)
  {
    hide Ascending;
    if n == 0 {
    } else {
      CleanUpKeeps(ids, packages, cleanup, n - 1);
      var before := CleanUp(ids, packages, cleanup, n - 1);
      WithoutIsAscending(before, packages[n - 1].id);
      WithoutMembers(before, packages[n - 1].id);
    }
  }

  lemma CreateKeepsIds(st: State, key: PodKey, pod: Pod, w: World)
    requires IdsInv(st)
    ensures IdsInv(Create(st, key, pod, w))
  {
    hide IdsInv, Create, CreateFails, Leftovers, Tail, DeployAll;
    if CreateFails(st, pod, w) {
      AscendingIds(st);
      FailedCreateLeaves(st, key, pod, w);
      FailedCreateAscends(st, key, pod, w);
      SameTableKeepsIds(st, Create(st, key, pod, w));
    } else {
      SuccessKeepsIds(st, key, pod, w);
    }
  }

  lemma AscendingIds(st: State)
    requires IdsInv(st)
    ensures Ascending(st.ids)
  {}

  lemma SameTableKeepsIds(st: State, st': State)
    requires IdsInv(st) && st'.pods == st.pods && Ascending(st'.ids) && st.ids <= st'.ids
    ensures IdsInv(st')
  {
    forall k, i | Owned(st', k, i) ensures IdAt(st', k, i) in st'.ids {
      assert Owned(st, k, i);
      assert IdAt(st, k, i) in st.ids;
    }
    forall k, i, k', i' | Owned(st', k, i) && Owned(st', k', i') && (k != k' || i != i')
      ensures IdAt(st', k, i) != IdAt(st', k', i')
    {
      assert Owned(st, k, i) && Owned(st, k', i');
      assert IdAt(st, k, i) != IdAt(st, k', i');
    }
  }

  lemma FailedCreateAscends(st: State, key: PodKey, pod: Pod, w: World)
    requires Ascending(st.ids) && CreateFails(st, pod, w)
    ensures Ascending(Create(st, key, pod, w).ids)
  {
    var d := DeployAll(st, pod.images, w, |pod.images|);
    DeployAllShape(st, pod.images, w, |pod.images|);
    RangeIsAscending(st.ids, |d.packages|);
    RangeIsAscending(st.ids, |d.packages| + 1);
    RangeGrows(NextId(st.ids), |d.packages|);
    hide Installed, CreateFails;
    assert st.ids + (Range(NextId(st.ids), |d.packages|) + [NextId(st.ids) + |d.packages|])
        == st.ids + Range(NextId(st.ids), |d.packages|) + [NextId(st.ids) + |d.packages|];
    assert st.ids + Range(NextId(st.ids), |d.packages|) + [] == st.ids + Range(NextId(st.ids), |d.packages|);
    CleanUpKeeps(d.ids, d.packages, w.cleanup, |d.packages|);
  }

  lemma SuccessKeepsIds(st: State, key: PodKey, pod: Pod, w: World)
    requires IdsInv(st) && !CreateFails(st, pod, w)
    ensures IdsInv(Create(st, key, pod, w))
  {
    hide Installed, Create, CreateFails, NextId;
    SuccessfulCreate(st, key, pod, w);
    RangeIsAscending(st.ids, |pod.images|);
    var st' := Create(st, key, pod, w);
    var base := NextId(st.ids);
    forall k, i | Owned(st', k, i)
      ensures IdAt(st', k, i) in st'.ids
      ensures if k == key then IdAt(st', k, i) == base + i else Owned(st, k, i) && IdAt(st', k, i) < base
    {
      if k == key {
        assert st'.ids[|st.ids| + i] == base + i;
      } else {
        assert Owned(st, k, i);
        assert IdAt(st, k, i) in st.ids;
      }
    }
  }

  lemma DeleteKeepsIds(st: State, key: PodKey, cleanup: nat -> Reply)
    requires IdsInv(st)
    ensures IdsInv(Delete(st, key, cleanup))
  {
    if key in st.pods {
      var packages := st.pods[key].packages;
      CleanUpKeeps(st.ids, packages, cleanup, |packages|);
      var st' := Delete(st, key, cleanup);
      forall k, i | Owned(st', k, i)
        ensures Owned(st, k, i) && IdAt(st', k, i) == IdAt(st, k, i) && IdAt(st', k, i) in st'.ids
      {
        assert Owned(st, k, i);
        forall j | 0 <= j < |packages| ensures packages[j].id != IdAt(st, k, i) {
          assert Owned(st, key, j);
          assert IdAt(st, key, j) == packages[j].id;
        }
      }
    }
  }

  lemma UpdateKeepsIds(st: State, key: PodKey, pod: Pod)
    requires IdsInv(st)
    ensures IdsInv(Update(st, key, pod))
  {
    var st' := Update(st, key, pod);
    forall k, i | Owned(st', k, i) ensures Owned(st, k, i) && IdAt(st', k, i) == IdAt(st, k, i) {}
  }

  /** Over every sequence of calls and remote outcomes; binary search on removal therefore always finds a tracked id. */
  lemma {:induction false} IdsStayDistinct(calls: seq<Call>)
    ensures IdsInv(ApplyAll(calls))
  {
    if calls == [] {
    } else {
      IdsStayDistinct(calls[..|calls| - 1]);
      var st := ApplyAll(calls[..|calls| - 1]);
      match calls[|calls| - 1]
      case CreateCall(key, pod, w) => CreateKeepsIds(st, key, pod, w);
      case UpdateCall(key, pod) => UpdateKeepsIds(st, key, pod);
      case DeleteCall(key, cleanup) => DeleteKeepsIds(st, key, cleanup);
    }
  }

  lemma CreateKeepsImages(st: State, key: PodKey, pod: Pod, w: World)
    requires Ascending(st.ids) && ImagesInv(st)
    ensures ImagesInv(Create(st, key, pod, w))
  {
    if !CreateFails(st, pod, w) {
      SuccessfulCreate(st, key, pod, w);
      var st' := Create(st, key, pod, w);
      forall k, i, j | Owned(st', k, i) && Owned(st', key, j) && k != key
        ensures st'.pods[k].packages[i].image != st'.pods[key].packages[j].image
      {
        assert HasImage(st.pods[k].packages, st.pods[k].packages[i].image);
      }
    }
  }

  /** Over every sequence of calls and remote outcomes no two tracked pods share an image. */
  lemma {:induction false} ImagesStayUnique(calls: seq<Call>)
    ensures ImagesInv(ApplyAll(calls))
  {
    if calls == [] {
    } else {
      ImagesStayUnique(calls[..|calls| - 1]);
      IdsStayDistinct(calls[..|calls| - 1]);
      var st := ApplyAll(calls[..|calls| - 1]);
      match calls[|calls| - 1]
      case CreateCall(key, pod, w) => CreateKeepsImages(st, key, pod, w);
      case UpdateCall(key, pod) => UpdateKeepsImages(st, key, pod);
      case DeleteCall(key, cleanup) => DeleteKeepsImages(st, key, cleanup);
    }
  }

  lemma UpdateKeepsImages(st: State, key: PodKey, pod: Pod)
    requires ImagesInv(st)
    ensures ImagesInv(Update(st, key, pod))
  {
    var st' := Update(st, key, pod);
    forall k, i | Owned(st', k, i) ensures Owned(st, k, i) && st'.pods[k].packages[i] == st.pods[k].packages[i] {}
  }

  lemma DeleteKeepsImages(st: State, key: PodKey, cleanup: nat -> Reply)
    requires ImagesInv(st)
    ensures ImagesInv(Delete(st, key, cleanup))
  {
    var st' := Delete(st, key, cleanup);
    forall k, i | Owned(st', k, i) ensures Owned(st, k, i) && st'.pods[k].packages[i] == st.pods[k].packages[i] {}
  }

  // ---------- Packages and containers ----------

  /** A tracked pod's packages are its containers', in order. */
  predicate Matches(pp: ProviderPod) {
    ImagesOf(pp.packages) == pp.pod.images
  }

  function ImagesOf(packages: seq<Package>): seq<Image> {
    seq(|packages|, i requires 0 <= i < |packages| => packages[i].image)
  }

  ghost predicate AllMatch(st: State) {
    forall k | k in st.pods :: Matches(st.pods[k])
  }

  /** An update that keeps the containers' images: of a tracked pod its own, of an untracked pod none. */
  predicate KeepsImages(st: State, key: PodKey, pod: Pod) {
    pod.images == if key in st.pods then st.pods[key].pod.images else []
  }

  /** Updating keeps packages and containers matching exactly when it keeps the images. */
  lemma UpdateMatchesExactly(st: State, key: PodKey, pod: Pod)
    requires AllMatch(st)
    ensures AllMatch(Update(st, key, pod)) <==> KeepsImages(st, key, pod)
  {
    var st' := Update(st, key, pod);
    assert ImagesOf([]) == [];
    assert Matches(st'.pods[key]) <==> KeepsImages(st, key, pod);
    forall k | k in st'.pods && k != key ensures Matches(st'.pods[k]) {}
  }

  ghost predicate UpdatesKeepImages(calls: seq<Call>) {
    calls == [] ||
    var before, last := calls[..|calls| - 1], calls[|calls| - 1];
    UpdatesKeepImages(before) && (last.UpdateCall? ==> KeepsImages(ApplyAll(before), last.key, last.pod))
  }

  lemma {:induction false} PackagesMatchContainers(calls: seq<Call>)
    requires UpdatesKeepImages(calls)
    ensures AllMatch(ApplyAll(calls))
  {
    if calls == [] {
    } else {
      var before, last := calls[..|calls| - 1], calls[|calls| - 1];
      PackagesMatchContainers(before);
      IdsStayDistinct(before);
      var st := ApplyAll(before);
      match last
      case CreateCall(key, pod, w) =>
        if !CreateFails(st, pod, w) {
          SuccessfulCreate(st, key, pod, w);
          assert ImagesOf(Create(st, key, pod, w).pods[key].packages) == pod.images;
        }
      case UpdateCall(key, pod) => UpdateMatchesExactly(st, key, pod);
      case DeleteCall(key, cleanup) =>
    }
  }

  // ---------- One image, one package ----------

  ghost predicate NoRepeats(images: seq<Image>) {
    forall i, j | 0 <= i < j < |images| :: images[i] != images[j]
  }

  /** No image is installed twice, in one pod or in two. */
  ghost predicate InstalledOnce(st: State) {
    forall k, i, k', i' | Owned(st, k, i) && Owned(st, k', i') && (k != k' || i != i') ::
      st.pods[k].packages[i].image != st.pods[k'].packages[i'].image
  }

  lemma SuccessfulImages(st: State, key: PodKey, pod: Pod, w: World)
    requires Ascending(st.ids) && !CreateFails(st, pod, w)
    ensures ImagesOf(Create(st, key, pod, w).pods[key].packages) == pod.images
  {
    SuccessfulCreate(st, key, pod, w);
  }

  /** A successful CreatePod installs every image of the pod once exactly when the pod lists it once. */
  lemma CreateRepeatsExactly(st: State, key: PodKey, pod: Pod, w: World)
    requires Ascending(st.ids) && !CreateFails(st, pod, w)
    ensures NoRepeats(ImagesOf(Create(st, key, pod, w).pods[key].packages)) <==> NoRepeats(pod.images)
  {
    SuccessfulImages(st, key, pod, w);
  }

  lemma OncePodByPod(st: State)
    requires ImagesInv(st)
    ensures InstalledOnce(st) <==> forall k | k in st.pods :: NoRepeats(ImagesOf(st.pods[k].packages))
  {
    if InstalledOnce(st) {
      forall k | k in st.pods ensures NoRepeats(ImagesOf(st.pods[k].packages)) {
        var ps := st.pods[k].packages;
        forall i, j | 0 <= i < j < |ps| ensures ImagesOf(ps)[i] != ImagesOf(ps)[j] {
          assert Owned(st, k, i) && Owned(st, k, j);
        }
      }
    }
    if forall k | k in st.pods :: NoRepeats(ImagesOf(st.pods[k].packages)) {
      forall k, i, j | Owned(st, k, i) && Owned(st, k, j) && i != j
        ensures st.pods[k].packages[i].image != st.pods[k].packages[j].image
      {
        var images := ImagesOf(st.pods[k].packages);
        assert NoRepeats(images);
        assert images[i] != images[j];
      }
    }
  }

  /** If no image was installed twice before, none is afterwards exactly when the call fails or the pod repeats none. */
  lemma CreateKeepsOnceExactly(st: State, key: PodKey, pod: Pod, w: World)
    requires Ascending(st.ids) && InstalledOnce(st)
    ensures InstalledOnce(Create(st, key, pod, w)) <==> CreateFails(st, pod, w) || NoRepeats(pod.images)
  {
    hide Create, CreateFails, ImagesOf, NoRepeats;
    OncePodByPod(st);
    CreateKeepsImages(st, key, pod, w);
    OncePodByPod(Create(st, key, pod, w));
    if CreateFails(st, pod, w) {
      FailedCreateLeaves(st, key, pod, w);
      assert Create(st, key, pod, w).pods == st.pods;
    } else {
      SuccessfulCreate(st, key, pod, w);
      SuccessfulImages(st, key, pod, w);
    }
  }

  /**
   Over every sequence of calls whose updates keep images, no image is installed twice exactly when no
   tracked pod lists one twice.
   */
  lemma InstalledOnceExactly(calls: seq<Call>)
    requires UpdatesKeepImages(calls)
    ensures var st := ApplyAll(calls);
      InstalledOnce(st) <==> forall k | k in st.pods :: NoRepeats(st.pods[k].pod.images)
  {
    hide NoRepeats, ImagesOf;
    PackagesMatchContainers(calls);
    ImagesStayUnique(calls);
    var st := ApplyAll(calls);
    OncePodByPod(st);
    forall k | k in st.pods ensures ImagesOf(st.pods[k].packages) == st.pods[k].pod.images {
      assert Matches(st.pods[k]);
    }
  }

  ghost predicate CreatesWithoutRepeats(calls: seq<Call>) {
    forall i | 0 <= i < |calls| && calls[i].CreateCall? :: NoRepeats(calls[i].pod.images)
  }

  /** Whatever updates do, a caller that creates only pods without repeated images never installs one twice. */
  lemma {:induction false} WithoutRepeatsInstalledOnce(calls: seq<Call>)
    requires CreatesWithoutRepeats(calls)
    ensures InstalledOnce(ApplyAll(calls))
  {
    if calls == [] {
    } else {
      var before, last := calls[..|calls| - 1], calls[|calls| - 1];
      var st := ApplyAll(before);
      WithoutRepeatsInstalledOnce(before);
      IdsStayDistinct(before);
      match last
      case CreateCall(key, pod, w) => CreateKeepsOnceExactly(st, key, pod, w);
      case UpdateCall(key, pod) => UpdateKeepsOnce(st, key, pod);
      case DeleteCall(key, cleanup) => DeleteKeepsOnce(st, key, cleanup);
    }
  }

  lemma UpdateKeepsOnce(st: State, key: PodKey, pod: Pod)
    requires InstalledOnce(st)
    ensures InstalledOnce(Update(st, key, pod))
  {
    var st' := Update(st, key, pod);
    forall k, i | Owned(st', k, i) ensures Owned(st, k, i) && st'.pods[k].packages[i] == st.pods[k].packages[i] {}
  }

  lemma DeleteKeepsOnce(st: State, key: PodKey, cleanup: nat -> Reply)
    requires InstalledOnce(st)
    ensures InstalledOnce(Delete(st, key, cleanup))
  {
    var st' := Delete(st, key, cleanup);
    forall k, i | Owned(st', k, i) ensures Owned(st, k, i) && st'.pods[k].packages[i] == st.pods[k].packages[i] {}
  }

  /** Uniqueness is checked against tracked pods only: one pod may install the same image twice. */
  lemma SameImageTwice(key: PodKey, image: Image, file: string)
    ensures var ok := Replies(Code(CREATED), Code(CHANGED), Code(CHANGED), Code(CHANGED), NotSent);
            var w := World((n: nat) => Some(file), (n: nat) => ok, NotRequested, (n: nat) => NotSent);
            var st := Create(EMPTY, key, Pod([image, image]), w);
            && key in st.pods && st.ids == [0, 1]
            && st.pods[key].packages == [Package(0, file, image), Package(1, file, image)]
  {
    var ok := Replies(Code(CREATED), Code(CHANGED), Code(CHANGED), Code(CHANGED), NotSent);
    var w := World((n: nat) => Some(file), (n: nat) => ok, NotRequested, (n: nat) => NotSent);
    assert DeployAll(EMPTY, [image, image], w, 1) == Deployment([0], [Package(0, file, image)], false);
    assert DeployAll(EMPTY, [image, image], w, 2) ==
      Deployment([0, 1], [Package(0, file, image), Package(1, file, image)], false);
  }
}
