/** Whose the ids on the list are: those of tracked packages, and those that were lost on the way. */
module ProviderAccount {
  import opened Options
  import opened NextGenGW
  import opened ProviderSpec
  import opened ProviderLaws

  ghost predicate Tracked(st: State, x: int) {
    exists k, i :: Owned(st, k, i) && IdAt(st, k, i) == x
  }

  /** The ids of packages whose removal is not confirmed. */
  function Unconfirmed(packages: seq<Package>, cleanup: nat -> Reply): set<int> {
    set i | 0 <= i < |packages| && cleanup(i) != Code(DELETED) :: packages[i].id
  }

  function Members(ids: seq<int>): set<int> {
    set x | x in ids
  }

  function Ids(packages: seq<Package>): set<int> {
    set i | 0 <= i < |packages| :: packages[i].id
  }

  /**
   The ids a call leaves on the list with no pod to claim them: those whose removal was not confirmed, and
   those of the packages of a pod whose key is overwritten.
   */
  function LostIn(st: State, c: Call): set<int> {
    match c
    case CreateCall(key, pod, w) =>
      var d := DeployAll(st, pod.images, w, |pod.images|);
      if CreateFails(st, pod, w) then
        Unconfirmed(d.packages, w.cleanup) + Members(Tail(st, pod.images, w, d))
      else if key in st.pods then Ids(st.pods[key].packages)
      else {}
    case UpdateCall(key, pod) => {}
    case DeleteCall(key, cleanup) =>
      if key in st.pods then Unconfirmed(st.pods[key].packages, cleanup) else {}
  }

  function Lost(calls: seq<Call>): set<int> {
    if calls == [] then {}
    else
      var before := calls[..|calls| - 1];
      Lost(before) + LostIn(ApplyAll(before), calls[|calls| - 1])
  }

  /** Every id on the list is tracked or lost, and not both. */
  ghost predicate Balanced(st: State, lost: set<int>) {
    && (forall x :: x in st.ids <==> Tracked(st, x) || x in lost)
    && forall x | x in lost :: !Tracked(st, x)
  }

  lemma {:induction false} LeftoversAreUnconfirmed(base: int, packages: seq<Package>, cleanup: nat -> Reply, n: nat)
    requires n <= |packages| && forall i | 0 <= i < |packages| :: packages[i].id == base + i
    ensures forall x :: x in Leftovers(base, cleanup, n) <==> x in Unconfirmed(packages[..n], cleanup)
  {
    if n == 0 {
    } else {
      LeftoversAreUnconfirmed(base, packages, cleanup, n - 1);
      assert forall i | 0 <= i < n - 1 :: packages[..n][i] == packages[..n - 1][i];
      assert packages[..n][n - 1].id == base + n - 1;
    }
  }

  /** A failed CreatePod adds to the list what it loses, and that was not on it. */
  lemma FailedCreateLoses(st: State, key: PodKey, pod: Pod, w: World)
    requires Ascending(st.ids) && CreateFails(st, pod, w)
    ensures var lost := LostIn(st, CreateCall(key, pod, w));
      && (forall x :: x in Create(st, key, pod, w).ids <==> x in st.ids || x in lost)
      && (forall x | x in lost :: x !in st.ids)
  {
    hide Create, CreateFails, DeployAll, Unconfirmed, Ascending, NextId, Leftovers;
    var d := DeployAll(st, pod.images, w, |pod.images|);
    var base, m := NextId(st.ids), |d.packages|;
    DeployAllShape(st, pod.images, w, |pod.images|);
    FailedCreateLeaves(st, key, pod, w);
    RangeIsAscending(st.ids, 0);
    LeftoversBelow(base, w.cleanup, m);
    LeftoversAreUnconfirmed(base, d.packages, w.cleanup, m);
    assert d.packages[..m] == d.packages;
  }

  lemma FailedCreateBalances(st: State, key: PodKey, pod: Pod, w: World, lost: set<int>)
    requires IdsInv(st) && Balanced(st, lost) && CreateFails(st, pod, w)
    ensures Balanced(Create(st, key, pod, w), lost + LostIn(st, CreateCall(key, pod, w)))
  {
    hide Create, CreateFails, Tracked, LostIn;
    var st' := Create(st, key, pod, w);
    AscendingIds(st);
    FailedCreateLeaves(st, key, pod, w);
    FailedCreateLoses(st, key, pod, w);
    SameTracked(st, st');
  }

  lemma TrackedBy(st: State, k: PodKey, i: int)
    requires Owned(st, k, i)
    ensures Tracked(st, IdAt(st, k, i))
  {}

  lemma SameTracked(st: State, st': State)
    requires st'.pods == st.pods
    ensures forall x :: Tracked(st', x) <==> Tracked(st, x)
  {
    forall k, i | Owned(st, k, i) ensures Tracked(st', IdAt(st, k, i)) {
      TrackedBy(st', k, i);
    }
    forall k, i | Owned(st', k, i) ensures Tracked(st, IdAt(st', k, i)) {
      TrackedBy(st, k, i);
    }
  }

  /** Whose packages are under one key, and whose under the others. */
  lemma TrackedSplits(st: State, key: PodKey, x: int)
    requires key in st.pods
    ensures Tracked(st, x) <==> x in Ids(st.pods[key].packages) || Tracked(st.(pods := st.pods - {key}), x)
  {
    var others := st.(pods := st.pods - {key});
    forall k, i | Owned(st, k, i)
      ensures if k == key then IdAt(st, k, i) in Ids(st.pods[key].packages) else Tracked(others, IdAt(st, k, i))
    {
      if k != key { TrackedBy(others, k, i); }
    }
    forall k, i | Owned(others, k, i) ensures Tracked(st, IdAt(others, k, i)) {
      TrackedBy(st, k, i);
    }
    if x in Ids(st.pods[key].packages) {
      var i :| 0 <= i < |st.pods[key].packages| && st.pods[key].packages[i].id == x;
      TrackedBy(st, key, i);
    }
  }

  /** No other pod has an id of this one. */
  lemma OthersTrackOther(st: State, key: PodKey, x: int)
    requires IdsInv(st) && key in st.pods && x in Ids(st.pods[key].packages)
    ensures !Tracked(st.(pods := st.pods - {key}), x)
  {
    var others := st.(pods := st.pods - {key});
    var i :| 0 <= i < |st.pods[key].packages| && st.pods[key].packages[i].id == x;
    forall k, j | Owned(others, k, j) ensures IdAt(others, k, j) != x {
      assert Owned(st, k, j) && Owned(st, key, i) && k != key;
      assert IdAt(st, k, j) != IdAt(st, key, i);
    }
  }

  lemma SuccessBalances(st: State, key: PodKey, pod: Pod, w: World, lost: set<int>)
    requires IdsInv(st) && Balanced(st, lost) && !CreateFails(st, pod, w)
    ensures Balanced(Create(st, key, pod, w), lost + LostIn(st, CreateCall(key, pod, w)))
  {
    var st' := Create(st, key, pod, w);
    var base, n := NextId(st.ids), |pod.images|;
    SuccessfulCreate(st, key, pod, w);
    RangeIsAscending(st.ids, n);
    hide CreateFails, Create, NextId, Ids, Balanced;
    var kept, kept' := st.(pods := st.pods - {key}), st'.(pods := st'.pods - {key});
    SameTracked(kept, kept');
    NewIds(st'.pods[key].packages, base);
    forall x ensures x in st'.ids <==> Tracked(st', x) || x in lost + LostIn(st, CreateCall(key, pod, w))
      ensures x in lost + LostIn(st, CreateCall(key, pod, w)) ==> !Tracked(st', x)
    {
      SuccessBalancesAt(st, key, lost, x);
      TrackedSplits(st', key, x);
      assert x in Range(base, n) <==> base <= x < base + n by { RangeMembers(base, n, x); }
    }
    BalancedIs(st', lost + LostIn(st, CreateCall(key, pod, w)));
  }

  lemma BalancedIs(st: State, lost: set<int>)
    requires forall x :: x in st.ids <==> Tracked(st, x) || x in lost
    requires forall x :: x in lost ==> !Tracked(st, x)
    ensures Balanced(st, lost)
  {}

  lemma RangeMembers(base: int, n: nat, x: int)
    ensures x in Range(base, n) <==> base <= x < base + n
  {
    if base <= x < base + n { assert Range(base, n)[x - base] == x; }
  }

  lemma NewIds(packages: seq<Package>, base: int)
    requires forall i | 0 <= i < |packages| :: packages[i].id == base + i
    ensures forall x :: x in Ids(packages) <==> base <= x < base + |packages|
  {
    forall x | base <= x < base + |packages| ensures x in Ids(packages) {
      assert packages[x - base].id == x;
    }
  }

  /** What one id is before a key is given to new packages: of another pod, of the key's old packages, or lost. */
  lemma SuccessBalancesAt(st: State, key: PodKey, lost: set<int>, x: int)
    requires IdsInv(st) && Balanced(st, lost)
    ensures var own := if key in st.pods then Ids(st.pods[key].packages) else {};
      var others := Tracked(st.(pods := st.pods - {key}), x);
      (x in st.ids <==> others || x in own || x in lost) && (x in own + lost ==> !others) && !(x in own && x in lost)
  {
    if key in st.pods {
      TrackedSplits(st, key, x);
      if x in Ids(st.pods[key].packages) { OthersTrackOther(st, key, x); }
    } else {
      assert st.pods - {key} == st.pods;
    }
  }

  lemma DeleteBalances(st: State, key: PodKey, cleanup: nat -> Reply, lost: set<int>)
    requires IdsInv(st) && Balanced(st, lost) && key in st.pods
    ensures Balanced(Delete(st, key, cleanup), lost + Unconfirmed(st.pods[key].packages, cleanup))
  {
    var ps := st.pods[key].packages;
    var st' := Delete(st, key, cleanup);
    AscendingIds(st);
    DeleteTakesConfirmed(st, key, cleanup);
    SameTracked(st.(pods := st.pods - {key}), st');
    forall x ensures x in st'.ids <==> Tracked(st', x) || x in lost + Unconfirmed(ps, cleanup)
      ensures x in lost + Unconfirmed(ps, cleanup) ==> !Tracked(st', x)
    {
      SuccessBalancesAt(st, key, lost, x);
      UnconfirmedIds(st, key, cleanup, x);
      assert x in st'.ids <==> x in st.ids && !(x in Ids(ps) && x !in Unconfirmed(ps, cleanup));
    }
  }

  lemma UnconfirmedIds(st: State, key: PodKey, cleanup: nat -> Reply, x: int)
    requires IdsInv(st) && key in st.pods
    ensures var ps := st.pods[key].packages;
      x in Unconfirmed(ps, cleanup) <==>
        x in Ids(ps) && !exists i :: 0 <= i < |ps| && ps[i].id == x && cleanup(i) == Code(DELETED)
  {
    var ps := st.pods[key].packages;
    forall i, j | 0 <= i < |ps| && 0 <= j < |ps| && ps[i].id == ps[j].id ensures i == j {
      assert Owned(st, key, i) && Owned(st, key, j);
      assert IdAt(st, key, i) == IdAt(st, key, j);
    }
  }

  lemma UpdateBalances(st: State, key: PodKey, pod: Pod, lost: set<int>)
    requires Balanced(st, lost)
    ensures Balanced(Update(st, key, pod), lost)
  {
    var st' := Update(st, key, pod);
    forall k, i | Owned(st, k, i) ensures Tracked(st', IdAt(st, k, i)) {
      assert IdAt(st', k, i) == IdAt(st, k, i);
      TrackedBy(st', k, i);
    }
    forall k, i | Owned(st', k, i) ensures Tracked(st, IdAt(st', k, i)) {
      assert Owned(st, k, i) && IdAt(st', k, i) == IdAt(st, k, i);
      TrackedBy(st, k, i);
    }
  }

  /** Over every sequence of calls and remote outcomes, the list holds the tracked ids and the lost ones alone. */
  lemma {:induction false} ListIsTrackedAndLost(calls: seq<Call>)
    ensures Balanced(ApplyAll(calls), Lost(calls))
  {
    if calls == [] {
    } else {
      var before, last := calls[..|calls| - 1], calls[|calls| - 1];
      var st := ApplyAll(before);
      ListIsTrackedAndLost(before);
      IdsStayDistinct(before);
      match last
      case CreateCall(key, pod, w) =>
        if CreateFails(st, pod, w) {
          FailedCreateBalances(st, key, pod, w, Lost(before));
        } else {
          SuccessBalances(st, key, pod, w, Lost(before));
        }
      case UpdateCall(key, pod) => UpdateBalances(st, key, pod, Lost(before));
      case DeleteCall(key, cleanup) => if key in st.pods { DeleteBalances(st, key, cleanup, Lost(before)); }
    }
  }

  ghost predicate ListIsTracked(st: State) {
    forall x :: x in st.ids <==> Tracked(st, x)
  }

  ghost predicate Nothing(lost: set<int>) {
    forall x :: x !in lost
  }

  /** So the list is that of the tracked packages exactly when no call ever lost an id. */
  lemma ListIsTrackedExactly(calls: seq<Call>)
    ensures ListIsTracked(ApplyAll(calls)) <==> Nothing(Lost(calls))
  {
    hide Balanced, ListIsTracked, Nothing;
    ListIsTrackedAndLost(calls);
    NothingLostExactly(ApplyAll(calls), Lost(calls));
  }

  lemma NothingLostExactly(st: State, lost: set<int>)
    requires Balanced(st, lost)
    ensures ListIsTracked(st) <==> Nothing(lost)
  {
    hide Tracked;
  }

  /**
   A call loses an id: a creation that fails has the removal of a deployed package not confirmed, or leaves an
   instance of the package that failed; one that succeeds overwrites packages; a deletion has a removal not
   confirmed.
   */
  ghost predicate Loses(st: State, c: Call) {
    match c
    case CreateCall(key, pod, w) =>
      var d := DeployAll(st, pod.images, w, |pod.images|);
      if CreateFails(st, pod, w) then
        || (exists i :: 0 <= i < |d.packages| && w.cleanup(i) != Code(DELETED))
        || (d.failed && LeavesInstance(st, pod.images, w, |d.packages|))
      else key in st.pods && st.pods[key].packages != []
    case UpdateCall(key, pod) => false
    case DeleteCall(key, cleanup) =>
      key in st.pods && exists i :: 0 <= i < |st.pods[key].packages| && cleanup(i) != Code(DELETED)
  }

  lemma UnconfirmedExactly(packages: seq<Package>, cleanup: nat -> Reply)
    ensures Nothing(Unconfirmed(packages, cleanup)) <==> forall i | 0 <= i < |packages| :: cleanup(i) == Code(DELETED)
  {
    forall i | 0 <= i < |packages| && cleanup(i) != Code(DELETED)
      ensures packages[i].id in Unconfirmed(packages, cleanup)
    {}
  }

  lemma IdsExactly(packages: seq<Package>)
    ensures Nothing(Ids(packages)) <==> packages == []
  {
    if packages != [] { assert packages[0].id in Ids(packages); }
  }

  lemma LosesExactly(st: State, c: Call)
    ensures Nothing(LostIn(st, c)) <==> !Loses(st, c)
  {
    hide CreateFails, DeployAll, LeavesInstance, Unconfirmed, Ids;
    match c
    case CreateCall(key, pod, w) =>
      var d := DeployAll(st, pod.images, w, |pod.images|);
      if CreateFails(st, pod, w) {
        UnconfirmedExactly(d.packages, w.cleanup);
        TailExactly(st, pod.images, w, d);
      } else if key in st.pods {
        IdsExactly(st.pods[key].packages);
      }
    case UpdateCall(key, pod) =>
    case DeleteCall(key, cleanup) =>
      if key in st.pods { UnconfirmedExactly(st.pods[key].packages, cleanup); }
  }

  lemma TailExactly(st: State, images: seq<Image>, w: World, d: Deployment)
    ensures Nothing(Members(Tail(st, images, w, d)))
      <==> !(d.failed && LeavesInstance(st, images, w, |d.packages|))
  {
    hide LeavesInstance;
    var tail := Tail(st, images, w, d);
    if d.failed && LeavesInstance(st, images, w, |d.packages|) {
      assert tail[0] in Members(tail);
    }
  }

  ghost predicate NoneLoses(calls: seq<Call>) {
    calls == [] ||
    var before, last := calls[..|calls| - 1], calls[|calls| - 1];
    NoneLoses(before) && !Loses(ApplyAll(before), last)
  }

  lemma {:induction false} NothingLostCallByCall(calls: seq<Call>)
    ensures Nothing(Lost(calls)) <==> NoneLoses(calls)
  {
    if calls == [] {
    } else {
      var before, last := calls[..|calls| - 1], calls[|calls| - 1];
      NothingLostCallByCall(before);
      LosesExactly(ApplyAll(before), last);
      NothingInBoth(Lost(before), LostIn(ApplyAll(before), last));
    }
  }

  lemma NothingInBoth(a: set<int>, b: set<int>)
    ensures Nothing(a + b) <==> Nothing(a) && Nothing(b)
  {
    if Nothing(a + b) {
      forall x ensures x !in a && x !in b {
        assert x !in a + b;
      }
    }
  }

  /**
   Over every sequence of calls, the list is that of the tracked packages exactly when none of the calls left
   a removal unconfirmed or overwrote the packages of a tracked pod.
   */
  lemma ListIsTrackedCallByCall(calls: seq<Call>)
    ensures ListIsTracked(ApplyAll(calls)) <==> NoneLoses(calls)
  {
    hide ListIsTracked, Nothing;
    ListIsTrackedExactly(calls);
    NothingLostCallByCall(calls);
  }

  /** A creation under a new key, or a deletion, in which every removal that is asked for is confirmed. */
  ghost predicate Careful(st: State, c: Call) {
    && (c.CreateCall? ==>
          && c.key !in st.pods
          && forall n: nat :: c.w.cleanup(n) == Code(DELETED) && c.w.replies(n).remove == Code(DELETED))
    && (c.DeleteCall? ==> forall n: nat :: c.cleanup(n) == Code(DELETED))
  }

  ghost predicate AllCareful(calls: seq<Call>) {
    calls == [] ||
    var before, last := calls[..|calls| - 1], calls[|calls| - 1];
    AllCareful(before) && Careful(ApplyAll(before), last)
  }

  /** Then nothing is lost, and the list is that of the tracked packages. */
  lemma {:induction false} CarefulLosesNothing(calls: seq<Call>)
    requires AllCareful(calls)
    ensures Nothing(Lost(calls)) && ListIsTracked(ApplyAll(calls))
  {
    hide ListIsTracked;
    ListIsTrackedExactly(calls);
    if calls == [] {
    } else {
      var before, last := calls[..|calls| - 1], calls[|calls| - 1];
      CarefulLosesNothing(before);
      CarefulCall(ApplyAll(before), last);
    }
  }

  lemma CarefulCall(st: State, c: Call)
    requires Careful(st, c)
    ensures Nothing(LostIn(st, c))
  {}

  /** Overwriting a key does lose ids: two creations under one key, and a deletion that succeeds, leave id 0 behind. */
  lemma OverwritingLoses(key: PodKey, a: Image, b: Image, file: string)
    requires a != b
    ensures var w := Willing(file);
      var calls := [CreateCall(key, Pod([a]), w), CreateCall(key, Pod([b]), w), DeleteCall(key, w.cleanup)];
      ApplyAll(calls) == State(map[], [0])
  {
    var w := Willing(file);
    var first, second := CreateCall(key, Pod([a]), w), CreateCall(key, Pod([b]), w);
    var calls := [first, second, DeleteCall(key, w.cleanup)];
    assert [first] == [] + [first] && [first, second] == [first] + [second] && calls == [first, second] + [calls[2]];
    ApplyLast([], first);
    ApplyLast([first], second);
    ApplyLast([first, second], calls[2]);
    hide ApplyAll, Create, Installed;
    var one, two := Create(EMPTY, key, Pod([a]), w), Create(Create(EMPTY, key, Pod([a]), w), key, Pod([b]), w);
    NotInstalled(EMPTY.pods, a);
    OneMore(EMPTY, key, a, file);
    assert one.pods[key].packages == [Package(0, file, a)] && one.pods.Keys == {key};
    NotInstalled(one.pods, b);
    OneMore(one, key, b, file);
    assert two == State(map[key := ProviderPod(Pod([b]), [Package(1, file, b)])], [0, 1]);
    LastIsRemoved(two.pods[key].packages, w.cleanup);
    assert two.pods - {key} == map[];
  }

  lemma ApplyLast(calls: seq<Call>, c: Call)
    ensures ApplyAll(calls + [c]) == Apply(ApplyAll(calls), c)
  {
    assert (calls + [c])[..|calls|] == calls;
  }

  lemma NotInstalled(pods: map<PodKey, ProviderPod>, image: Image)
    requires forall k | k in pods :: |pods[k].packages| == 1 && pods[k].packages[0].image != image
    ensures !Installed(pods, image)
  {}

  lemma LastIsRemoved(packages: seq<Package>, cleanup: nat -> Reply)
    requires |packages| == 1 && packages[0].id == 1 && cleanup(0) == Code(DELETED)
    ensures CleanUp([0, 1], packages, cleanup, 1) == [0]
  {
    assert CleanUp([0, 1], packages, cleanup, 0) == [0, 1];
    assert [0, 1][1..] == [1] && [1][1..] == [];
    assert Without([1], 1) == [];
  }

  /** A far edge that does all it is asked for. */
  function Willing(file: string): World {
    var ok := Replies(Code(CREATED), Code(CHANGED), Code(CHANGED), Code(CHANGED), Code(DELETED));
    World((n: nat) => Some(file), (n: nat) => ok, NotRequested, (n: nat) => Code(DELETED))
  }

  lemma OneMore(st: State, key: PodKey, image: Image, file: string)
    requires !Installed(st.pods, image)
    ensures Create(st, key, Pod([image]), Willing(file)) ==
      State(st.pods[key := ProviderPod(Pod([image]), [Package(NextId(st.ids), file, image)])],
            st.ids + [NextId(st.ids)])
  {
    assert DeployAll(st, [image], Willing(file), 1) ==
      Deployment(st.ids + [NextId(st.ids)], [Package(NextId(st.ids), file, image)], false);
  }
}
