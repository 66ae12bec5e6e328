/**
 The provider's table of pods and what CreatePod, UpdatePod and DeletePod of
 providers/fhpAicos/fhpAicos.go make of it and of the instance ids, in NextGenGW mode, on values.
 Each call is one atomic step; the outside world's answers are given beforehand.
 */
module ProviderSpec {
  import opened Options
  import opened NextGenGW

  // A key of the table. Distinct pods may share one; nothing here relies on their not doing so.
  type PodKey = string
  type Image = string

  datatype Package = Package(id: int, file: string, image: Image)

  /** A pod, as far as the table is concerned: its containers' images, in order. */
  datatype Pod = Pod(images: seq<Image>)

  datatype ProviderPod = ProviderPod(pod: Pod, packages: seq<Package>)

  datatype Adapter = NotRequested | AdapterDeployed | AdapterFailed

  /**
   The answers a CreatePod meets: per container the fetched file and the deployment's replies, per leftover
   package the removal's.
   */
  datatype World = World(fetch: nat -> Option<string>, replies: nat -> Replies, adapter: Adapter, cleanup: nat -> Reply)

  datatype State = State(pods: map<PodKey, ProviderPod>, ids: seq<int>)

  /** An image is installed when some tracked pod has a package of it. */
  predicate Installed(pods: map<PodKey, ProviderPod>, image: Image) {
    exists k | k in pods :: HasImage(pods[k].packages, image)
  }

  predicate HasImage(packages: seq<Package>, image: Image) {
    exists i :: 0 <= i < |packages| && packages[i].image == image
  }

  datatype Deployment = Deployment(ids: seq<int>, packages: seq<Package>, failed: bool)

  /** Deploy the package of one more container. */
  function DeployNext(
    pods: map<PodKey, ProviderPod>, d: Deployment, image: Image, fetched: Option<string>, r: Replies): Deployment
  {
    if Installed(pods, image) || fetched.None? then d.(failed := true)
    else if !Deploys(r) then d.(ids := Deploy(d.ids, r), failed := true)
    else Deployment(Deploy(d.ids, r), d.packages + [Package(NextId(d.ids), fetched.value, image)], false)
  }

  /** The deployment loop over the first `n` containers; it stops at the first failure. */
  function DeployAll(st: State, images: seq<Image>, w: World, n: nat): Deployment
    requires n <= |images|
  {
    if n == 0 then Deployment(st.ids, [], false)
    else
      var d := DeployAll(st, images, w, n - 1);
      if d.failed then d else DeployNext(st.pods, d, images[n - 1], w.fetch(n - 1), w.replies(n - 1))
  }

  /** Remove the first `n` packages, in order, each as the far edge replies. */
  function CleanUp(ids: seq<int>, packages: seq<Package>, cleanup: nat -> Reply, n: nat): seq<int>
    requires n <= |packages|
  {
    if n == 0 then ids
    else Remove(CleanUp(ids, packages, cleanup, n - 1), packages[n - 1].id, cleanup(n - 1))
  }

  predicate CreateFails(st: State, pod: Pod, w: World) {
    DeployAll(st, pod.images, w, |pod.images|).failed || w.adapter.AdapterFailed?
  }

  function Create(st: State, key: PodKey, pod: Pod, w: World): State {
    var d := DeployAll(st, pod.images, w, |pod.images|);
    if CreateFails(st, pod, w)
    then st.(ids := CleanUp(d.ids, d.packages, w.cleanup, |d.packages|))
    else State(st.pods[key := ProviderPod(pod, d.packages)], d.ids)
  }

  /** Updating an untracked pod tracks it with no packages. */
  function Update(st: State, key: PodKey, pod: Pod): State {
    st.(pods := st.pods[key := ProviderPod(pod, if key in st.pods then st.pods[key].packages else [])])
  }

  function Delete(st: State, key: PodKey, cleanup: nat -> Reply): State {
    if key !in st.pods then st
    else
      var packages := st.pods[key].packages;
      State(st.pods - {key}, CleanUp(st.ids, packages, cleanup, |packages|))
  }

  // ---------- Sequences of calls ----------

  datatype Call =
    | CreateCall(key: PodKey, pod: Pod, w: World)
    | UpdateCall(key: PodKey, pod: Pod)
    | DeleteCall(key: PodKey, cleanup: nat -> Reply)

  function Apply(st: State, c: Call): State {
    match c
    case CreateCall(key, pod, w) => Create(st, key, pod, w)
    case UpdateCall(key, pod) => Update(st, key, pod)
    case DeleteCall(key, cleanup) => Delete(st, key, cleanup)
  }

  const EMPTY := State(map[], [])

  function ApplyAll(calls: seq<Call>): State {
    if calls == [] then EMPTY else Apply(ApplyAll(calls[..|calls| - 1]), calls[|calls| - 1])
  }
}
