/** The provider as the program keeps it: the table of pods and the gateway's list, changed call by call. */
module PodProvider {
  import opened Options
  import GW = NextGenGW
  import Spec = ProviderSpec

  class Provider {
    var pods: map<Spec.PodKey, Spec.ProviderPod>
    const gateway: GW.Gateway

    ghost function Abs(): Spec.State
      reads this, gateway
    {
      Spec.State(pods, gateway.instanceInUse)
    }

    constructor ()
      ensures Abs() == Spec.EMPTY && gateway.Valid() && fresh(gateway)
    {
      pods := map[];
      gateway := new GW.Gateway();
    }

    /** The uniqueness check: every package of every tracked pod, in no particular order. */
    method IsInstalled(image: Spec.Image) returns (found: bool)
      ensures found == Spec.Installed(pods, image)
    {
      found := false;
      var keys := pods.Keys;
      while keys != {}
        invariant keys <= pods.Keys
        invariant found <==> exists k | k in pods && k !in keys :: Spec.HasImage(pods[k].packages, image)
        decreases keys
      {
        var k :| k in keys;
        var packages := pods[k].packages;
        for i := 0 to |packages|
          invariant found <==>
            (exists k' | k' in pods && k' !in keys :: Spec.HasImage(pods[k'].packages, image))
            || exists j :: 0 <= j < i && packages[j].image == image
        {
          if image == packages[i].image {
            found := true;
          }
        }
        keys := keys - {k};
      }
    }

    /** `key` is absent when the pod has no namespace or no name. */
    method CreatePod(key: Option<Spec.PodKey>, pod: Spec.Pod, w: Spec.World) returns (err: bool)
      requires gateway.Valid()
      modifies this, gateway
      ensures gateway.Valid()
      ensures key.None? ==> err && Abs() == old(Abs())
      ensures key.Some? ==> Abs() == Spec.Create(old(Abs()), key.value, pod, w)
      ensures key.Some? ==> err == Spec.CreateFails(old(Abs()), pod, w)
    {
      if key.None? {
        return true;
      }
      ghost var st := Abs();
      var deployFailed := false;
      var packages: seq<Spec.Package> := [];
      var n := 0;
      while n < |pod.images| && !deployFailed
        invariant n <= |pod.images| && gateway.Valid() && pods == st.pods
        invariant Spec.DeployAll(st, pod.images, w, n) == Spec.Deployment(gateway.instanceInUse, packages, deployFailed)
      {
        deployFailed := IsInstalled(pod.images[n]);
        var fetched := w.fetch(n);
        if !deployFailed && fetched.None? {
          deployFailed := true;
        }
        if !deployFailed {
          var packageId, err := gateway.DeployPackage(w.replies(n));
          if err {
            deployFailed := true;
          } else {
            packages := packages + [Spec.Package(packageId, fetched.value, pod.images[n])];
          }
        }
        n := n + 1;
      }
      StopsAtFailure(st, pod.images, w, n);
      if w.adapter.AdapterFailed? && !deployFailed {
        deployFailed := true;
      }
      if deployFailed {
        RemoveAll(packages, w.cleanup);
        return true;
      }
      pods := pods[key.value := Spec.ProviderPod(pod, packages)];
      return false;
    }

    static lemma StopsAtFailure(st: Spec.State, images: seq<Spec.Image>, w: Spec.World, n: nat)
      requires n <= |images| && (n == |images| || Spec.DeployAll(st, images, w, n).failed)
      ensures Spec.DeployAll(st, images, w, |images|) == Spec.DeployAll(st, images, w, n)
      decreases |images| - n
    {
      if n < |images| { StopsAtFailure(st, images, w, n + 1); }
    }

    method RemoveAll(packages: seq<Spec.Package>, cleanup: nat -> GW.Reply)
      requires gateway.Valid()
      modifies gateway
      ensures gateway.Valid()
      ensures gateway.instanceInUse == Spec.CleanUp(old(gateway.instanceInUse), packages, cleanup, |packages|)
    {
      for n := 0 to |packages|
        invariant gateway.Valid()
        invariant gateway.instanceInUse == Spec.CleanUp(old(gateway.instanceInUse), packages, cleanup, n)
      {
        var _ := gateway.RemovePackage(packages[n].id, cleanup(n));
      }
    }

    method UpdatePod(key: Option<Spec.PodKey>, pod: Spec.Pod) returns (err: bool)
      modifies this
      ensures err == key.None?
      ensures Abs() == if err then old(Abs()) else Spec.Update(old(Abs()), key.value, pod)
    {
      if key.None? {
        return true;
      }
      var packages := if key.value in pods then pods[key.value].packages else [];
      pods := pods[key.value := Spec.ProviderPod(pod, packages)];
      return false;
    }

    method DeletePod(key: Option<Spec.PodKey>, cleanup: nat -> GW.Reply) returns (err: bool)
      requires gateway.Valid()
      modifies this, gateway
      ensures gateway.Valid()
      ensures err == (key.None? || key.value !in old(pods))
      ensures Abs() == if err then old(Abs()) else Spec.Delete(old(Abs()), key.value, cleanup)
    {
      if key.None? || key.value !in pods {
        return true;
      }
      RemoveAll(pods[key.value].packages, cleanup);
      pods := pods - {key.value};
      return false;
    }
  }
}
