/** Which services a pod's environment speaks of, after getServiceEnvVarMap in internal/podutils/env.go. */
module Services {
  import opened Options

  datatype Service = Service(namespace: string, name: string, clusterIP: string)

  const DEFAULT_NAMESPACE := "default"
  const MASTER_SERVICES := {"kubernetes"}

  predicate IsServiceIPSet(s: Service) {
    s.clusterIP != "None" && s.clusterIP != ""
  }

  /** A master service is seen from every namespace. */
  predicate Master(s: Service) {
    IsServiceIPSet(s) && s.namespace == DEFAULT_NAMESPACE && s.name in MASTER_SERVICES
  }

  /** A service of the pod's own namespace is seen if service links are enabled. */
  predicate Own(s: Service, ns: string, links: bool) {
    IsServiceIPSet(s) && !Master(s) && s.namespace == ns && links
  }

  function LastOwn(services: seq<Service>, ns: string, links: bool, name: string): Option<Service> {
    if services == [] then None
    else
      var n := |services| - 1;
      if Own(services[n], ns, links) && services[n].name == name then Some(services[n])
      else LastOwn(services[..n], ns, links, name)
  }

  function FirstMaster(services: seq<Service>, name: string): Option<Service> {
    if services == [] then None
    else
      var n := |services| - 1;
      var earlier := FirstMaster(services[..n], name);
      if earlier.Some? then earlier
      else if Master(services[n]) && services[n].name == name then Some(services[n])
      else None
  }

  /** Own services win over master services of the same name. */
  function Chosen(services: seq<Service>, ns: string, links: bool, name: string): Option<Service> {
    var own := LastOwn(services, ns, links, name);
    if own.Some? then own else FirstMaster(services, name)
  }

  method ProjectServices(services: seq<Service>, ns: string, links: bool) returns (serviceMap: map<string, Service>)
    ensures forall name ::
      Chosen(services, ns, links, name) == if name in serviceMap then Some(serviceMap[name]) else None
  {
    serviceMap := map[];
    for i := 0 to |services|
      invariant forall name ::
        Chosen(services[..i], ns, links, name) == if name in serviceMap then Some(serviceMap[name]) else None
    {
      assert services[..i + 1][..i] == services[..i];
      var service := services[i];
      if IsServiceIPSet(service) {
        if service.namespace == DEFAULT_NAMESPACE && service.name in MASTER_SERVICES {
          if service.name !in serviceMap {
            serviceMap := serviceMap[service.name := service];
          }
        } else if service.namespace == ns && links {
          serviceMap := serviceMap[service.name := service];
        }
      }
    }
    assert services[..|services|] == services;
  }

  /** A cluster has one service of a name in a namespace. */
  predicate Distinct(services: seq<Service>) {
    forall i, j | 0 <= i < j < |services| ::
      services[i].namespace != services[j].namespace || services[i].name != services[j].name
  }

  predicate Wins(services: seq<Service>, ns: string, links: bool, s: Service) {
    && s in services
    && (Own(s, ns, links) || (Master(s) && forall t | t in services :: !(Own(t, ns, links) && t.name == s.name)))
  }

  lemma {:induction false} LastOwnMembers(services: seq<Service>, ns: string, links: bool, name: string)
    ensures var own := LastOwn(services, ns, links, name);
      && (own.Some? ==> own.value in services && Own(own.value, ns, links) && own.value.name == name)
      && (own.None? ==> forall t | t in services :: !(Own(t, ns, links) && t.name == name))
  {
    if services == [] {
    } else {
      LastOwnMembers(services[..|services| - 1], ns, links, name);
    }
  }

  lemma {:induction false} FirstMasterMembers(services: seq<Service>, name: string)
    ensures var m := FirstMaster(services, name);
      && (m.Some? ==> m.value in services && Master(m.value) && m.value.name == name)
      && (m.None? ==> forall t | t in services :: !(Master(t) && t.name == name))
  {
    if services == [] {
    } else {
      FirstMasterMembers(services[..|services| - 1], name);
    }
  }

  /** Which services are seen, and as what. */
  lemma SeenExactly(s: Service, ns: string, links: bool)
    ensures Master(s) <==> s.clusterIP !in {"", "None"} && s.namespace == "default" && s.name == "kubernetes"
    ensures Own(s, ns, links) <==>
      && s.clusterIP !in {"", "None"} && links && s.namespace == ns
      && !(s.namespace == "default" && s.name == "kubernetes")
  {}

  lemma {:induction false} LastOwnIsLast(services: seq<Service>, ns: string, links: bool, name: string, i: nat)
    requires i < |services| && Own(services[i], ns, links) && services[i].name == name
    requires forall j | i < j < |services| :: !(Own(services[j], ns, links) && services[j].name == name)
    ensures LastOwn(services, ns, links, name) == Some(services[i])
  {
    if i == |services| - 1 {
    } else {
      LastOwnIsLast(services[..|services| - 1], ns, links, name, i);
    }
  }

  lemma {:induction false} FirstMasterIsFirst(services: seq<Service>, name: string, i: nat)
    requires i < |services| && Master(services[i]) && services[i].name == name
    requires forall j | 0 <= j < i :: !(Master(services[j]) && services[j].name == name)
    ensures FirstMaster(services, name) == Some(services[i])
  {
    if i == |services| - 1 {
      FirstMasterMembers(services[..i], name);
    } else {
      FirstMasterIsFirst(services[..|services| - 1], name, i);
    }
  }

  /**
   In any list, with names repeated or not, the last own service of a name is chosen; without one, the first master
   service; and without either, none.
   */
  lemma ChosenByPosition(services: seq<Service>, ns: string, links: bool, name: string)
    ensures forall i |
      && 0 <= i < |services| && Own(services[i], ns, links) && services[i].name == name
      && (forall j | i < j < |services| :: !(Own(services[j], ns, links) && services[j].name == name)) ::
        Chosen(services, ns, links, name) == Some(services[i])
    ensures (forall s | s in services && s.name == name :: !Own(s, ns, links)) ==>
      forall i |
        && 0 <= i < |services| && Master(services[i]) && services[i].name == name
        && (forall j | 0 <= j < i :: !(Master(services[j]) && services[j].name == name)) ::
          Chosen(services, ns, links, name) == Some(services[i])
    ensures (forall s | s in services && s.name == name :: !Own(s, ns, links) && !Master(s)) ==>
      Chosen(services, ns, links, name) == None
  {
    LastOwnMembers(services, ns, links, name);
    FirstMasterMembers(services, name);
    forall i |
      && 0 <= i < |services| && Own(services[i], ns, links) && services[i].name == name
      && (forall j | i < j < |services| :: !(Own(services[j], ns, links) && services[j].name == name))
      ensures Chosen(services, ns, links, name) == Some(services[i])
    {
      LastOwnIsLast(services, ns, links, name, i);
    }
    forall i |
      && 0 <= i < |services| && Master(services[i]) && services[i].name == name
      && (forall j | 0 <= j < i :: !(Master(services[j]) && services[j].name == name))
      ensures FirstMaster(services, name) == Some(services[i])
    {
      FirstMasterIsFirst(services, name, i);
    }
  }

  /** In a cluster the winner is unique, and it is what the program chooses. */
  lemma ChosenExactly(services: seq<Service>, ns: string, links: bool, s: Service)
    requires Distinct(services)
    ensures Chosen(services, ns, links, s.name) == Some(s) <==> Wins(services, ns, links, s)
  {
    LastOwnMembers(services, ns, links, s.name);
    FirstMasterMembers(services, s.name);
  }

  /** The order in which the services are listed does not matter. */
  lemma OrderDoesNotMatter(services: seq<Service>, others: seq<Service>, ns: string, links: bool, name: string)
    requires Distinct(services) && Distinct(others)
    requires forall s :: s in services <==> s in others
    ensures Chosen(services, ns, links, name) == Chosen(others, ns, links, name)
  {
    var a, b := Chosen(services, ns, links, name), Chosen(others, ns, links, name);
    LastOwnMembers(services, ns, links, name);
    FirstMasterMembers(services, name);
    LastOwnMembers(others, ns, links, name);
    FirstMasterMembers(others, name);
    if a.Some? {
      ChosenExactly(services, ns, links, a.value);
      ChosenExactly(others, ns, links, a.value);
    }
  }
}
