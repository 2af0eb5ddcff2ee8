/** From a changed Secret to the Coherence resources to reconcile: those whose spec names the Secret,
    and those with a live Pod whose annotation still names it. */
module SecretIndex {
  import opened Wrappers

  /** The Secrets a health connection names: credentials, CA bundle, server identity. */
  datatype BasicAuth = BasicAuth(username: string, password: string)
  datatype Connection = Connection(
    basicAuth: Option<BasicAuth>, caSecret: Option<string>, serverTLS: Option<Option<string>>)

  datatype Coherence = Coherence(namespace: string, name: string, connection: Option<Connection>,
                                 cluster: Option<string>, role: string, app: Option<string>, version: Option<string>)

  type Labels = map<string, string>

  /** A Pod; its annotation is absent here if it is missing or does not decode. */
  datatype Pod = Pod(namespace: string, labels: Labels, annotation: Option<Connection>)

  datatype SecretRef = SecretRef(namespace: string, name: string)

  datatype Request = Request(namespace: string, name: string)

  const COMPONENT := "coherenceComponent"
  const COHERENCE_POD := "coherencePod"
  const DEPLOYMENT := "coherenceDeployment"

  // ----- What it means to be affected ----------------------------------------------------------------

  /** The names of all the Secrets that a connection names. */
  function Named(c: Option<Connection>): set<string> {
    if c.None? then {}
    else
      (if c.value.basicAuth.Some? then {c.value.basicAuth.value.username, c.value.basicAuth.value.password} else {})
      + (if c.value.caSecret.Some? then {c.value.caSecret.value} else {})
      + (if c.value.serverTLS.Some? && c.value.serverTLS.value.Some? then {c.value.serverTLS.value.value} else {})
  }

  /** A missing label reads as the empty string. */
  function Label(labels: Labels, key: string): string {
    if key in labels then labels[key] else ""
  }

  function ClusterName(r: Coherence): string {
    r.cluster.GetOr(r.name)
  }

  function RoleName(r: Coherence): string {
    if r.role != "" then r.role else r.name
  }

  /** The Pod carries every label by which the resource selects its Pods. */
  predicate Selects(r: Coherence, labels: Labels) {
    && Label(labels, DEPLOYMENT) == r.name
    && Label(labels, "coherenceCluster") == ClusterName(r)
    && Label(labels, "coherenceRole") == RoleName(r)
    && (r.app.Some? ==> Label(labels, "app") == r.app.value)
    && (r.version.Some? ==> Label(labels, "version") == r.version.value)
    && Label(labels, COMPONENT) == COHERENCE_POD
  }

  predicate LiveUse(r: Coherence, p: Pod, secret: SecretRef) {
    p.namespace == r.namespace && Selects(r, p.labels) && secret.name in Named(p.annotation)
  }

  ghost predicate Affected(r: Coherence, pods: seq<Pod>, secret: SecretRef) {
    && r.namespace == secret.namespace
    && (secret.name in Named(r.connection) || exists p :: p in pods && LiveUse(r, p, secret))
  }

  /** The naive search: for every resource in turn, look through all Pods. */
  ghost function Requests(rs: seq<Coherence>, pods: seq<Pod>, secret: SecretRef): seq<Request> {
    if rs == [] then []
    else
      var before, r := Requests(rs[..|rs| - 1], pods, secret), rs[|rs| - 1];
      if Affected(r, pods, secret) then before + [Request(r.namespace, r.name)] else before
  }

  // ----- The source's methods ------------------------------------------------------------------------

  method Matches(c: Option<Connection>, name: string) returns (r: bool)
    ensures r <==> name in Named(c)
    ensures r <==>
              && c.Some?
              && (|| (c.value.basicAuth.Some? && name == c.value.basicAuth.value.username)
                  || (c.value.basicAuth.Some? && name == c.value.basicAuth.value.password)
                  || c.value.caSecret == Some(name) || c.value.serverTLS == Some(Some(name)))
  {
    if c.None? {
      return false;
    }
    r := (c.value.basicAuth.Some? &&
          (c.value.basicAuth.value.username == name || c.value.basicAuth.value.password == name)) ||
         (c.value.caSecret.Some? && c.value.caSecret.value == name) ||
         (c.value.serverTLS.Some? && c.value.serverTLS.value.Some? && c.value.serverTLS.value.value == name);
  }

  method CreatePodSelectorLabels(r: Coherence) returns (selector: Labels)
    ensures forall labels: Labels :: Carries(labels, selector) <==> Selects(r, labels)
    ensures selector.Keys == {"coherenceDeployment", "coherenceCluster", "coherenceRole", "coherenceComponent"}
                             + (if r.app.Some? then {"app"} else {}) + (if r.version.Some? then {"version"} else {})
    ensures selector["coherenceDeployment"] == r.name && selector["coherenceComponent"] == "coherencePod"
    ensures selector["coherenceCluster"] == if r.cluster.Some? then r.cluster.value else r.name
    ensures selector["coherenceRole"] == if r.role == "" then r.name else r.role
    ensures (r.app.Some? ==> selector["app"] == r.app.value) &&
            (r.version.Some? ==> selector["version"] == r.version.value)
  {
    selector := map[];
    selector := selector[DEPLOYMENT := r.name];
    selector := selector["coherenceCluster" := ClusterName(r)];
    selector := selector["coherenceRole" := RoleName(r)];
    if r.app.Some? {
      selector := selector["app" := r.app.value];
    }
    if r.version.Some? {
      selector := selector["version" := r.version.value];
    }
    selector := selector[COMPONENT := COHERENCE_POD];
    SelectorIsSelects(r, selector);
  }

  ghost predicate Carries(labels: Labels, selector: Labels) {
    forall k :: k in selector ==> Label(labels, k) == selector[k]
  }

  /** `matchesLabels`: the keys come in any order. */
  method MatchesLabels(labels: Labels, selector: Labels) returns (r: bool)
    ensures r <==> Carries(labels, selector)
  {
    var keys := selector.Keys;
    while keys != {}
      invariant keys <= selector.Keys
      invariant forall k :: k in selector && k !in keys ==> Label(labels, k) == selector[k]
      decreases keys
    {
      var key :| key in keys;
      if Label(labels, key) != selector[key] {
        return false;
      }
      keys := keys - {key};
    }
    return true;
  }

  /** The client of the API server, over all namespaces; it counts how often Pods are listed. */
  class Client {
    const resources: seq<Coherence>
    const pods: seq<Pod>
    var podLists: nat

    constructor (resources: seq<Coherence>, pods: seq<Pod>)
      ensures this.resources == resources && this.pods == pods && podLists == 0
    {
      this.resources, this.pods, podLists := resources, pods, 0;
    }

    method ListResources(namespace: string) returns (items: seq<Coherence>)
      ensures items == InNamespace(resources, namespace)
    {
      items := [];
      for i := 0 to |resources|
        invariant items == InNamespace(resources[..i], namespace)
      {
        assert resources[..i + 1][..i] == resources[..i];
        if resources[i].namespace == namespace {
          items := items + [resources[i]];
        }
      }
      assert resources[..|resources|] == resources;
    }

    method ListPods(namespace: string, component: string, fails: bool) returns (ok: bool, items: seq<Pod>)
      modifies this
      ensures ok == !fails && podLists == old(podLists) + 1
      ensures ok ==> forall p :: p in items <==> p in pods && IsListed(p, namespace, component)
    {
      podLists := podLists + 1;
      ok, items := !fails, [];
      if fails {
        return;
      }
      for i := 0 to |pods|
        invariant ok == !fails && podLists == old(podLists) + 1
        invariant forall p :: p in items <==> p in pods[..i] && IsListed(p, namespace, component)
      {
        assert pods[..i + 1] == pods[..i] + [pods[i]];
        if IsListed(pods[i], namespace, component) {
          items := items + [pods[i]];
        }
      }
      assert pods[..|pods|] == pods;
    }
  }

  predicate IsListed(p: Pod, namespace: string, component: string) {
    p.namespace == namespace && COMPONENT in p.labels && p.labels[COMPONENT] == component
  }

  function InNamespace(rs: seq<Coherence>, namespace: string): seq<Coherence> {
    if rs == [] then []
    else
      var before, r := InNamespace(rs[..|rs| - 1], namespace), rs[|rs| - 1];
      if r.namespace == namespace then before + [r] else before
  }

  /** Names are unique within a namespace. */
  predicate UniqueNames(rs: seq<Coherence>) {
    forall i, j :: 0 <= i < j < |rs| && rs[i].namespace == rs[j].namespace ==> rs[i].name != rs[j].name
  }

  /** Where one resource stands in the two maps. */
  ghost predicate Placed(r: Coherence, affected: bool, matched: map<string, bool>, unmatched: map<string, Coherence>) {
    if affected then r.name in matched && matched[r.name] && r.name !in unmatched
    else r.name !in matched && r.name in unmatched && unmatched[r.name] == r
  }

  /** The two maps split the resources by whether the Pods seen so far affect them. */
  ghost predicate Split(rs: seq<Coherence>, pods: seq<Pod>, secret: SecretRef,
                        matched: map<string, bool>, unmatched: map<string, Coherence>) {
    && (forall r :: r in rs ==> Placed(r, Affected(r, pods, secret), matched, unmatched))
    && (forall n :: n in unmatched ==> unmatched[n] in rs && unmatched[n].name == n)
    && (forall n :: n in matched ==> matched[n] && exists r :: r in rs && r.name == n)
  }

  /** `mapHealthSecretRequests`, with either list call failing or not. It finds what the naive search
      finds, and lists the Pods once, or not at all if the specs alone call for all the resources. */
  method MapHealthSecretRequests(kube: Client, secret: SecretRef, resourcesFail: bool, podsFail: bool)
    returns (requests: seq<Request>)
    requires UniqueNames(kube.resources)
    modifies kube
    ensures requests == if resourcesFail then []
                        else Requests(kube.resources, if podsFail then [] else kube.pods, secret)
    ensures kube.podLists == old(kube.podLists) +
              if resourcesFail || Requests(kube.resources, [], secret) ==
                  AllIn(kube.resources, secret.namespace) then 0 else 1
  {
    if resourcesFail {
      return [];
    }
    var resources := kube.ListResources(secret.namespace);
    ListedIn(kube.resources, secret.namespace);
    ListedUnique(kube.resources, secret.namespace);
    var matched, unmatched := FirstPhase(resources, secret);
    ghost var pods: seq<Pod> := [];
    if |unmatched| > 0 {
      SomeUnmatched(kube.resources, resources, secret, matched, unmatched);
      var ok, listed := kube.ListPods(secret.namespace, COHERENCE_POD, podsFail);
      if ok {
        matched, unmatched := SecondPhase(resources, listed, secret, matched, unmatched);
        SamePods(resources, listed, kube.pods, secret);
        pods := kube.pods;
      }
    } else {
      NoneUnmatched(resources, kube.pods, secret, matched, unmatched);
      AllAffected(kube.resources, secret);
      if !podsFail {
        pods := kube.pods;
      }
    }
    requests := Collect(resources, pods, secret, matched);
    ListedRequests(kube.resources, pods, secret);
  }

  method FirstPhase(resources: seq<Coherence>, secret: SecretRef)
    returns (matched: map<string, bool>, unmatched: map<string, Coherence>)
    requires UniqueNames(resources) && forall r :: r in resources ==> r.namespace == secret.namespace
    ensures Split(resources, [], secret, matched, unmatched)
  {
    matched, unmatched := map[], map[];
    for i := 0 to |resources|
      invariant Split(resources[..i], [], secret, matched, unmatched)
    {
      var resource := resources[i];
      assert resources[..i + 1] == resources[..i] + [resource] && resource in resources;
      ghost var m, u := matched, unmatched;
      NewName(resources, i);
      var hit := Matches(resource.connection, secret.name);
      if hit {
        matched := matched[resource.name := true];
      } else {
        unmatched := unmatched[resource.name := resource];
      }
      SplitSnoc(resources[..i], resource, secret, m, u, matched, unmatched);
    }
    assert resources[..|resources|] == resources;
  }

  method SecondPhase(resources: seq<Coherence>, pods: seq<Pod>, secret: SecretRef,
                     matched0: map<string, bool>, unmatched0: map<string, Coherence>)
    returns (matched: map<string, bool>, unmatched: map<string, Coherence>)
    requires UniqueNames(resources) && forall r :: r in resources ==> r.namespace == secret.namespace
    requires forall p :: p in pods ==> p.namespace == secret.namespace
    requires Split(resources, [], secret, matched0, unmatched0)
    ensures Split(resources, pods, secret, matched, unmatched)
  {
    matched, unmatched := matched0, unmatched0;
    for i := 0 to |pods|
      invariant Split(resources, pods[..i], secret, matched, unmatched)
    {
      var pod := pods[i];
      assert pods[..i + 1] == pods[..i] + [pod] && pod in pods;
      var deployment := Label(pod.labels, DEPLOYMENT);
      var use := false;
      if deployment in unmatched {
        var resource := unmatched[deployment];
        var selector := CreatePodSelectorLabels(resource);
        var selected := MatchesLabels(pod.labels, selector);
        if selected && pod.annotation.Some? {
          use := Matches(pod.annotation, secret.name);
        }
        assert use <==> LiveUse(resource, pod, secret);
        if use {
          SplitMove(resources, pods[..i], pod, resource, secret, matched, unmatched);
          matched := matched[resource.name := true];
          unmatched := unmatched - {resource.name};
        }
      }
      if !use {
        SplitStay(resources, pods[..i], pod, secret, matched, unmatched);
      }
    }
    assert pods[..|pods|] == pods;
  }

  method Collect(resources: seq<Coherence>, ghost pods: seq<Pod>, secret: SecretRef, matched: map<string, bool>)
    returns (requests: seq<Request>)
    requires forall r :: r in resources ==> (r.name in matched && matched[r.name] <==> Affected(r, pods, secret))
    ensures requests == Requests(resources, pods, secret)
  {
    requests := [];
    for i := 0 to |resources|
      invariant requests == Requests(resources[..i], pods, secret)
    {
      var resource := resources[i];
      assert resources[..i + 1][..i] == resources[..i] && resource in resources;
      if resource.name in matched && matched[resource.name] {
        requests := requests + [Request(resource.namespace, resource.name)];
      }
    }
    assert resources[..|resources|] == resources;
  }

  // ----- The maps keep their split -------------------------------------------------------------------

  lemma SelectorIsSelects(r: Coherence, selector: Labels)
    requires selector.Keys == {DEPLOYMENT, "coherenceCluster", "coherenceRole", COMPONENT}
                              + (if r.app.Some? then {"app"} else {}) + (if r.version.Some? then {"version"} else {})
    requires selector[DEPLOYMENT] == r.name && selector["coherenceCluster"] == ClusterName(r)
    requires selector["coherenceRole"] == RoleName(r) && selector[COMPONENT] == COHERENCE_POD
    requires r.app.Some? ==> selector["app"] == r.app.value
    requires r.version.Some? ==> selector["version"] == r.version.value
    ensures forall labels: Labels :: Carries(labels, selector) <==> Selects(r, labels)
  {
    forall labels: Labels ensures Carries(labels, selector) <==> Selects(r, labels) {
      SelectorIsSelectsFor(r, selector, labels);
    }
  }

  lemma SelectorIsSelectsFor(r: Coherence, selector: Labels, labels: Labels)
    requires selector.Keys == {DEPLOYMENT, "coherenceCluster", "coherenceRole", COMPONENT}
                              + (if r.app.Some? then {"app"} else {}) + (if r.version.Some? then {"version"} else {})
    requires selector[DEPLOYMENT] == r.name && selector["coherenceCluster"] == ClusterName(r)
    requires selector["coherenceRole"] == RoleName(r) && selector[COMPONENT] == COHERENCE_POD
    requires r.app.Some? ==> selector["app"] == r.app.value
    requires r.version.Some? ==> selector["version"] == r.version.value
    ensures Carries(labels, selector) <==> Selects(r, labels)
  {
    if Carries(labels, selector) {
      assert DEPLOYMENT in selector && "coherenceCluster" in selector && "coherenceRole" in selector
          && COMPONENT in selector;
      if r.app.Some? {
        assert "app" in selector;
      }
      if r.version.Some? {
        assert "version" in selector;
      }
    }
  }

  lemma NewName(rs: seq<Coherence>, i: nat)
    requires UniqueNames(rs) && i < |rs| && forall r :: r in rs ==> r.namespace == rs[i].namespace
    ensures forall r :: r in rs[..i] ==> r.name != rs[i].name
  {
    forall r | r in rs[..i] ensures r.name != rs[i].name {
      var j :| 0 <= j < i && rs[..i][j] == r;
      assert rs[j] in rs;
    }
  }

  lemma SplitSnoc(rs: seq<Coherence>, r: Coherence, secret: SecretRef,
                  m: map<string, bool>, u: map<string, Coherence>, m': map<string, bool>, u': map<string, Coherence>)
    requires Split(rs, [], secret, m, u) && r.namespace == secret.namespace
    requires forall x :: x in rs ==> x.name != r.name
    requires if secret.name in Named(r.connection) then m' == m[r.name := true] && u' == u
             else m' == m && u' == u[r.name := r]
    ensures Split(rs + [r], [], secret, m', u')
  {
    hide Named;
    assert Affected(r, [], secret) <==> secret.name in Named(r.connection);
    hide Affected;
    SplitNewName(rs, r, secret, m, u);
    forall x | x in rs ensures Placed(x, Affected(x, [], secret), m', u') {
      assert Placed(x, Affected(x, [], secret), m, u);
    }
    assert Placed(r, Affected(r, [], secret), m', u');
    assert r in rs + [r];
    forall n | n in m' && n != r.name ensures exists x :: x in rs + [r] && x.name == n {
      var x :| x in rs && x.name == n;
      assert x in rs + [r];
    }
  }

  lemma SplitNewName(rs: seq<Coherence>, r: Coherence, secret: SecretRef,
                     m: map<string, bool>, u: map<string, Coherence>)
    requires Split(rs, [], secret, m, u)
    requires forall x :: x in rs ==> x.name != r.name
    ensures r !in rs && r.name !in m && r.name !in u
  {
  }

  lemma AffectedSnoc(r: Coherence, pods: seq<Pod>, pod: Pod, secret: SecretRef)
    requires r.namespace == secret.namespace
    ensures Affected(r, pods + [pod], secret) <==> Affected(r, pods, secret) || LiveUse(r, pod, secret)
  {
    if LiveUse(r, pod, secret) {
      assert pod in pods + [pod];
    }
    if Affected(r, pods, secret) && secret.name !in Named(r.connection) {
      var p :| p in pods && LiveUse(r, p, secret);
      assert p in pods + [pod];
    }
  }

  /** Only the resource that the deployment label names can be the one the Pod belongs to. */
  lemma SplitMove(rs: seq<Coherence>, pods: seq<Pod>, pod: Pod, r: Coherence, secret: SecretRef,
                  m: map<string, bool>, u: map<string, Coherence>)
    requires Split(rs, pods, secret, m, u) && UniqueNames(rs) && forall x :: x in rs ==> x.namespace == secret.namespace
    requires r.name in u && u[r.name] == r && LiveUse(r, pod, secret)
    ensures Split(rs, pods + [pod], secret, m[r.name := true], u - {r.name})
  {
    hide Affected, LiveUse;
    forall x | x in rs ensures Placed(x, Affected(x, pods + [pod], secret), m[r.name := true], u - {r.name}) {
      assert Placed(x, Affected(x, pods, secret), m, u);
      AffectedSnoc(x, pods, pod, secret);
      UseNames(x, pod, secret);
      UseNames(r, pod, secret);
      if x.name == r.name {
        OneOfAName(rs, x, r);
      }
    }
  }

  lemma UseNames(r: Coherence, pod: Pod, secret: SecretRef)
    ensures LiveUse(r, pod, secret) ==> r.name == Label(pod.labels, DEPLOYMENT)
  {
  }

  lemma OneOfAName(rs: seq<Coherence>, x: Coherence, y: Coherence)
    requires UniqueNames(rs) && x in rs && y in rs && x.name == y.name && x.namespace == y.namespace
    ensures x == y
  {
    var i :| 0 <= i < |rs| && rs[i] == x;
    var j :| 0 <= j < |rs| && rs[j] == y;
    assert i < j ==> rs[i].name != rs[j].name;
  }

  lemma SplitStay(rs: seq<Coherence>, pods: seq<Pod>, pod: Pod, secret: SecretRef,
                  m: map<string, bool>, u: map<string, Coherence>)
    requires Split(rs, pods, secret, m, u) && forall x :: x in rs ==> x.namespace == secret.namespace
    requires var n := Label(pod.labels, DEPLOYMENT); n in u ==> !LiveUse(u[n], pod, secret)
    ensures Split(rs, pods + [pod], secret, m, u)
  {
    hide Affected, LiveUse;
    forall x | x in rs ensures Placed(x, Affected(x, pods + [pod], secret), m, u) {
      assert Placed(x, Affected(x, pods, secret), m, u);
      AffectedSnoc(x, pods, pod, secret);
      UseNames(x, pod, secret);
    }
  }

  // ----- From the lists to the whole cluster -----------------------------------------------------------

  /** Requests for all the resources of a namespace. */
  ghost function AllIn(rs: seq<Coherence>, namespace: string): seq<Request> {
    if rs == [] then []
    else
      var before, r := AllIn(rs[..|rs| - 1], namespace), rs[|rs| - 1];
      if r.namespace == namespace then before + [Request(r.namespace, r.name)] else before
  }

  lemma {:induction false} ListedIn(rs: seq<Coherence>, namespace: string)
    ensures forall r :: r in InNamespace(rs, namespace) <==> r in rs && r.namespace == namespace
  {
    if rs != [] {
      assert rs == rs[..|rs| - 1] + [rs[|rs| - 1]];
      ListedIn(rs[..|rs| - 1], namespace);
    }
  }

  lemma {:induction false} ListedUnique(rs: seq<Coherence>, namespace: string)
    requires UniqueNames(rs)
    ensures UniqueNames(InNamespace(rs, namespace))
  {
    if rs != [] {
      var before, r := rs[..|rs| - 1], rs[|rs| - 1];
      ListedUnique(before, namespace);
      ListedIn(before, namespace);
      forall x | x in InNamespace(before, namespace) && x.namespace == r.namespace ensures x.name != r.name {
        var i :| 0 <= i < |before| && before[i] == x;
        assert rs[i] == x;
      }
      assert forall i :: 0 <= i < |InNamespace(before, namespace)| ==>
          InNamespace(before, namespace)[i] in InNamespace(before, namespace);
    }
  }

  /** A Pod that uses the Secret carries the component label, so listing by that label loses nothing. */
  lemma SamePods(rs: seq<Coherence>, listed: seq<Pod>, pods: seq<Pod>, secret: SecretRef)
    requires forall p :: p in listed <==> p in pods && IsListed(p, secret.namespace, COHERENCE_POD)
    ensures forall r :: r in rs ==> (Affected(r, listed, secret) <==> Affected(r, pods, secret))
  {
    forall r | r in rs ensures Affected(r, listed, secret) <==> Affected(r, pods, secret) {
      if Affected(r, pods, secret) && secret.name !in Named(r.connection) {
        var p :| p in pods && LiveUse(r, p, secret);
        assert p in listed;
      }
    }
  }

  lemma NoneUnmatched(rs: seq<Coherence>, pods: seq<Pod>, secret: SecretRef,
                      m: map<string, bool>, u: map<string, Coherence>)
    requires Split(rs, [], secret, m, u) && |u| == 0
    ensures forall r :: r in rs ==> Affected(r, [], secret) && Affected(r, pods, secret)
  {
    forall r | r in rs ensures Affected(r, [], secret) && Affected(r, pods, secret) {
      assert Placed(r, Affected(r, [], secret), m, u);
    }
  }

  lemma {:induction false} ListedRequests(rs: seq<Coherence>, pods: seq<Pod>, secret: SecretRef)
    ensures Requests(InNamespace(rs, secret.namespace), pods, secret) == Requests(rs, pods, secret)
  {
    if rs != [] {
      var before, r := rs[..|rs| - 1], rs[|rs| - 1];
      ListedRequests(before, pods, secret);
      var listed := InNamespace(before, secret.namespace);
      assert (listed + [r])[..|listed|] == listed;
    }
  }

  /** As long as a resource is unmatched, its request is missing from the list of all of them. */
  lemma SomeUnmatched(rs: seq<Coherence>, listed: seq<Coherence>, secret: SecretRef, m: map<string, bool>,
        u: map<string, Coherence>)
    requires listed == InNamespace(rs, secret.namespace)
    requires Split(listed, [], secret, m, u) && |u| > 0
    ensures Requests(rs, [], secret) != AllIn(rs, secret.namespace)
  {
    var n :| n in u;
    var r := u[n];
    assert Placed(r, Affected(r, [], secret), m, u);
    ListedIn(rs, secret.namespace);
    Fewer(rs, r, secret);
  }

  lemma {:induction false} AllAffected(rs: seq<Coherence>, secret: SecretRef)
    requires forall r :: r in InNamespace(rs, secret.namespace) ==> Affected(r, [], secret)
    ensures Requests(rs, [], secret) == AllIn(rs, secret.namespace)
  {
    if rs != [] {
      assert rs == rs[..|rs| - 1] + [rs[|rs| - 1]];
      ListedIn(rs, secret.namespace);
      ListedIn(rs[..|rs| - 1], secret.namespace);
      AllAffected(rs[..|rs| - 1], secret);
    }
  }

  lemma {:induction false} Fewer(rs: seq<Coherence>, r: Coherence, secret: SecretRef)
    ensures |Requests(rs, [], secret)| <= |AllIn(rs, secret.namespace)|
    ensures r in rs && r.namespace == secret.namespace && !Affected(r, [], secret) ==>
              |Requests(rs, [], secret)| < |AllIn(rs, secret.namespace)|
  {
    if rs != [] {
      assert rs == rs[..|rs| - 1] + [rs[|rs| - 1]];
      Fewer(rs[..|rs| - 1], r, secret);
    }
  }

  // ----- What the naive search answers -----------------------------------------------------------------

  /** Exactly the affected resources, each once, in the order of the list. */
  lemma {:induction false} RequestsExact(rs: seq<Coherence>, pods: seq<Pod>, secret: SecretRef)
    requires UniqueNames(rs)
    ensures forall q :: q in Requests(rs, pods, secret) <==>
              exists r :: r in rs && Affected(r, pods, secret) && q == Request(r.namespace, r.name)
    ensures forall i, j :: 0 <= i < j < |Requests(rs, pods, secret)| ==>
              Requests(rs, pods, secret)[i] != Requests(rs, pods, secret)[j]
  {
    hide Affected;
    if rs != [] {
      var before, r := rs[..|rs| - 1], rs[|rs| - 1];
      assert rs == before + [r];
      RequestsExact(before, pods, secret);
      var done := Requests(before, pods, secret);
      forall x | x in before ensures Request(x.namespace, x.name) != Request(r.namespace, r.name) {
        var i :| 0 <= i < |before| && before[i] == x;
        assert rs[i] == x;
      }
      assert forall i :: 0 <= i < |done| ==> done[i] in done;
    }
  }

  /** Whose requests those are: of resources in the Secret's own namespace, whose spec names it, or of which
      a Pod there carries all the selector labels and an annotation that names it. */
  lemma WhoIsRequested(rs: seq<Coherence>, pods: seq<Pod>, secret: SecretRef, r: Coherence)
    requires UniqueNames(rs) && r in rs
    ensures Request(r.namespace, r.name) in Requests(rs, pods, secret) <==>
              && r.namespace == secret.namespace
              && (|| secret.name in Named(r.connection)
                  || exists p :: p in pods && p.namespace == secret.namespace
                       && Selects(r, p.labels) && secret.name in Named(p.annotation))
  {
    RequestsExact(rs, pods, secret);
    hide Requests;
    forall x | x in rs && Request(x.namespace, x.name) == Request(r.namespace, r.name) ensures x == r {
      var i :| 0 <= i < |rs| && rs[i] == x;
      var j :| 0 <= j < |rs| && rs[j] == r;
    }
    assert (exists p :: p in pods && LiveUse(r, p, secret)) <==>
           (exists p :: p in pods && p.namespace == r.namespace && Selects(r, p.labels)
              && secret.name in Named(p.annotation));
  }
}
