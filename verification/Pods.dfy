/** The part of a Pod that admission reads or writes. */
module Pods {
  import opened Common
  import opened Types

  datatype EnvVar = EnvVar(name: string, value: string)

  datatype SecurityContext = SecurityContext(readOnlyRootFilesystem: Option<bool>)

  datatype PodSecurityContext = PodSecurityContext(runAsNonRoot: Option<bool>)

  datatype Container = Container(
    name: string,
    env: seq<EnvVar>,
    requests: map<string, Quantity>,
    limits: map<string, Quantity>,
    securityContext: Option<SecurityContext>)

  datatype PodValue = PodValue(
    labels: map<string, string>,
    containers: seq<Container>,
    initContainers: seq<Container>,
    securityContext: Option<PodSecurityContext>)

  /** The decoded Pod that a webhook updates in place. */
  class Pod {
    var labels: map<string, string>
    var containers: seq<Container>
    var initContainers: seq<Container>
    var securityContext: Option<PodSecurityContext>

    constructor (v: PodValue)
      ensures Value() == v
    {
      labels, containers, initContainers, securityContext :=
            v.labels, v.containers, v.initContainers, v.securityContext;
    }

    function Value(): PodValue
      reads this
    {
      PodValue(labels, containers, initContainers, securityContext)
    }
  }

  predicate HasEnv(env: seq<EnvVar>, name: string) {
    exists i | 0 <= i < |env| :: env[i].name == name
  }

  ghost predicate MapExtends<V(!new)>(a: map<string, V>, b: map<string, V>) {
    forall k | k in a :: k in b && b[k] == a[k]
  }

  ghost predicate ContainerExtends(c: Container, c': Container) {
    && c'.name == c.name && c'.securityContext == c.securityContext
    && c.env <= c'.env
    && MapExtends(c.requests, c'.requests)
    && MapExtends(c.limits, c'.limits)
  }

  /** v' is v with additions only: everything the user set is still there with the user's value, and init containers,
      security contexts and the container list's shape are the same. */
  ghost predicate Extends(v: PodValue, v': PodValue) {
    && v'.initContainers == v.initContainers && v'.securityContext == v.securityContext
    && MapExtends(v.labels, v'.labels)
    && |v'.containers| == |v.containers|
    && forall i | 0 <= i < |v.containers| :: ContainerExtends(v.containers[i], v'.containers[i])
  }

  lemma ExtendsIsTransitive(a: PodValue, b: PodValue, c: PodValue)
    requires Extends(a, b) && Extends(b, c)
    ensures Extends(a, c)
  {
    forall i | 0 <= i < |a.containers|
      ensures ContainerExtends(a.containers[i], c.containers[i])
    {
      assert ContainerExtends(a.containers[i], b.containers[i]) && ContainerExtends(b.containers[i], c.containers[i]);
    }
  }

  lemma MutualMapExtension<V(!new)>(a: map<string, V>, b: map<string, V>)
    requires MapExtends(a, b) && MapExtends(b, a)
    ensures a == b
  {
    assert forall k :: k in a <==> k in b;
  }

  /** Additions cannot cancel out: a pod that grew and then grew again differs from where it started. */
  lemma ExtendsIsAntisymmetric(a: PodValue, b: PodValue)
    requires Extends(a, b) && Extends(b, a)
    ensures a == b
  {
    MutualMapExtension(a.labels, b.labels);
    forall i | 0 <= i < |a.containers|
      ensures a.containers[i] == b.containers[i]
    {
      var c, c' := a.containers[i], b.containers[i];
      assert ContainerExtends(c, c') && ContainerExtends(c', c);
      MutualMapExtension(c.requests, c'.requests);
      MutualMapExtension(c.limits, c'.limits);
    }
    assert a.containers == b.containers;
  }
}
