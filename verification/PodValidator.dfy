/** The validating webhook for Pods, and how it composes with the mutating one. */
module PodValidator {
  import opened Common
  import opened Types
  import opened Pods
  import opened Priorities
  import opened PodMutator
  import opened MutatorTheorems

  datatype Verdict = Allowed | Denied(message: string)

  const MUST_RUN_AS_NON_ROOT := "Pod violates SecurityBaseline: must run as non-root"
  const CONTAINERS_READ_ONLY := "Pod violates SecurityBaseline: all containers must have read-only root filesystem"
  const INIT_CONTAINERS_READ_ONLY :=
    "Pod violates SecurityBaseline: all init containers must have read-only root filesystem"

  predicate NonRoot(v: PodValue) {
    v.securityContext.Some? && v.securityContext.value.runAsNonRoot == Some(true)
  }

  predicate ReadOnly(c: Container) {
    c.securityContext.Some? && c.securityContext.value.readOnlyRootFilesystem == Some(true)
  }

  predicate AllReadOnly(cs: seq<Container>) {
    forall i | 0 <= i < |cs| :: ReadOnly(cs[i])
  }

  /** The pod meets the baseline, or its namespace is excluded from it. */
  predicate Satisfies(namespace: string, b: SecurityBaseline, v: PodValue) {
    || namespace in b.excludedNamespaces
    || (&& (b.runAsNonRoot ==> NonRoot(v))
        && (b.readOnlyRootFilesystem ==> AllReadOnly(v.containers) && AllReadOnly(v.initContainers)))
  }

  /** The message for a baseline that is not met: the first rule broken, in the order the rules are checked. */
  function Complaint(b: SecurityBaseline, v: PodValue): string {
    if b.runAsNonRoot && !NonRoot(v) then MUST_RUN_AS_NON_ROOT
    else if !AllReadOnly(v.containers) then CONTAINERS_READ_ONLY
    else INIT_CONTAINERS_READ_ONLY
  }

  /** The answer over a list of baselines. */
  function Decision(namespace: string, baselines: seq<SecurityBaseline>, v: PodValue): Verdict {
    if baselines == [] then Allowed
    else if !Satisfies(namespace, baselines[0], v) then Denied(Complaint(baselines[0], v))
    else Decision(namespace, baselines[1..], v)
  }

  /** A pod is allowed exactly when it satisfies every baseline. */
  lemma {:induction false} AllowedExactlyWhenSatisfied(namespace: string, baselines: seq<SecurityBaseline>, v: PodValue)
    ensures Decision(namespace, baselines, v).Allowed? <==> forall b | b in baselines :: Satisfies(namespace, b, v)
  {
    if baselines != [] {
      AllowedExactlyWhenSatisfied(namespace, baselines[1..], v);
      assert baselines == [baselines[0]] + baselines[1..];
    }
  }

  method Excluded(namespaces: seq<string>, namespace: string) returns (found: bool)
    ensures found <==> namespace in namespaces
  {
    for i := 0 to |namespaces|
      invariant forall j | 0 <= j < i :: namespaces[j] != namespace
    {
      if namespaces[i] == namespace {
        return true;
      }
    }
    return false;
  }

  /** One of the two container loops, left at the first offender. */
  method FindWritable(cs: seq<Container>) returns (found: bool)
    ensures found <==> !AllReadOnly(cs)
  {
    for i := 0 to |cs|
      invariant forall j | 0 <= j < i :: ReadOnly(cs[j])
    {
      if cs[i].securityContext.None? || cs[i].securityContext.value.readOnlyRootFilesystem.None?
         || !cs[i].securityContext.value.readOnlyRootFilesystem.value {
        return true;
      }
    }
    return false;
  }

  /** Handle, after decoding and the List call: the pod is allowed exactly when it satisfies every baseline; otherwise
      the message is that of the first baseline, in list order, that it does not satisfy. */
  method Handle(namespace: string, baselines: seq<SecurityBaseline>, pod: Pod) returns (verdict: Verdict)
    ensures verdict.Allowed? <==> forall b | b in baselines :: Satisfies(namespace, b, pod.Value())
    ensures verdict == Decision(namespace, baselines, pod.Value())
  {
    AllowedExactlyWhenSatisfied(namespace, baselines, pod.Value());
    for n := 0 to |baselines|
      invariant Decision(namespace, baselines, pod.Value()) == Decision(namespace, baselines[n..], pod.Value())
    {
      var baseline := baselines[n];
      var excluded := Excluded(baseline.excludedNamespaces, namespace);
      if excluded {
        continue;
      }
      if baseline.runAsNonRoot {
        if pod.securityContext.None? || pod.securityContext.value.runAsNonRoot.None?
           || !pod.securityContext.value.runAsNonRoot.value {
          return Denied(MUST_RUN_AS_NON_ROOT);
        }
      }
      if baseline.readOnlyRootFilesystem {
        var container := FindWritable(pod.containers);
        if container {
          return Denied(CONTAINERS_READ_ONLY);
        }
        var initContainer := FindWritable(pod.initContainers);
        if initContainer {
          return Denied(INIT_CONTAINERS_READ_ONLY);
        }
      }
    }
    return Allowed;
  }

  /** What one baseline demands, in fields. With the law for concatenated lists this determines every answer. */
  lemma VerdictOnOneBaseline(namespace: string, b: SecurityBaseline, v: PodValue)
    ensures var nonRoot := v.securityContext.Some? && v.securityContext.value.runAsNonRoot == Some(true);
            var writable := (c: Container) =>
              !(c.securityContext.Some? && c.securityContext.value.readOnlyRootFilesystem == Some(true));
            Decision(namespace, [b], v) ==
            if namespace in b.excludedNamespaces then Allowed
            else if b.runAsNonRoot && !nonRoot then Denied("Pod violates SecurityBaseline: must run as non-root")
            else if b.readOnlyRootFilesystem && exists c :: c in v.containers && writable(c) then
              Denied("Pod violates SecurityBaseline: all containers must have read-only root filesystem")
            else if b.readOnlyRootFilesystem && exists c :: c in v.initContainers && writable(c) then
              Denied("Pod violates SecurityBaseline: all init containers must have read-only root filesystem")
            else Allowed
  {
    assert Decision(namespace, [b][1..], v) == Allowed;
    assert AllReadOnly(v.containers) <==> forall c | c in v.containers :: ReadOnly(c);
    assert AllReadOnly(v.initContainers) <==> forall c | c in v.initContainers :: ReadOnly(c);
  }

  /** Validation is compositional: over concatenated lists the first list's denial comes first, and if there is none
      the second list decides. */
  lemma {:induction false} DecisionComposes(namespace: string, a: seq<SecurityBaseline>, b: seq<SecurityBaseline>,
        v: PodValue)
    ensures Decision(namespace, a + b, v)
            == if Decision(namespace, a, v).Denied? then Decision(namespace, a, v) else Decision(namespace, b, v)
  {
    if a == [] {
      assert a + b == b;
    } else {
      assert (a + b)[1..] == a[1..] + b;
      DecisionComposes(namespace, a[1..], b, v);
    }
  }

  /** Whether a pod is allowed does not depend on the order of the baselines. */
  lemma DecisionIgnoresOrder(namespace: string, a: seq<SecurityBaseline>, b: seq<SecurityBaseline>, v: PodValue)
    requires multiset(a) == multiset(b)
    ensures Decision(namespace, a, v).Allowed? <==> Decision(namespace, b, v).Allowed?
  {
    SameElements(a, b);
    AllowedExactlyWhenSatisfied(namespace, a, v);
    AllowedExactlyWhenSatisfied(namespace, b, v);
  }

  lemma {:induction false} DecisionIgnoresAdditions(namespace: string, baselines: seq<SecurityBaseline>, v: PodValue,
        v': PodValue)
    requires Extends(v, v')
    ensures Decision(namespace, baselines, v') == Decision(namespace, baselines, v)
  {
    assert forall i | 0 <= i < |v.containers| :: ContainerExtends(v.containers[i], v'.containers[i]);
    assert forall i | 0 <= i < |v.containers| :: ReadOnly(v'.containers[i]) <==> ReadOnly(v.containers[i]);
    assert AllReadOnly(v'.containers) <==> AllReadOnly(v.containers);
    if baselines != [] {
      DecisionIgnoresAdditions(namespace, baselines[1..], v, v');
    }
  }

  /** The webhooks commute: the verdict on the mutated pod, message included, is the verdict on the incoming one, on
      every path through the mutator. */
  lemma MutationDoesNotChangeTheVerdict(parse: QuantityParser, profiles: seq<TelemetryProfile>,
        policies: seq<WorkloadPolicy>, v: PodValue, m: Mutation, namespace: string, baselines: seq<SecurityBaseline>)
    requires Possible(parse, profiles, policies, v, m)
    ensures Decision(namespace, baselines, Final(m)) == Decision(namespace, baselines, v)
  {
    NothingIsOverwritten(parse, profiles, policies, v, m);
    DecisionIgnoresAdditions(namespace, baselines, v, Final(m));
  }
}
