/** The mutating webhook for Pods, from the decoded Pod to the final Pod and the answer. */
module PodMutator {
  import opened Types
  import opened Pods
  import opened Priorities
  import opened Telemetry
  import opened Resources

  /** applyPolicyLabels: labels of the policy fill the missing keys, in any iteration order. */
  method ApplyPolicyLabels(pod: Pod, policy: WorkloadPolicy) returns (mutated: bool)
    modifies pod`labels
    ensures pod.labels == policy.spec.mandatoryLabels + old(pod.labels)
    ensures mutated <==> pod.labels != old(pod.labels)
  {
    mutated := false;
    var remaining := policy.spec.mandatoryLabels.Keys;
    while remaining != {}
      invariant remaining <= policy.spec.mandatoryLabels.Keys
      invariant pod.labels == (policy.spec.mandatoryLabels - remaining) + old(pod.labels)
      invariant mutated <==> pod.labels != old(pod.labels)
    {
      var l :| l in remaining;
      remaining := remaining - {l};
      if l !in pod.labels {
        assert l !in old(pod.labels);
        pod.labels := pod.labels[l := policy.spec.mandatoryLabels[l]];
        mutated := true;
      }
    }
    assert policy.spec.mandatoryLabels - remaining == policy.spec.mandatoryLabels;
  }

  /** All outcomes of one round of the policy loop. */
  ghost predicate PolicyOutcome(parse: QuantityParser, spec: WorkloadPolicySpec, before: PodValue, after: PodValue) {
    && after == before.(labels := spec.mandatoryLabels + before.labels, containers := after.containers)
    && ResourcesOutcome(parse, spec, before.containers, after.containers)
  }

  /** The round counts as a mutation: it changed the pod and did not end in a parse error. */
  ghost predicate Reports(parse: QuantityParser, spec: WorkloadPolicySpec, before: PodValue, after: PodValue) {
    !PolicyFails(parse, spec, before.containers) && after != before
  }

  /** The pods seen between the rounds of the policy loop. */
  ghost predicate PolicyRun(parse: QuantityParser, policies: seq<WorkloadPolicy>, pods: seq<PodValue>) {
    && |pods| == |policies| + 1
    && forall i | 0 <= i < |policies| :: PolicyOutcome(parse, policies[i].spec, pods[i], pods[i + 1])
  }

  ghost predicate SomeReport(parse: QuantityParser, policies: seq<WorkloadPolicy>, pods: seq<PodValue>)
    requires |pods| == |policies| + 1
  {
    exists i | 0 <= i < |policies| :: Reports(parse, policies[i].spec, pods[i], pods[i + 1])
  }

  function Priority(): WorkloadPolicy -> int {
    (p: WorkloadPolicy) => p.spec.priority
  }

  /** One admission of pod `v`: some sort of the profiles, some sort of the policies, and the pods of the policy
      loop. */
  datatype Mutation = Mutation(profiles: seq<TelemetryProfile>, policies: seq<WorkloadPolicy>, pods: seq<PodValue>)

  ghost predicate Possible(parse: QuantityParser, profiles: seq<TelemetryProfile>, policies: seq<WorkloadPolicy>,
        v: PodValue, m: Mutation) {
    && Sorts(Profiles().priority, profiles, m.profiles)
    && Sorts(Priority(), policies, m.policies)
    && PolicyRun(parse, m.policies, m.pods)
    && m.pods[0] == InjectedPod(v, Settings(m.profiles))
  }

  ghost function Final(m: Mutation): PodValue
    requires m.pods != []
  {
    m.pods[|m.pods| - 1]
  }

  /** The `mutated` flag. */
  ghost predicate Flag(parse: QuantityParser, v: PodValue, m: Mutation)
    requires |m.pods| == |m.policies| + 1
  {
    m.pods[0] != v || SomeReport(parse, m.policies, m.pods)
  }

  datatype Answer = NoMutationsApplied | Patch(pod: PodValue)

  lemma RunGrows(parse: QuantityParser, policies: seq<WorkloadPolicy>, pods: seq<PodValue>, policy: WorkloadPolicy,
        next: PodValue)
    requires PolicyRun(parse, policies, pods)
    requires PolicyOutcome(parse, policy.spec, pods[|policies|], next)
    ensures PolicyRun(parse, policies + [policy], pods + [next])
    ensures SomeReport(parse, policies + [policy], pods + [next])
            <==> SomeReport(parse, policies, pods) || Reports(parse, policy.spec, pods[|policies|], next)
  {
    hide PolicyOutcome, Reports;
    var ps, vs := policies + [policy], pods + [next];
    forall i | 0 <= i < |ps|
      ensures PolicyOutcome(parse, ps[i].spec, vs[i], vs[i + 1])
    {
    }
    if SomeReport(parse, policies, pods) {
      var i :| 0 <= i < |policies| && Reports(parse, policies[i].spec, pods[i], pods[i + 1]);
      assert Reports(parse, ps[i].spec, vs[i], vs[i + 1]);
    }
    if Reports(parse, policy.spec, pods[|policies|], next) {
      assert Reports(parse, ps[|policies|].spec, vs[|policies|], vs[|policies| + 1]);
    }
  }

  class Mutator {
    const parse: QuantityParser

    constructor (parse: QuantityParser)
      ensures this.parse == parse
    {
      this.parse := parse;
    }

    /** Handle, after decoding and the two List calls: what happens is one of the possible mutations, and the answer
        patches the pod to its final value exactly when the flag is up. */
    method Handle(pod: Pod, policies: array<WorkloadPolicy>, profiles: array<TelemetryProfile>)
      returns (answer: Answer, ghost m: Mutation)
      modifies pod, policies, profiles
      ensures Possible(parse, old(profiles[..]), old(policies[..]), old(pod.Value()), m)
      ensures pod.Value() == Final(m)
      ensures answer == if Flag(parse, old(pod.Value()), m) then Patch(Final(m)) else NoMutationsApplied
    {
      SortByPriority(Priority(), policies);
      var sortedPolicies := policies[..];
      var mutated := false;
      SortByPriority(Profiles().priority, profiles);
      var sortedProfiles := profiles[..];
      var telemetryMutated := ApplyTelemetry(pod, sortedProfiles);
      if telemetryMutated {
        mutated := true;
      }
      var reported;
      reported, m := ApplyPolicies(pod, sortedPolicies);
      m := m.(profiles := sortedProfiles);
      mutated := mutated || reported;
      answer := if mutated then Patch(pod.Value()) else NoMutationsApplied;
    }

    /** The policy loop. */
    method ApplyPolicies(pod: Pod, policies: seq<WorkloadPolicy>) returns (reported: bool, ghost m: Mutation)
      modifies pod
      ensures m.policies == policies && PolicyRun(parse, policies, m.pods)
      ensures m.pods[0] == old(pod.Value()) && Final(m) == pod.Value()
      ensures reported <==> SomeReport(parse, policies, m.pods)
    {
      ghost var pods := [pod.Value()];
      reported := false;
      for n := 0 to |policies|
        invariant |pods| == n + 1 && pods[0] == old(pod.Value()) && pods[n] == pod.Value()
        invariant PolicyRun(parse, policies[..n], pods)
        invariant reported <==> SomeReport(parse, policies[..n], pods)
      {
        var policyReported := ApplyPolicy(pod, policies[n]);
        if policyReported {
          reported := true;
        }
        RunGrows(parse, policies[..n], pods, policies[n], pod.Value());
        pods := pods + [pod.Value()];
        assert policies[..n + 1] == policies[..n] + [policies[n]];
      }
      assert policies[..|policies|] == policies;
      m := Mutation([], policies, pods);
    }

    /** One round of the policy loop: labels, then resources; a parse error drops both flags but none of the
        writes. */
    method ApplyPolicy(pod: Pod, policy: WorkloadPolicy) returns (reported: bool)
      modifies pod
      ensures PolicyOutcome(parse, policy.spec, old(pod.Value()), pod.Value())
      ensures reported <==> Reports(parse, policy.spec, old(pod.Value()), pod.Value())
    {
      var policyMutated := ApplyPolicyLabels(pod, policy);
      var resourcesMutated, ok := ApplyPolicyResources(parse, pod, policy);
      if !ok {
        return false;
      }
      return policyMutated || resourcesMutated;
    }
  }
}
