/** Policies whose defaults, requests and limits taken apart, parse wholly or not at all: the iteration order then has
    no influence, because a loop that may stop early has nothing to write. */
module Uniform {
  import opened Common
  import opened Types
  import opened Pods
  import opened Resources
  import opened PodMutator
  import opened MutatorTheorems

  predicate UniformDefaults(parse: QuantityParser, defaults: map<string, string>) {
    AllParse(parse, defaults) || Parsed(parse, defaults) == map[]
  }

  predicate UniformSpec(parse: QuantityParser, spec: WorkloadPolicySpec) {
    UniformDefaults(parse, spec.defaultRequests) && UniformDefaults(parse, spec.defaultLimits)
  }

  lemma UniformPartlyFilled(parse: QuantityParser, defaults: map<string, string>, before: map<string, Quantity>,
        after: map<string, Quantity>)
    requires UniformDefaults(parse, defaults) && !Fillable(parse, defaults, before)
    ensures PartlyFilled(parse, defaults, before, after) <==> after == before
  {
    assert Parsed(parse, defaults) == map[];
    assert Filled(parse, defaults, before) == before;
    if PartlyFilled(parse, defaults, before, after) {
      MutualMapExtension(before, after);
    }
  }

  /** A failing container has one outcome. */
  lemma UniformFailure(parse: QuantityParser, spec: WorkloadPolicySpec, c: Container, c': Container)
    requires UniformSpec(parse, spec) && ContainerFails(parse, spec, c)
    ensures ContainerPartlyFilled(parse, spec, c, c') <==> c' == FailedContainer(parse, spec, c)
  {
    hide UniformDefaults, PartlyFilled, Fillable, Filled;
    if !Fillable(parse, spec.defaultRequests, c.requests) {
      UniformPartlyFilled(parse, spec.defaultRequests, c.requests, c'.requests);
    } else {
      UniformPartlyFilled(parse, spec.defaultLimits, c.limits, c'.limits);
    }
  }

  function ContainerOutcome(parse: QuantityParser, spec: WorkloadPolicySpec, cs: seq<Container>, i: nat): Container
    requires i < |cs|
  {
    var n := FirstFailing(parse, spec, cs);
    if i < n then ContainerFilled(parse, spec, cs[i])
    else if i == n then FailedContainer(parse, spec, cs[i])
    else cs[i]
  }

  /** The round of a policy that meets a malformed quantity as soon as it can. */
  function Round(parse: QuantityParser, spec: WorkloadPolicySpec, v: PodValue): PodValue {
    v.(labels := spec.mandatoryLabels + v.labels,
       containers := seq(|v.containers|, i requires 0 <= i < |v.containers| =>
             ContainerOutcome(parse, spec, v.containers, i)))
  }

  lemma RoundIsOutcome(parse: QuantityParser, spec: WorkloadPolicySpec, v: PodValue)
    ensures PolicyOutcome(parse, spec, v, Round(parse, spec, v))
  {
    hide ContainerPartlyFilled, ContainerFilled, FailedContainer, ContainerFails;
    var n := FirstFailing(parse, spec, v.containers);
    if n < |v.containers| {
      FailedContainerIsPossible(parse, spec, v.containers[n]);
    }
  }

  /** A uniform policy has no other outcome. */
  lemma UniformOutcome(parse: QuantityParser, spec: WorkloadPolicySpec, v: PodValue, w: PodValue)
    requires UniformSpec(parse, spec) && PolicyOutcome(parse, spec, v, w)
    ensures w == Round(parse, spec, v)
  {
    hide ContainerPartlyFilled, ContainerFilled, FailedContainer, ContainerFails, UniformSpec;
    forall i | 0 <= i < |v.containers|
      ensures w.containers[i] == ContainerOutcome(parse, spec, v.containers, i)
    {
      if i == FirstFailing(parse, spec, v.containers) {
        UniformFailure(parse, spec, v.containers[i], w.containers[i]);
      }
    }
    assert w.containers == Round(parse, spec, v).containers;
  }

  ghost predicate AllUniform(parse: QuantityParser, policies: seq<WorkloadPolicy>) {
    forall p | p in policies :: UniformSpec(parse, p.spec)
  }

  // ---------- a policy that is not uniform ----------

  /** The failing container when the iteration meets the malformed quantity last. */
  function LateFailure(parse: QuantityParser, spec: WorkloadPolicySpec, c: Container): Container {
    if Fillable(parse, spec.defaultRequests, c.requests)
    then c.(requests := Filled(parse, spec.defaultRequests, c.requests),
            limits := Filled(parse, spec.defaultLimits, c.limits))
    else c.(requests := Filled(parse, spec.defaultRequests, c.requests))
  }

  lemma LateFailureIsPossible(parse: QuantityParser, spec: WorkloadPolicySpec, c: Container)
    ensures ContainerPartlyFilled(parse, spec, c, LateFailure(parse, spec, c))
  {
  }

  /** A container on which the order of iteration shows, bare where the requests are mixed, else with the requests
      settled. */
  function Revealing(parse: QuantityParser, spec: WorkloadPolicySpec, env: seq<EnvVar>): Container {
    Container("app", env,
              if UniformDefaults(parse, spec.defaultRequests) then Cover(parse, spec.defaultRequests) else map[],
              map[], None)
  }

  lemma MixedDefaultsShow(parse: QuantityParser, defaults: map<string, string>)
    requires !UniformDefaults(parse, defaults)
    ensures !Fillable(parse, defaults, map[]) && Filled(parse, defaults, map[]) != map[]
  {
    assert Filled(parse, defaults, map[]) == Parsed(parse, defaults);
  }

  lemma FilledAgain(parse: QuantityParser, defaults: map<string, string>, current: map<string, Quantity>)
    requires Fillable(parse, defaults, current)
    ensures Fillable(parse, defaults, Filled(parse, defaults, current))
    ensures Filled(parse, defaults, Filled(parse, defaults, current)) == Filled(parse, defaults, current)
  {
  }

  /** Early and late failure differ, and the late one is also possible after the early one. */
  lemma OrderShows(parse: QuantityParser, spec: WorkloadPolicySpec, env: seq<EnvVar>)
    requires !UniformSpec(parse, spec)
    ensures var c := Revealing(parse, spec, env);
            var early := FailedContainer(parse, spec, c);
            && ContainerFails(parse, spec, c) && ContainerFails(parse, spec, early)
            && LateFailure(parse, spec, c) != early
            && LateFailure(parse, spec, early) == LateFailure(parse, spec, c)
  {
    hide Fillable, Cover, UniformDefaults, Parsed;
    CoverFillsAllButTheRest(parse, spec.defaultRequests);
    if !UniformDefaults(parse, spec.defaultRequests) {
      MixedDefaultsShow(parse, spec.defaultRequests);
    } else {
      MixedDefaultsShow(parse, spec.defaultLimits);
      FilledAgain(parse, spec.defaultRequests, Cover(parse, spec.defaultRequests));
    }
  }

  /** The outcomes of a failing policy on one container. */
  lemma OutcomeOfOne(parse: QuantityParser, spec: WorkloadPolicySpec, labels: map<string, string>, c: Container,
        c': Container)
    requires ContainerFails(parse, spec, c) && ContainerPartlyFilled(parse, spec, c, c')
    ensures PolicyOutcome(parse, spec, PodValue(labels, [c], [], None),
                          PodValue(spec.mandatoryLabels + labels, [c'], [], None))
  {
    hide ContainerFails, ContainerPartlyFilled, ContainerFilled;
    assert FirstFailing(parse, spec, [c]) == 0;
  }
}
