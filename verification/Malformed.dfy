/** Malformed quantities. A policy that fails midway keeps what it has written, and where it parses in part the
    iteration order decides what that is. */
module Malformed {
  import opened Common
  import opened Types
  import opened Pods
  import opened Priorities
  import opened PriorityMerge
  import opened Telemetry
  import opened Resources
  import opened PodMutator
  import opened MutatorTheorems
  import opened Determinism
  import opened Uniform

  lemma RevealingEnv(parse: QuantityParser, spec: WorkloadPolicySpec, env: seq<EnvVar>)
    ensures Revealing(parse, spec, env).env == env
  {
  }

  lemma OneRound(parse: QuantityParser, profiles: seq<TelemetryProfile>, p: WorkloadPolicy, v: PodValue, m: Mutation)
    requires Sorts(Profiles().priority, profiles, m.profiles) && m.policies == [p] && |m.pods| == 2
    requires m.pods[0] == InjectedPod(v, Settings(m.profiles))
    requires PolicyOutcome(parse, p.spec, m.pods[0], m.pods[1])
    ensures Possible(parse, profiles, [p], v, m)
  {
    hide PolicyOutcome, InjectedPod, Settings;
  }

  lemma TwoMutationsRefute(parse: QuantityParser, profiles: seq<TelemetryProfile>, policies: seq<WorkloadPolicy>,
        v: PodValue, m: Mutation, m': Mutation)
    requires Possible(parse, profiles, policies, v, m) && Possible(parse, profiles, policies, v, m')
    requires Final(m) != Final(m')
    ensures !Determined(parse, profiles, policies)
  {
    hide PolicyRun, Sorts, InjectedPod;
    assert Relisted(profiles, policies, profiles, policies);
  }

  /** A policy whose requests or limits parse in part makes different pods by itself. */
  lemma MixedPolicyIsUndetermined(parse: QuantityParser, profiles: seq<TelemetryProfile>, p: WorkloadPolicy)
    requires !UniformSpec(parse, p.spec)
    ensures !Determined(parse, profiles, [p])
  {
    hide UniformSpec, Determined, Settings, Injected, Revealing, FailedContainer, LateFailure, ContainerFails;
    var sorted := Sorted(Profiles().priority, profiles);
    SortedSorts(Profiles().priority, profiles);
    var env := Injected([], Settings(sorted));
    var c := Revealing(parse, p.spec, env);
    var labels := p.spec.mandatoryLabels + map[];
    OrderShows(parse, p.spec, env);
    FailedContainerIsPossible(parse, p.spec, c);
    LateFailureIsPossible(parse, p.spec, c);
    OutcomeOfOne(parse, p.spec, map[], c, FailedContainer(parse, p.spec, c));
    OutcomeOfOne(parse, p.spec, map[], c, LateFailure(parse, p.spec, c));
    RevealingEnv(parse, p.spec, env);
    var v := PodValue(map[], [c.(env := [])], [], None);
    var start := PodValue(map[], [c], [], None);
    assert InjectedPod(v, Settings(sorted)) == start;
    var m := Mutation(sorted, [p], [start, PodValue(labels, [FailedContainer(parse, p.spec, c)], [], None)]);
    var m' := Mutation(sorted, [p], [start, PodValue(labels, [LateFailure(parse, p.spec, c)], [], None)]);
    OneRound(parse, profiles, p, v, m);
    OneRound(parse, profiles, p, v, m');
    TwoMutationsRefute(parse, profiles, [p], v, m, m');
  }

  /** A policy with one good and one malformed request. */
  function HalfMalformed(): WorkloadPolicy {
    WorkloadPolicy(Key("team-a", "p"), "uid", 1,
                   WorkloadPolicySpec(map["cpu" := "100m", "memory" := "bad"], map[], map[], 0, None))
  }

  lemma HalfMalformedIsMixed(parse: QuantityParser)
    requires parse("100m").Some? && parse("bad").None?
    ensures !UniformSpec(parse, HalfMalformed().spec)
  {
    var defaults := HalfMalformed().spec.defaultRequests;
    assert "cpu" in Parsed(parse, defaults) && "memory" in defaults && parse(defaults["memory"]).None?;
  }

  lemma SoleItemAgrees<T(!new), V(!new)>(src: Source<T, V>, x: T)
    ensures LeadersAgree(src, [x])
  {
  }

  /** It makes two pods although no definers disagree: the iteration order decides whether its good request is
      written. */
  lemma HalfMalformedMakesTwoPods(parse: QuantityParser)
    requires parse("100m").Some? && parse("bad").None?
    ensures AllLeadersAgree(parse, [], [HalfMalformed()]) && !Determined(parse, [], [HalfMalformed()])
  {
    hide Determined, UniformSpec, Parsed;
    HalfMalformedIsMixed(parse);
    MixedPolicyIsUndetermined(parse, [], HalfMalformed());
    SoleItemAgrees(Labels(), HalfMalformed());
    SoleItemAgrees(Requests(parse), HalfMalformed());
    SoleItemAgrees(Limits(parse), HalfMalformed());
  }
}
