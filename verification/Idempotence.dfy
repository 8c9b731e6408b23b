/** Admitting an admitted pod again: exactly when, with malformed quantities about, nothing more happens. */
module Idempotence {
  import opened Common
  import opened Types
  import opened Pods
  import opened Priorities
  import opened Telemetry
  import opened Resources
  import opened PodMutator
  import opened MutatorTheorems
  import opened Determinism
  import opened Uniform
  import Malformed

  /** A second admission, with the same objects listed in any order, leaves the pod of the first as it is. */
  ghost predicate Idempotent(parse: QuantityParser, policies: seq<WorkloadPolicy>) {
    forall profiles, profiles', policies', v, m, m' |
      && Relisted(profiles, policies, profiles', policies')
      && Possible(parse, profiles, policies, v, m)
      && Possible(parse, profiles', policies', Final(m), m') ::
      Final(m') == Final(m)
  }

  /** Some default is malformed in `d` and parses in `e`: the policy offering `e` fills what the one offering `d`
      fails on. */
  predicate Unlocks(parse: QuantityParser, d: map<string, string>, e: map<string, string>) {
    exists r | r in d && r in e :: parse(d[r]).None? && parse(e[r]).Some?
  }

  /** q fills what p fails on without offering all that p then goes on to add. */
  predicate Undercuts(parse: QuantityParser, p: WorkloadPolicySpec, q: WorkloadPolicySpec) {
    || (&& Unlocks(parse, p.defaultRequests, q.defaultRequests)
        && !(Parsed(parse, p.defaultLimits).Keys <= Parsed(parse, q.defaultLimits).Keys))
    || (&& Unlocks(parse, p.defaultLimits, q.defaultLimits)
        && !(Parsed(parse, p.defaultRequests).Keys <= Parsed(parse, q.defaultRequests).Keys))
  }

  /** No policy is undercut by one that may come after it. */
  ghost predicate NoneUndercut(parse: QuantityParser, policies: seq<WorkloadPolicy>) {
    forall p, q | p in policies && q in policies && p.spec.priority >= q.spec.priority ::
      !Undercuts(parse, p.spec, q.spec)
  }

  lemma NeverUndercutsItself(parse: QuantityParser, p: WorkloadPolicySpec)
    ensures !Undercuts(parse, p, p)
  {
  }

  // ---------- saturation ----------

  /** The container has everything the policy could add. */
  predicate Saturated(parse: QuantityParser, spec: WorkloadPolicySpec, c: Container) {
    && Parsed(parse, spec.defaultRequests).Keys <= c.requests.Keys
    && Parsed(parse, spec.defaultLimits).Keys <= c.limits.Keys
  }

  lemma SaturatedIsIdle(parse: QuantityParser, spec: WorkloadPolicySpec, c: Container)
    requires Saturated(parse, spec, c)
    ensures ContainerFilled(parse, spec, c) == c && FailedContainer(parse, spec, c) == c
  {
    assert Filled(parse, spec.defaultRequests, c.requests) == c.requests;
    assert Filled(parse, spec.defaultLimits, c.limits) == c.limits;
  }

  lemma FilledIsSaturated(parse: QuantityParser, spec: WorkloadPolicySpec, c: Container, c': Container)
    requires ContainerExtends(ContainerFilled(parse, spec, c), c')
    ensures Saturated(parse, spec, c')
  {
  }

  lemma FailureOnlyLifts(parse: QuantityParser, spec: WorkloadPolicySpec, c: Container, c': Container)
    requires ContainerExtends(c, c') && ContainerFails(parse, spec, c')
    ensures ContainerFails(parse, spec, c)
  {
  }

  /** A container that still fails has nothing left to take. */
  lemma FailureStays(parse: QuantityParser, spec: WorkloadPolicySpec, c: Container, c': Container)
    requires UniformSpec(parse, spec) && ContainerExtends(FailedContainer(parse, spec, c), c')
    ensures FailedContainer(parse, spec, c') == c'
  {
    var defaults := spec.defaultRequests;
    if Fillable(parse, defaults, c.requests) {
      assert Parsed(parse, defaults).Keys <= c'.requests.Keys;
    }
    assert Filled(parse, defaults, c'.requests) == c'.requests;
  }

  lemma AllSaturatedIsIdle(parse: QuantityParser, spec: WorkloadPolicySpec, v: PodValue)
    requires forall i | 0 <= i < |v.containers| :: Saturated(parse, spec, v.containers[i])
    requires spec.mandatoryLabels + v.labels == v.labels
    ensures Round(parse, spec, v) == v
  {
    hide Saturated, ContainerFilled, FailedContainer, ContainerFails;
    forall i | 0 <= i < |v.containers|
      ensures ContainerOutcome(parse, spec, v.containers, i) == v.containers[i]
    {
      SaturatedIsIdle(parse, spec, v.containers[i]);
    }
    assert Round(parse, spec, v).containers == v.containers;
  }

  lemma {:induction false} FirstFailingAt(parse: QuantityParser, spec: WorkloadPolicySpec, cs: seq<Container>, n: nat)
    requires n < |cs| && ContainerFails(parse, spec, cs[n])
    requires forall i | 0 <= i < n :: !ContainerFails(parse, spec, cs[i])
    ensures FirstFailing(parse, spec, cs) == n
  {
    hide ContainerFails;
    if n > 0 {
      FirstFailingAt(parse, spec, cs[1..], n - 1);
    }
  }

  /** A policy of the first admission does nothing in the second, provided that wherever it failed and would no longer
      fail, all containers are saturated. */
  lemma PolicyIsIdle(parse: QuantityParser, spec: WorkloadPolicySpec, before: PodValue, end: PodValue)
    requires UniformSpec(parse, spec)
    requires Extends(Round(parse, spec, before), end) && Extends(before, end)
    requires forall i | 0 <= i < |before.containers| ::
               ContainerFails(parse, spec, before.containers[i]) && !ContainerFails(parse, spec, end.containers[i]) ==>
                 forall j | 0 <= j < |end.containers| :: Saturated(parse, spec, end.containers[j])
    ensures Round(parse, spec, end) == end
  {
    hide UniformSpec, Saturated, ContainerFilled, FailedContainer, ContainerFails;
    var cs, ds := before.containers, end.containers;
    var after := Round(parse, spec, before).containers;
    var n := FirstFailing(parse, spec, cs);
    assert spec.mandatoryLabels + end.labels == end.labels by {
      assert forall l | l in spec.mandatoryLabels :: l in Round(parse, spec, before).labels;
    }
    forall i | 0 <= i < n
      ensures Saturated(parse, spec, ds[i]) && !ContainerFails(parse, spec, ds[i])
    {
      assert ContainerExtends(after[i], ds[i]) && ContainerExtends(cs[i], ds[i]);
      FilledIsSaturated(parse, spec, cs[i], ds[i]);
      if ContainerFails(parse, spec, ds[i]) {
        FailureOnlyLifts(parse, spec, cs[i], ds[i]);
      }
    }
    if n == |cs| || !ContainerFails(parse, spec, ds[n]) {
      AllSaturatedIsIdle(parse, spec, end);
    } else {
      FirstFailingAt(parse, spec, ds, n);
      assert ContainerExtends(after[n], ds[n]);
      FailureStays(parse, spec, cs[n], ds[n]);
      forall i | 0 <= i < |ds|
        ensures ContainerOutcome(parse, spec, ds, i) == ds[i]
      {
        if i < n {
          SaturatedIsIdle(parse, spec, ds[i]);
        }
      }
      assert Round(parse, spec, end).containers == ds;
    }
  }

  /** A policy that parses saturates every container. */
  lemma ParsingSaturates(parse: QuantityParser, policies: seq<WorkloadPolicy>, pods: seq<PodValue>, q: WorkloadPolicy)
    requires PolicyRun(parse, policies, pods) && q in policies && QuantitiesParse(parse, q.spec)
    ensures forall j | 0 <= j < |pods[|policies|].containers| ::
          Saturated(parse, q.spec, pods[|policies|].containers[j])
  {
    hide PolicyOutcome, QuantitiesParse, Saturated, ContainerFilled;
    var l :| 0 <= l < |policies| && policies[l] == q;
    ParsingOutcome(parse, q.spec, pods[l], pods[l + 1]);
    RunExtends(parse, policies, pods, l + 1, |policies|);
    var end := pods[|policies|];
    forall j | 0 <= j < |end.containers|
      ensures Saturated(parse, q.spec, end.containers[j])
    {
      assert ContainerExtends(pods[l + 1].containers[j], end.containers[j]);
      FilledIsSaturated(parse, q.spec, pods[l].containers[j], end.containers[j]);
    }
  }

  lemma MalformedMeansNoneParsed(parse: QuantityParser, defaults: map<string, string>, r: string)
    requires UniformDefaults(parse, defaults) && r in defaults
    ensures parse(defaults[r]).None? ==> Parsed(parse, defaults) == map[]
    ensures parse(defaults[r]).Some? ==> AllParse(parse, defaults)
  {
    assert parse(defaults[r]).Some? ==> r in Parsed(parse, defaults);
  }

  lemma OffersAllParse(parse: QuantityParser, defaults: map<string, string>, keys: set<string>)
    requires UniformDefaults(parse, defaults) && keys != {} && keys <= Parsed(parse, defaults).Keys
    ensures AllParse(parse, defaults)
  {
    var r :| r in keys;
    assert r in Parsed(parse, defaults);
  }

  /** A policy that unlocks the requests of another without undercutting it leaves nothing for the other to add. */
  lemma UnlockedRequests(parse: QuantityParser, policies: seq<WorkloadPolicy>, pods: seq<PodValue>,
        p: WorkloadPolicySpec, q: WorkloadPolicy, r: string)
    requires PolicyRun(parse, policies, pods) && q in policies
    requires UniformSpec(parse, p) && UniformSpec(parse, q.spec) && !Undercuts(parse, p, q.spec)
    requires r in p.defaultRequests && parse(p.defaultRequests[r]).None?
    requires r in q.spec.defaultRequests && parse(q.spec.defaultRequests[r]).Some?
    ensures var cs := pods[|policies|].containers; forall j | 0 <= j < |cs| :: Saturated(parse, p, cs[j])
  {
    hide PolicyOutcome, UniformDefaults, Parsed, AllParse;
    assert Unlocks(parse, p.defaultRequests, q.spec.defaultRequests);
    MalformedMeansNoneParsed(parse, p.defaultRequests, r);
    MalformedMeansNoneParsed(parse, q.spec.defaultRequests, r);
    if Parsed(parse, p.defaultLimits).Keys != {} {
      OffersAllParse(parse, q.spec.defaultLimits, Parsed(parse, p.defaultLimits).Keys);
      ParsingSaturates(parse, policies, pods, q);
    }
  }

  /** The same for limits. */
  lemma UnlockedLimits(parse: QuantityParser, policies: seq<WorkloadPolicy>, pods: seq<PodValue>, p: WorkloadPolicySpec,
        q: WorkloadPolicy, r: string)
    requires PolicyRun(parse, policies, pods) && q in policies
    requires UniformSpec(parse, p) && UniformSpec(parse, q.spec) && !Undercuts(parse, p, q.spec)
    requires r in p.defaultLimits && parse(p.defaultLimits[r]).None?
    requires r in q.spec.defaultLimits && parse(q.spec.defaultLimits[r]).Some?
    ensures var cs := pods[|policies|].containers; forall j | 0 <= j < |cs| :: Saturated(parse, p, cs[j])
  {
    hide PolicyOutcome, UniformDefaults, Parsed, AllParse;
    assert Unlocks(parse, p.defaultLimits, q.spec.defaultLimits);
    MalformedMeansNoneParsed(parse, p.defaultLimits, r);
    MalformedMeansNoneParsed(parse, q.spec.defaultLimits, r);
    if Parsed(parse, p.defaultRequests).Keys != {} {
      OffersAllParse(parse, q.spec.defaultRequests, Parsed(parse, p.defaultRequests).Keys);
      ParsingSaturates(parse, policies, pods, q);
    }
  }

  lemma NoneLaterIsGreater(policies: seq<WorkloadPolicy>, k: nat, q: WorkloadPolicy)
    requires NonIncreasing(Priority(), policies) && k < |policies| && q in policies[k..]
    ensures q in policies && policies[k].spec.priority >= q.spec.priority
  {
    var j :| k <= j < |policies| && policies[j] == q;
    assert Priority()(policies[k]) >= Priority()(policies[j]);
  }

  /** What a container gains from some point of a run on comes from the policies still to come. */
  lemma LaterIsSourced(parse: QuantityParser, policies: seq<WorkloadPolicy>, pods: seq<PodValue>, k: nat, i: nat)
    requires PolicyRun(parse, policies, pods) && k < |policies| && i < |pods[k].containers|
    ensures |pods[|policies|].containers| == |pods[k].containers|
    ensures Sourced(parse, policies[k..], pods[k].containers[i], pods[|policies|].containers[i])
  {
    hide PolicyOutcome, Sourced;
    RunIsSourced(parse, policies[k..], pods[k..], i, |policies| - k);
  }

  /** If a policy fails on a container and would not fail on its final form, some later policy unlocked it, and having
      not undercut it left every container saturated. */
  lemma UnlockedIsSaturated(parse: QuantityParser, policies: seq<WorkloadPolicy>, pods: seq<PodValue>, k: nat, i: nat)
    requires PolicyRun(parse, policies, pods) && AllUniform(parse, policies) && NoneUndercut(parse, policies)
    requires NonIncreasing(Priority(), policies)
    requires k < |policies| && i < |pods[k].containers| == |pods[0].containers| == |pods[|policies|].containers|
    requires ContainerFails(parse, policies[k].spec, pods[k].containers[i])
    requires !ContainerFails(parse, policies[k].spec, pods[|policies|].containers[i])
    ensures var cs := pods[|policies|].containers;
            forall j | 0 <= j < |cs| :: Saturated(parse, policies[k].spec, cs[j])
  {
    hide PolicyOutcome, UniformSpec, Undercuts, Saturated, NonIncreasing;
    var p, c, end := policies[k], pods[k].containers[i], pods[|policies|].containers[i];
    var later := policies[k..];
    LaterIsSourced(parse, policies, pods, k, i);
    if !Fillable(parse, p.spec.defaultRequests, c.requests) {
      var r :| r in p.spec.defaultRequests && r !in c.requests && parse(p.spec.defaultRequests[r]).None?;
      var q :| q in later && r in DefaultRequests()(q.spec)
            && parse(DefaultRequests()(q.spec)[r]) == Some(end.requests[r]);
      NoneLaterIsGreater(policies, k, q);
      UnlockedRequests(parse, policies, pods, p.spec, q, r);
    } else {
      var r :| r in p.spec.defaultLimits && r !in c.limits && parse(p.spec.defaultLimits[r]).None?;
      var q :| q in later && r in DefaultLimits()(q.spec)
            && parse(DefaultLimits()(q.spec)[r]) == Some(end.limits[r]);
      NoneLaterIsGreater(policies, k, q);
      UnlockedLimits(parse, policies, pods, p.spec, q, r);
    }
  }

  lemma EveryPolicyIsIdle(parse: QuantityParser, policies: seq<WorkloadPolicy>, pods: seq<PodValue>, p: WorkloadPolicy)
    requires PolicyRun(parse, policies, pods) && AllUniform(parse, policies) && NoneUndercut(parse, policies)
    requires NonIncreasing(Priority(), policies) && p in policies
    ensures Round(parse, p.spec, pods[|policies|]) == pods[|policies|]
  {
    hide PolicyOutcome, UniformSpec, Saturated, ContainerFails, NoneUndercut, NonIncreasing, Round;
    var k :| 0 <= k < |policies| && policies[k] == p;
    var end := pods[|policies|];
    UniformOutcome(parse, p.spec, pods[k], pods[k + 1]);
    RunExtends(parse, policies, pods, 0, k);
    RunExtends(parse, policies, pods, k, |policies|);
    RunExtends(parse, policies, pods, k + 1, |policies|);
    forall i | 0 <= i < |pods[k].containers| && ContainerFails(parse, p.spec, pods[k].containers[i])
          && !ContainerFails(parse, p.spec, end.containers[i])
      ensures forall j | 0 <= j < |end.containers| :: Saturated(parse, p.spec, end.containers[j])
    {
      UnlockedIsSaturated(parse, policies, pods, k, i);
    }
    PolicyIsIdle(parse, p.spec, pods[k], end);
  }

  lemma {:induction false} IdleRunStays(parse: QuantityParser, policies: seq<WorkloadPolicy>, pods: seq<PodValue>,
        v: PodValue, n: nat)
    requires PolicyRun(parse, policies, pods) && AllUniform(parse, policies) && n <= |policies|
    requires forall p | p in policies :: Round(parse, p.spec, v) == v
    requires pods[0] == v
    ensures pods[n] == v
  {
    hide PolicyOutcome, UniformSpec, Round;
    if n > 0 {
      IdleRunStays(parse, policies, pods, v, n - 1);
      UniformOutcome(parse, policies[n - 1].spec, pods[n - 1], pods[n]);
    }
  }

  lemma SecondInjectionIsIdle(parse: QuantityParser, profiles: seq<TelemetryProfile>, policies: seq<WorkloadPolicy>,
        v: PodValue, m: Mutation, second: seq<TelemetryProfile>)
    requires Possible(parse, profiles, policies, v, m) && Sorts(Profiles().priority, profiles, second)
    ensures InjectedPod(Final(m), Settings(second)) == Final(m)
  {
    hide PolicyOutcome, Settings, Injected, NonIncreasing, FromDefaults;
    AdmissionIsSourced(parse, profiles, policies, v, m);
    forall i | 0 <= i < |v.containers|
      ensures Injected(Final(m).containers[i].env, Settings(second)) == Final(m).containers[i].env
    {
      InjectionIsIdempotent(profiles, m.profiles, second, v.containers[i].env);
    }
    assert InjectedPod(Final(m), Settings(second)).containers == Final(m).containers;
  }

  lemma IndependentIsIdempotent(parse: QuantityParser, policies: seq<WorkloadPolicy>)
    requires AllUniform(parse, policies) && NoneUndercut(parse, policies)
    ensures Idempotent(parse, policies)
  {
    hide PolicyOutcome, UniformSpec, Undercuts, InjectedPod, Settings, NonIncreasing, Round;
    forall profiles, profiles', policies', v, m, m' |
      && Relisted(profiles, policies, profiles', policies')
      && Possible(parse, profiles, policies, v, m)
      && Possible(parse, profiles', policies', Final(m), m')
      ensures Final(m') == Final(m)
    {
      SameElements(m.policies, policies);
      SameElements(m'.policies, policies);
      SecondInjectionIsIdle(parse, profiles, policies, v, m, m'.profiles);
      forall p | p in m'.policies
        ensures Round(parse, p.spec, Final(m)) == Final(m)
      {
        EveryPolicyIsIdle(parse, m.policies, m.pods, p);
      }
      IdleRunStays(parse, m'.policies, m'.pods, Final(m), |m'.policies|);
    }
  }

  // ---------- the converse ----------

  /** One round on one container. */
  function Tried(parse: QuantityParser, spec: WorkloadPolicySpec, c: Container): Container {
    if ContainerFails(parse, spec, c) then FailedContainer(parse, spec, c) else ContainerFilled(parse, spec, c)
  }

  /** One round on two containers: the second is reached only if the first does not fail. */
  lemma RoundOfTwo(parse: QuantityParser, spec: WorkloadPolicySpec, labels: map<string, string>, a: Container,
        b: Container)
    ensures Round(parse, spec, PodValue(labels, [a, b], [], None)) ==
            PodValue(spec.mandatoryLabels + labels,
                     [Tried(parse, spec, a), if ContainerFails(parse, spec, a) then b else Tried(parse, spec, b)],
                     [], None)
  {
    hide ContainerFails, FailedContainer, ContainerFilled;
    assert [a, b][1..] == [b] && [b][1..] == [];
    assert FirstFailing(parse, spec, [b]) == if ContainerFails(parse, spec, b) then 0 else 1;
    assert FirstFailing(parse, spec, [a, b]) ==
           if ContainerFails(parse, spec, a) then 0 else 1 + FirstFailing(parse, spec, [b]);
  }

  /** Two policies in order of priority, on a pod without telemetry. */
  function TwoRoundMutation(parse: QuantityParser, p: WorkloadPolicy, q: WorkloadPolicy, v: PodValue): Mutation {
    var middle := Round(parse, p.spec, v);
    Mutation([], [p, q], [v, middle, Round(parse, q.spec, middle)])
  }

  lemma TwoRoundMutationIsPossible(parse: QuantityParser, p: WorkloadPolicy, q: WorkloadPolicy, v: PodValue)
    requires p.spec.priority >= q.spec.priority
    ensures Possible(parse, [], [p, q], v, TwoRoundMutation(parse, p, q, v))
  {
    hide PolicyOutcome, Round, InjectedPod;
    RoundIsOutcome(parse, p.spec, v);
    RoundIsOutcome(parse, q.spec, Round(parse, p.spec, v));
    NothingInjected(v);
    assert Settings([]) == map[];
  }

  /** If the first of two policies still does something after both, the list is not idempotent. */
  lemma BusyFirstPolicyRefutes(parse: QuantityParser, p: WorkloadPolicy, q: WorkloadPolicy, v: PodValue)
    requires p.spec.priority >= q.spec.priority
    requires var w := Round(parse, q.spec, Round(parse, p.spec, v)); Round(parse, p.spec, w) != w
    ensures !Idempotent(parse, [p, q])
  {
    hide Possible, Round;
    var w := Round(parse, q.spec, Round(parse, p.spec, v));
    var m, m' := TwoRoundMutation(parse, p, q, v), TwoRoundMutation(parse, p, q, w);
    TwoRoundMutationIsPossible(parse, p, q, v);
    TwoRoundMutationIsPossible(parse, p, q, w);
    assert Final(m) == w;
    if Final(m') == w {
      RoundIsOutcome(parse, p.spec, w);
      RoundIsOutcome(parse, q.spec, Round(parse, p.spec, w));
      OutcomeExtends(parse, p.spec, w, Round(parse, p.spec, w));
      OutcomeExtends(parse, q.spec, Round(parse, p.spec, w), w);
      ExtendsIsAntisymmetric(w, Round(parse, p.spec, w));
    }
    assert Relisted([], [p, q], [], [p, q]);
  }

  /** A value of the user's own for each key. */
  function Own(keys: set<string>): map<string, Quantity> {
    map r | r in keys :: Quantity("")
  }

  lemma LockedRequests(parse: QuantityParser, p: WorkloadPolicySpec, q: WorkloadPolicySpec, r: string, x: string,
        a: Container)
    requires UniformSpec(parse, p) && UniformSpec(parse, q)
    requires r in p.defaultRequests && r in q.defaultRequests
    requires parse(p.defaultRequests[r]).None? && parse(q.defaultRequests[r]).Some?
    requires x in Parsed(parse, p.defaultLimits) && x !in Parsed(parse, q.defaultLimits)
    requires a.requests == Own(p.defaultRequests.Keys - {r}) && a.limits == map[]
    ensures ContainerFails(parse, p, a) && Tried(parse, p, a) == a
    ensures Tried(parse, p, Tried(parse, q, a)) != Tried(parse, q, a)
  {
    hide UniformDefaults;
    MalformedMeansNoneParsed(parse, p.defaultRequests, r);
    MalformedMeansNoneParsed(parse, q.defaultRequests, r);
    MalformedMeansNoneParsed(parse, p.defaultLimits, x);
    var a' := Tried(parse, q, a);
    assert r in a'.requests && p.defaultRequests.Keys <= a'.requests.Keys;
    assert x !in a'.limits;
    assert Fillable(parse, p.defaultRequests, a'.requests) && Fillable(parse, p.defaultLimits, a'.limits);
    assert x in Tried(parse, p, a').limits;
  }

  /** Requests unlocked, limits withheld: a container that has all of p's requests but the unlocked one. */
  lemma UnlockedRequestsRefute(parse: QuantityParser, p: WorkloadPolicy, q: WorkloadPolicy)
    requires UniformSpec(parse, p.spec) && UniformSpec(parse, q.spec) && p.spec.priority >= q.spec.priority
    requires Unlocks(parse, p.spec.defaultRequests, q.spec.defaultRequests)
    requires !(Parsed(parse, p.spec.defaultLimits).Keys <= Parsed(parse, q.spec.defaultLimits).Keys)
    ensures !Idempotent(parse, [p, q])
  {
    hide Idempotent, Round, ContainerFails, Tried, UniformSpec;
    var r :| r in p.spec.defaultRequests && r in q.spec.defaultRequests
             && parse(p.spec.defaultRequests[r]).None? && parse(q.spec.defaultRequests[r]).Some?;
    var x :| x in Parsed(parse, p.spec.defaultLimits) && x !in Parsed(parse, q.spec.defaultLimits);
    var a := Container("a", [], Own(p.spec.defaultRequests.Keys - {r}), map[], None);
    var b := Container("b", [], map[], map[], None);
    var v := PodValue(map[], [a, b], [], None);
    LockedRequests(parse, p.spec, q.spec, r, x, a);
    RoundOfTwo(parse, p.spec, map[], a, b);
    var middle := Round(parse, p.spec, v);
    RoundOfTwo(parse, q.spec, middle.labels, a, middle.containers[1]);
    var w := Round(parse, q.spec, middle);
    RoundOfTwo(parse, p.spec, w.labels, w.containers[0], w.containers[1]);
    assert Round(parse, p.spec, w).containers[0] != w.containers[0];
    BusyFirstPolicyRefutes(parse, p, q, v);
  }

  lemma LockedLimits(parse: QuantityParser, p: WorkloadPolicySpec, q: WorkloadPolicySpec, r: string, a: Container)
    requires UniformSpec(parse, p) && UniformSpec(parse, q) && Parsed(parse, p.defaultRequests) != map[]
    requires r in p.defaultLimits && r in q.defaultLimits
    requires parse(p.defaultLimits[r]).None? && parse(q.defaultLimits[r]).Some?
    requires a.requests == Own(q.defaultRequests.Keys) && a.limits == Own(p.defaultLimits.Keys - {r})
    ensures ContainerFails(parse, p, a)
    ensures !ContainerFails(parse, q, Tried(parse, p, a))
    ensures !ContainerFails(parse, p, Tried(parse, q, Tried(parse, p, a)))
    ensures !ContainerFails(parse, q, a) && !ContainerFails(parse, p, Tried(parse, q, a))
  {
    hide UniformDefaults;
    var s :| s in Parsed(parse, p.defaultRequests);
    MalformedMeansNoneParsed(parse, p.defaultRequests, s);
    MalformedMeansNoneParsed(parse, q.defaultLimits, r);
    var a' := Tried(parse, p, a);
    assert q.defaultRequests.Keys <= a'.requests.Keys;
    assert !ContainerFails(parse, q, a');
    var a'' := Tried(parse, q, a');
    assert r in a''.limits && p.defaultLimits.Keys <= a''.limits.Keys;
    assert !ContainerFails(parse, q, a);
    assert r in Tried(parse, q, a).limits && p.defaultLimits.Keys <= Tried(parse, q, a).limits.Keys;
  }

  lemma WithheldRequest(parse: QuantityParser, p: WorkloadPolicySpec, q: WorkloadPolicySpec, x: string, b: Container)
    requires UniformSpec(parse, p) && b.requests == map[]
    requires x in Parsed(parse, p.defaultRequests) && x !in Parsed(parse, q.defaultRequests)
    ensures Tried(parse, p, Tried(parse, q, b)) != Tried(parse, q, b)
  {
    hide UniformDefaults;
    MalformedMeansNoneParsed(parse, p.defaultRequests, x);
    var b' := Tried(parse, q, b);
    assert x !in b'.requests;
    assert Fillable(parse, p.defaultRequests, b'.requests);
    assert x in Tried(parse, p, b').requests;
  }

  /** Limits unlocked, requests withheld: a first container that has all of p's limits but the unlocked one, and a
      bare second. */
  lemma UnlockedLimitsRefute(parse: QuantityParser, p: WorkloadPolicy, q: WorkloadPolicy)
    requires UniformSpec(parse, p.spec) && UniformSpec(parse, q.spec) && p.spec.priority >= q.spec.priority
    requires Unlocks(parse, p.spec.defaultLimits, q.spec.defaultLimits)
    requires !(Parsed(parse, p.spec.defaultRequests).Keys <= Parsed(parse, q.spec.defaultRequests).Keys)
    ensures !Idempotent(parse, [p, q])
  {
    hide Idempotent, Round, ContainerFails, Tried, UniformSpec;
    var r :| r in p.spec.defaultLimits && r in q.spec.defaultLimits
             && parse(p.spec.defaultLimits[r]).None? && parse(q.spec.defaultLimits[r]).Some?;
    var x :| x in Parsed(parse, p.spec.defaultRequests) && x !in Parsed(parse, q.spec.defaultRequests);
    var a := Container("a", [], Own(q.spec.defaultRequests.Keys), Own(p.spec.defaultLimits.Keys - {r}), None);
    var b := Container("b", [], map[], map[], None);
    var v := PodValue(map[], [a, b], [], None);
    LockedLimits(parse, p.spec, q.spec, r, a);
    WithheldRequest(parse, p.spec, q.spec, x, b);
    RoundOfTwo(parse, p.spec, map[], a, b);
    var middle := Round(parse, p.spec, v);
    RoundOfTwo(parse, q.spec, middle.labels, middle.containers[0], b);
    var w := Round(parse, q.spec, middle);
    RoundOfTwo(parse, p.spec, w.labels, w.containers[0], w.containers[1]);
    assert Round(parse, p.spec, w).containers[1] != w.containers[1];
    BusyFirstPolicyRefutes(parse, p, q, v);
  }

  lemma OnePolicyMutation(parse: QuantityParser, p: WorkloadPolicy, v: PodValue, w: PodValue)
    requires PolicyOutcome(parse, p.spec, v, w)
    ensures Possible(parse, [], [p], v, Mutation([], [p], [v, w]))
  {
    hide PolicyOutcome, InjectedPod;
    NothingInjected(v);
    assert Settings([]) == map[];
    Malformed.OneRound(parse, [], p, v, Mutation([], [p], [v, w]));
  }

  lemma TwoOutcomesRefute(parse: QuantityParser, p: WorkloadPolicy, v: PodValue, w: PodValue, w': PodValue)
    requires PolicyOutcome(parse, p.spec, v, w) && PolicyOutcome(parse, p.spec, w, w')
    requires w' != w
    ensures !Idempotent(parse, [p])
  {
    hide PolicyOutcome, Possible;
    OnePolicyMutation(parse, p, v, w);
    OnePolicyMutation(parse, p, w, w');
    assert Relisted([], [p], [], [p]);
    assert Final(Mutation([], [p], [v, w])) == w && Final(Mutation([], [p], [w, w'])) == w';
  }

  /** A policy whose requests or limits parse in part is not idempotent by itself: what the first admission left out
      because it met the malformed quantity early, the second adds because it meets it late. */
  lemma MixedPolicyIsNotIdempotent(parse: QuantityParser, p: WorkloadPolicy)
    requires !UniformSpec(parse, p.spec)
    ensures !Idempotent(parse, [p])
  {
    hide UniformSpec, Revealing, FailedContainer, LateFailure, ContainerFails, PolicyOutcome, Idempotent;
    var labels := p.spec.mandatoryLabels;
    var c := Revealing(parse, p.spec, []);
    var early := FailedContainer(parse, p.spec, c);
    var late := LateFailure(parse, p.spec, early);
    OrderShows(parse, p.spec, []);
    FailedContainerIsPossible(parse, p.spec, c);
    LateFailureIsPossible(parse, p.spec, early);
    assert labels + map[] == labels && labels + labels == labels;
    OutcomeOfOne(parse, p.spec, map[], c, early);
    OutcomeOfOne(parse, p.spec, labels, early, late);
    var v, w := PodValue(map[], [c], [], None), PodValue(labels, [early], [], None);
    TwoOutcomesRefute(parse, p, v, w, PodValue(labels, [late], [], None));
  }

  // ---------- the theorem ----------

  /** Each policy of the pool has requests that parse wholly or not at all, likewise limits, and no policy is undercut
      by one of the same or lower priority. */
  ghost predicate Independent(parse: QuantityParser, pool: set<WorkloadPolicy>) {
    && (forall p | p in pool :: UniformSpec(parse, p.spec))
    && (forall p, q | p in pool && q in pool && p.spec.priority >= q.spec.priority ::
          !Undercuts(parse, p.spec, q.spec))
  }

  lemma UndercutRefutes(parse: QuantityParser, p: WorkloadPolicy, q: WorkloadPolicy)
    requires UniformSpec(parse, p.spec) && UniformSpec(parse, q.spec) && p.spec.priority >= q.spec.priority
    requires Undercuts(parse, p.spec, q.spec)
    ensures !Idempotent(parse, [p, q])
  {
    hide Idempotent, UniformSpec, Unlocks, Parsed;
    if Unlocks(parse, p.spec.defaultRequests, q.spec.defaultRequests)
       && !(Parsed(parse, p.spec.defaultLimits).Keys <= Parsed(parse, q.spec.defaultLimits).Keys) {
      UnlockedRequestsRefute(parse, p, q);
    } else {
      UnlockedLimitsRefute(parse, p, q);
    }
  }

  /** Every list over the pool is idempotent on every pod, with any profiles, sorts and iteration orders, if and only
      if each policy has requests that parse wholly or not at all, likewise limits, and no policy is undercut by one
      of the same or lower priority. Pools of policies that parse are the special case admission provides. */
  lemma IdempotentExactlyWhenIndependent(parse: QuantityParser, pool: set<WorkloadPolicy>)
    ensures (forall policies | DrawnFrom(policies, pool) :: Idempotent(parse, policies)) <==> Independent(parse, pool)
  {
    hide Idempotent, UniformSpec, Undercuts;
    if Independent(parse, pool) {
      forall policies | DrawnFrom(policies, pool)
        ensures Idempotent(parse, policies)
      {
        IndependentIsIdempotent(parse, policies);
      }
    }
    forall p | p in pool && !UniformSpec(parse, p.spec)
      ensures DrawnFrom([p], pool) && !Idempotent(parse, [p])
    {
      MixedPolicyIsNotIdempotent(parse, p);
    }
    forall p, q | p in pool && q in pool && UniformSpec(parse, p.spec) && UniformSpec(parse, q.spec)
                  && p.spec.priority >= q.spec.priority && Undercuts(parse, p.spec, q.spec)
      ensures DrawnFrom([p, q], pool) && !Idempotent(parse, [p, q])
    {
      UndercutRefutes(parse, p, q);
    }
  }

  /** For instance: a policy with one good and one malformed request. */
  lemma HalfMalformedIsNotIdempotent(parse: QuantityParser)
    requires parse("100m").Some? && parse("bad").None?
    ensures !Idempotent(parse, [Malformed.HalfMalformed()])
  {
    Malformed.HalfMalformedIsMixed(parse);
    MixedPolicyIsNotIdempotent(parse, Malformed.HalfMalformed());
  }

  /** A policy that fails on its request and has a limit to give. */
  function Blocked(priority: int32): WorkloadPolicy {
    WorkloadPolicy(Key("team-a", "p"), "1", 1,
                   WorkloadPolicySpec(map["cpu" := "bad"], map["cpu" := "1"], map[], priority, None))
  }

  /** A policy with a good value for that request. */
  function Unblocking(priority: int32): WorkloadPolicy {
    WorkloadPolicy(Key("team-a", "q"), "2", 1, WorkloadPolicySpec(map["cpu" := "100m"], map[], map[], priority, None))
  }

  lemma BlockedIsUndercut(parse: QuantityParser, high: int32, low: int32)
    requires parse("100m").Some? && parse("1").Some? && parse("bad").None?
    ensures var p, q := Blocked(high).spec, Unblocking(low).spec;
            UniformSpec(parse, p) && UniformSpec(parse, q) && Undercuts(parse, p, q) && !Undercuts(parse, q, p)
  {
    var p, q := Blocked(high).spec, Unblocking(low).spec;
    assert Parsed(parse, p.defaultRequests) == map[] && Parsed(parse, q.defaultLimits) == map[];
    assert "cpu" in p.defaultRequests && "cpu" in q.defaultRequests;
    assert "cpu" in Parsed(parse, p.defaultLimits).Keys;
  }

  /** For instance, on priorities: the two policies, each uniform, lose idempotence when the unblocking one comes
      last, or may, and keep it, on every list over them, when it comes first. */
  lemma PriorityDecidesIdempotence(parse: QuantityParser, p: int32, q: int32)
    requires parse("100m").Some? && parse("1").Some? && parse("bad").None?
    ensures (forall policies | DrawnFrom(policies, {Blocked(p), Unblocking(q)}) :: Idempotent(parse, policies))
            <==> p < q
  {
    hide Idempotent, UniformSpec, Undercuts;
    BlockedIsUndercut(parse, p, q);
    IdempotentExactlyWhenIndependent(parse, {Blocked(p), Unblocking(q)});
    NeverUndercutsItself(parse, Blocked(p).spec);
    NeverUndercutsItself(parse, Unblocking(q).spec);
  }
}
