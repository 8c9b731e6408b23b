/** Ties and malformed quantities together: exactly when the admitted pod owes nothing to the order of anything. */
module OrderFree {
  import opened Common
  import opened Types
  import opened Pods
  import opened Priorities
  import opened PriorityMerge
  import opened Telemetry
  import opened Resources
  import opened PodMutator
  import opened MutatorTheorems
  import opened Determinism
  import opened Uniform
  import opened Idempotence
  import Malformed

  ghost predicate MapsAgree<V(!new)>(a: map<string, V>, b: map<string, V>) {
    forall k | k in a && k in b :: a[k] == b[k]
  }

  /** The two policies give every label, request and limit that both define the same value. */
  ghost predicate SpecsAgree(parse: QuantityParser, p: WorkloadPolicySpec, q: WorkloadPolicySpec) {
    && MapsAgree(p.mandatoryLabels, q.mandatoryLabels)
    && MapsAgree(Parsed(parse, p.defaultRequests), Parsed(parse, q.defaultRequests))
    && MapsAgree(Parsed(parse, p.defaultLimits), Parsed(parse, q.defaultLimits))
  }

  ghost predicate AllAgree(parse: QuantityParser, policies: seq<WorkloadPolicy>) {
    forall p, q | p in policies && q in policies :: SpecsAgree(parse, p.spec, q.spec)
  }

  // ---------- agreement ----------

  /** Adding p's defaults to a container stays within a container that has them already, with p's values where they
      are new. */
  lemma FillStaysWithin(parse: QuantityParser, defaults: map<string, string>, c: map<string, Quantity>,
        end: map<string, Quantity>)
    requires MapExtends(c, end) && Parsed(parse, defaults).Keys <= end.Keys
    requires forall r | r in Parsed(parse, defaults) && r !in c :: r in end ==> end[r] == Parsed(parse, defaults)[r]
    ensures MapExtends(Filled(parse, defaults, c), end)
  {
  }

  /** Everything new in `end` has the value p would give it. */
  ghost predicate Concurs(parse: QuantityParser, spec: WorkloadPolicySpec, c: Container, end: Container) {
    && (forall r | r in Parsed(parse, spec.defaultRequests) && r !in c.requests && r in end.requests ::
          end.requests[r] == Parsed(parse, spec.defaultRequests)[r])
    && (forall r | r in Parsed(parse, spec.defaultLimits) && r !in c.limits && r in end.limits ::
          end.limits[r] == Parsed(parse, spec.defaultLimits)[r])
  }

  lemma FilledStaysWithin(parse: QuantityParser, spec: WorkloadPolicySpec, c: Container, end: Container)
    requires ContainerExtends(c, end) && Concurs(parse, spec, c, end)
    requires ContainerFilled(parse, spec, end) == end
    ensures ContainerExtends(ContainerFilled(parse, spec, c), end)
  {
    hide Parsed, Fillable;
    assert Parsed(parse, spec.defaultRequests).Keys <= Filled(parse, spec.defaultRequests, end.requests).Keys;
    assert Parsed(parse, spec.defaultLimits).Keys <= Filled(parse, spec.defaultLimits, end.limits).Keys;
    FillStaysWithin(parse, spec.defaultRequests, c.requests, end.requests);
    FillStaysWithin(parse, spec.defaultLimits, c.limits, end.limits);
  }

  lemma FailedStaysWithin(parse: QuantityParser, spec: WorkloadPolicySpec, c: Container, end: Container)
    requires ContainerExtends(c, end) && Concurs(parse, spec, c, end)
    requires ContainerFilled(parse, spec, end) == end || FailedContainer(parse, spec, end) == end
    ensures ContainerExtends(FailedContainer(parse, spec, c), end)
  {
    hide Parsed;
    if Fillable(parse, spec.defaultRequests, c.requests) {
      assert Fillable(parse, spec.defaultRequests, end.requests);
      assert Filled(parse, spec.defaultRequests, end.requests) == end.requests;
      assert Parsed(parse, spec.defaultRequests).Keys <= Filled(parse, spec.defaultRequests, end.requests).Keys;
      FillStaysWithin(parse, spec.defaultRequests, c.requests, end.requests);
    }
  }

  lemma OutcomeStaysWithin(parse: QuantityParser, spec: WorkloadPolicySpec, cs: seq<Container>, ds: seq<Container>,
        i: nat)
    requires i < |cs| == |ds| && forall j | 0 <= j < |cs| :: ContainerExtends(cs[j], ds[j])
    requires ContainerOutcome(parse, spec, ds, i) == ds[i] && Concurs(parse, spec, cs[i], ds[i])
    ensures ContainerExtends(ContainerOutcome(parse, spec, cs, i), ds[i])
  {
    hide ContainerFilled, FailedContainer, ContainerFails, Concurs, ContainerExtends;
    var n, g := FirstFailing(parse, spec, cs), FirstFailing(parse, spec, ds);
    if g < n {
      FailureOnlyLifts(parse, spec, cs[g], ds[g]);
    }
    if i < n {
      FilledStaysWithin(parse, spec, cs[i], ds[i]);
    } else if i == n {
      FailedStaysWithin(parse, spec, cs[i], ds[i]);
    }
  }

  /** A round from below a pod on which the policy is idle stays below it. */
  lemma RoundStaysWithin(parse: QuantityParser, spec: WorkloadPolicySpec, v: PodValue, end: PodValue)
    requires Extends(v, end) && Round(parse, spec, end) == end
    requires forall l | l in spec.mandatoryLabels && l !in v.labels && l in end.labels ::
               end.labels[l] == spec.mandatoryLabels[l]
    requires forall i | 0 <= i < |v.containers| :: Concurs(parse, spec, v.containers[i], end.containers[i])
    ensures Extends(Round(parse, spec, v), end)
  {
    hide ContainerOutcome, Concurs;
    assert forall l | l in spec.mandatoryLabels :: l in Round(parse, spec, end).labels;
    forall i | 0 <= i < |v.containers|
      ensures ContainerExtends(Round(parse, spec, v).containers[i], end.containers[i])
    {
      assert Round(parse, spec, end).containers[i] == ContainerOutcome(parse, spec, end.containers, i);
      OutcomeStaysWithin(parse, spec, v.containers, end.containers, i);
    }
  }

  /** What another run of agreeing policies has added concurs with each of them. */
  lemma OtherRunConcurs(parse: QuantityParser, policies: seq<WorkloadPolicy>, pods: seq<PodValue>, p: WorkloadPolicy,
        v: PodValue, i: nat)
    requires PolicyRun(parse, policies, pods) && AllAgree(parse, policies) && p in policies
    requires Extends(pods[0], v) && |pods[|policies|].containers| == |pods[0].containers| == |v.containers|
          && i < |v.containers|
    ensures Concurs(parse, p.spec, v.containers[i], pods[|policies|].containers[i])
  {
    hide PolicyOutcome;
    RunIsSourced(parse, policies, pods, i, |policies|);
    var c, end := pods[0].containers[i], pods[|policies|].containers[i];
    assert ContainerExtends(c, v.containers[i]);
    forall r | r in Parsed(parse, p.spec.defaultRequests) && r !in v.containers[i].requests && r in end.requests
      ensures end.requests[r] == Parsed(parse, p.spec.defaultRequests)[r]
    {
      var q :| q in policies && r in DefaultRequests()(q.spec)
               && parse(DefaultRequests()(q.spec)[r]) == Some(end.requests[r]);
      assert SpecsAgree(parse, p.spec, q.spec) && r in Parsed(parse, q.spec.defaultRequests);
    }
    forall r | r in Parsed(parse, p.spec.defaultLimits) && r !in v.containers[i].limits && r in end.limits
      ensures end.limits[r] == Parsed(parse, p.spec.defaultLimits)[r]
    {
      var q :| q in policies && r in DefaultLimits()(q.spec)
               && parse(DefaultLimits()(q.spec)[r]) == Some(end.limits[r]);
      assert SpecsAgree(parse, p.spec, q.spec) && r in Parsed(parse, q.spec.defaultLimits);
    }
  }

  /** Labels added by a run come from its policies. */
  lemma {:induction false} LabelsSourced(policies: seq<WorkloadPolicy>, base: map<string, string>, l: string)
    requires l !in base && l in FillAll(Labels(), policies, base)
    ensures exists q :: q in policies && l in q.spec.mandatoryLabels
                        && q.spec.mandatoryLabels[l] == FillAll(Labels(), policies, base)[l]
  {
    var head := policies[0];
    if l in head.spec.mandatoryLabels {
      FillAllKeeps(Labels(), policies[1..], head.spec.mandatoryLabels + base, l);
      assert head in policies;
    } else {
      LabelsSourced(policies[1..], head.spec.mandatoryLabels + base, l);
    }
  }

  lemma LabelsConcur(parse: QuantityParser, policies: seq<WorkloadPolicy>, pods: seq<PodValue>, p: WorkloadPolicy,
        v: PodValue)
    requires PolicyRun(parse, policies, pods) && AllAgree(parse, policies) && p in policies && Extends(pods[0], v)
    ensures var end := pods[|policies|];
            forall l | l in p.spec.mandatoryLabels && l !in v.labels && l in end.labels ::
                  end.labels[l] == p.spec.mandatoryLabels[l]
  {
    hide PolicyOutcome, FillAll;
    RunFillsLabels(parse, policies, pods);
    var end := pods[|policies|];
    forall l | l in p.spec.mandatoryLabels && l !in v.labels && l in end.labels
      ensures end.labels[l] == p.spec.mandatoryLabels[l]
    {
      LabelsSourced(policies, pods[0].labels, l);
      var q :| q in policies && l in q.spec.mandatoryLabels && q.spec.mandatoryLabels[l] == end.labels[l];
      assert SpecsAgree(parse, p.spec, q.spec);
    }
  }

  /** Each pod of one run stays within the last pod of another run of the same policies, in whatever order. */
  lemma {:induction false} RunStaysWithin(parse: QuantityParser, a: seq<WorkloadPolicy>, pods: seq<PodValue>,
        b: seq<WorkloadPolicy>, pods': seq<PodValue>, n: nat)
    requires PolicyRun(parse, a, pods) && PolicyRun(parse, b, pods') && multiset(a) == multiset(b) && n <= |a|
    requires AllUniform(parse, b) && NoneUndercut(parse, b) && AllAgree(parse, b) && NonIncreasing(Priority(), b)
    requires pods[0] == pods'[0]
    ensures Extends(pods[n], pods'[|b|])
  {
    hide PolicyOutcome, UniformSpec, Undercuts, SpecsAgree, Round, NonIncreasing;
    var end := pods'[|b|];
    SameElements(a, b);
    if n == 0 {
      RunExtends(parse, b, pods', 0, |b|);
    } else {
      RunStaysWithin(parse, a, pods, b, pods', n - 1);
      var p, v := a[n - 1], pods[n - 1];
      assert p in b;
      UniformOutcome(parse, p.spec, v, pods[n]);
      EveryPolicyIsIdle(parse, b, pods', p);
      RunExtends(parse, a, pods, 0, n - 1);
      RunExtends(parse, b, pods', 0, |b|);
      forall i | 0 <= i < |v.containers|
        ensures Concurs(parse, p.spec, v.containers[i], end.containers[i])
      {
        OtherRunConcurs(parse, b, pods', p, v, i);
      }
      LabelsConcur(parse, b, pods', p, v);
      RoundStaysWithin(parse, p.spec, v, end);
    }
  }

  // ---------- one group of ties after the other ----------

  /** Policies that a sort may exchange give what they share the same values, and none undercuts another. */
  ghost predicate TiesAgree(parse: QuantityParser, policies: seq<WorkloadPolicy>) {
    forall p, q | p in policies && q in policies && p.spec.priority == q.spec.priority ::
      SpecsAgree(parse, p.spec, q.spec) && !Undercuts(parse, p.spec, q.spec)
  }

  /** The length of the group of equal priorities at the head of a list. */
  function GroupLength(policies: seq<WorkloadPolicy>, priority: int): (n: nat)
    ensures n <= |policies| && forall i | 0 <= i < n :: policies[i].spec.priority == priority
    ensures n < |policies| ==> policies[n].spec.priority != priority
  {
    if policies == [] || policies[0].spec.priority != priority then 0 else 1 + GroupLength(policies[1..], priority)
  }

  /** In a sorted list the group holds all policies of its priority. */
  lemma GroupCounts(policies: seq<WorkloadPolicy>, n: nat, x: WorkloadPolicy)
    requires policies != [] && NonIncreasing(Priority(), policies)
    requires n == GroupLength(policies, policies[0].spec.priority)
    ensures multiset(policies[..n])[x] ==
            if x.spec.priority == policies[0].spec.priority then multiset(policies)[x] else 0
  {
    var group, rest := policies[..n], policies[n..];
    assert policies == group + rest;
    if x in rest {
      var j :| 0 <= j < |rest| && rest[j] == x;
      assert Priority()(policies[0]) >= Priority()(policies[n]) >= Priority()(policies[n + j]);
    }
    if x in group {
      assert x.spec.priority == policies[0].spec.priority;
    }
  }

  lemma HeadIsGreatest(policies: seq<WorkloadPolicy>, p: WorkloadPolicy)
    requires NonIncreasing(Priority(), policies) && p in policies
    ensures policies[0].spec.priority >= p.spec.priority
  {
    var i :| 0 <= i < |policies| && policies[i] == p;
    assert Priority()(policies[0]) >= Priority()(policies[i]);
  }

  lemma GroupsAreEqual(a: seq<WorkloadPolicy>, b: seq<WorkloadPolicy>)
    requires a != [] && b != [] && multiset(a) == multiset(b) && a[0].spec.priority == b[0].spec.priority
    requires NonIncreasing(Priority(), a) && NonIncreasing(Priority(), b)
    ensures var n := GroupLength(a, a[0].spec.priority);
            GroupLength(b, b[0].spec.priority) == n <= |b| && multiset(a[..n]) == multiset(b[..n])
  {
    hide NonIncreasing, GroupLength;
    var n, m := GroupLength(a, a[0].spec.priority), GroupLength(b, b[0].spec.priority);
    forall x
      ensures multiset(a[..n])[x] == multiset(b[..m])[x]
    {
      GroupCounts(a, n, x);
      GroupCounts(b, m, x);
    }
    assert multiset(a[..n]) == multiset(b[..m]);
    SameElements(a[..n], b[..m]);
  }

  lemma SameTails<T>(a: seq<T>, b: seq<T>, n: nat)
    requires n <= |a| == |b| && multiset(a) == multiset(b) && multiset(a[..n]) == multiset(b[..n])
    ensures multiset(a[n..]) == multiset(b[n..])
  {
    assert a == a[..n] + a[n..] && b == b[..n] + b[n..];
    assert multiset(a[n..]) == multiset(a) - multiset(a[..n]);
    assert multiset(b[n..]) == multiset(b) - multiset(b[..n]);
  }

  /** Two sorts of a list start with the same group, in some order, and go on with the same rest. */
  lemma SortsShareGroup(a: seq<WorkloadPolicy>, b: seq<WorkloadPolicy>) returns (n: nat)
    requires a != [] && multiset(a) == multiset(b)
    requires NonIncreasing(Priority(), a) && NonIncreasing(Priority(), b)
    ensures 0 < n <= |a| == |b|
    ensures multiset(a[..n]) == multiset(b[..n]) && multiset(a[n..]) == multiset(b[n..])
    ensures forall p | p in a[..n] :: p.spec.priority == a[0].spec.priority
  {
    hide NonIncreasing;
    SameElements(a, b);
    HeadIsGreatest(a, b[0]);
    HeadIsGreatest(b, a[0]);
    GroupsAreEqual(a, b);
    n := GroupLength(a, a[0].spec.priority);
    SameTails(a, b, n);
  }

  /** Policies of one priority that agree end in one pod, in whatever order. */
  lemma TiedRunsAgree(parse: QuantityParser, a: seq<WorkloadPolicy>, pods: seq<PodValue>, b: seq<WorkloadPolicy>,
        pods': seq<PodValue>, priority: int)
    requires PolicyRun(parse, a, pods) && PolicyRun(parse, b, pods') && multiset(a) == multiset(b)
    requires AllUniform(parse, a) && TiesAgree(parse, a) && forall p | p in a :: p.spec.priority == priority
    requires pods[0] == pods'[0]
    ensures |a| == |b| && pods[|a|] == pods'[|a|]
  {
    hide PolicyOutcome, UniformSpec, Undercuts, SpecsAgree, Extends;
    SameElements(a, b);
    assert forall i | 0 <= i < |b| :: b[i] in b;
    RunStaysWithin(parse, a, pods, b, pods', |a|);
    RunStaysWithin(parse, b, pods', a, pods, |a|);
    ExtendsIsAntisymmetric(pods[|a|], pods'[|a|]);
  }

  lemma SliceInherits(parse: QuantityParser, policies: seq<WorkloadPolicy>, pods: seq<PodValue>, i: nat, j: nat)
    requires PolicyRun(parse, policies, pods) && i <= j <= |policies|
    requires AllUniform(parse, policies) && TiesAgree(parse, policies) && NonIncreasing(Priority(), policies)
    ensures |pods| == |policies| + 1
    ensures PolicyRun(parse, policies[i..j], pods[i..j + 1])
    ensures AllUniform(parse, policies[i..j]) && TiesAgree(parse, policies[i..j])
    ensures NonIncreasing(Priority(), policies[i..j])
  {
    hide PolicyOutcome, UniformSpec, Undercuts, SpecsAgree;
  }

  /** Two sorts of policies whose ties agree end in one pod. */
  lemma {:induction false} SortedRunsAgree(parse: QuantityParser, a: seq<WorkloadPolicy>, pods: seq<PodValue>,
        b: seq<WorkloadPolicy>, pods': seq<PodValue>)
    requires PolicyRun(parse, a, pods) && PolicyRun(parse, b, pods') && multiset(a) == multiset(b)
    requires NonIncreasing(Priority(), a) && NonIncreasing(Priority(), b)
    requires AllUniform(parse, a) && TiesAgree(parse, a) && AllUniform(parse, b) && TiesAgree(parse, b)
    requires pods[0] == pods'[0]
    ensures |a| == |b| && pods[|a|] == pods'[|a|]
  {
    hide PolicyRun, AllUniform, TiesAgree, NonIncreasing;
    SameElements(a, b);
    if a != [] {
      var n := SortsShareGroup(a, b);
      SliceInherits(parse, a, pods, 0, n);
      SliceInherits(parse, b, pods', 0, n);
      SliceInherits(parse, a, pods, n, |a|);
      SliceInherits(parse, b, pods', n, |a|);
      TiedRunsAgree(parse, a[0..n], pods[0..n + 1], b[0..n], pods'[0..n + 1], a[0].spec.priority);
      assert a[n..] == a[n..|a|] && b[n..] == b[n..|a|];
      SortedRunsAgree(parse, a[n..|a|], pods[n..|a| + 1], b[n..|a|], pods'[n..|a| + 1]);
    }
  }

  lemma AgreeingTiesDetermine(parse: QuantityParser, profiles: seq<TelemetryProfile>, policies: seq<WorkloadPolicy>)
    requires LeadersAgree(Profiles(), profiles) && AllUniform(parse, policies) && TiesAgree(parse, policies)
    ensures Determined(parse, profiles, policies)
  {
    hide LeadersAgree, UniformSpec, Undercuts, SpecsAgree, PolicyOutcome, InjectedPod, FillAll, NonIncreasing;
    forall profiles', policies', v, m, m' |
      && Relisted(profiles, policies, profiles', policies')
      && Possible(parse, profiles, policies, v, m)
      && Possible(parse, profiles', policies', v, m')
      ensures Final(m) == Final(m')
    {
      SameElements(m.policies, policies);
      SameElements(m'.policies, policies);
      FillsAgree(Profiles(), profiles, m.profiles, m'.profiles, map[]);
      SortedRunsAgree(parse, m.policies, m.pods, m'.policies, m'.pods);
    }
  }

  lemma NoProfilesAgree()
    ensures LeadersAgree(Profiles(), [])
  {
  }

  // ---------- the converse ----------

  /** The environment that an admission gives a container which comes without one. */
  function ProfiledEnv(profiles: seq<TelemetryProfile>): seq<EnvVar> {
    Injected([], Settings(Sorted(Profiles().priority, profiles)))
  }

  /** The pod after two rounds. */
  function AfterBoth(parse: QuantityParser, p: WorkloadPolicySpec, q: WorkloadPolicySpec, v: PodValue): PodValue {
    Round(parse, q, Round(parse, p, v))
  }

  lemma TiedPairSorts(p: WorkloadPolicy, q: WorkloadPolicy)
    requires p.spec.priority == q.spec.priority
    ensures Sorts(Priority(), [p, q], [p, q]) && Sorts(Priority(), [q, p], [p, q])
  {
    assert [p, q] == [p] + [q] && [q, p] == [q] + [p];
  }

  lemma TwoRoundsHappen(parse: QuantityParser, profiles: seq<TelemetryProfile>, p: WorkloadPolicy, q: WorkloadPolicy,
        v: PodValue, start: PodValue)
    returns (m: Mutation)
    requires p.spec.priority == q.spec.priority
    requires start == InjectedPod(v, Settings(Sorted(Profiles().priority, profiles)))
    ensures Possible(parse, profiles, [p, q], v, m) && Possible(parse, profiles, [q, p], v, m)
    ensures Final(m) == AfterBoth(parse, p.spec, q.spec, start)
  {
    hide PolicyOutcome, Round, InjectedPod, Settings, Sorts, Sorted;
    var middle := Round(parse, p.spec, start);
    TiedPairSorts(p, q);
    SortedSorts(Profiles().priority, profiles);
    RoundIsOutcome(parse, p.spec, start);
    RoundIsOutcome(parse, q.spec, middle);
    m := Mutation(Sorted(Profiles().priority, profiles), [p, q], [start, middle, Round(parse, q.spec, middle)]);
  }

  /** If the order of two tied policies shows on a pod of two containers, the mutated pod is not determined. */
  lemma OrderOfTieRefutes(parse: QuantityParser, profiles: seq<TelemetryProfile>, p: WorkloadPolicy, q: WorkloadPolicy,
        a: Container, b: Container)
    requires p.spec.priority == q.spec.priority
    requires a.env == ProfiledEnv(profiles) && b.env == ProfiledEnv(profiles)
    requires var start := PodValue(map[], [a, b], [], None);
             AfterBoth(parse, p.spec, q.spec, start) != AfterBoth(parse, q.spec, p.spec, start)
    ensures !Determined(parse, profiles, [p, q])
  {
    hide Possible, Round, Injected, Settings, Determined;
    var v := PodValue(map[], [a.(env := []), b.(env := [])], [], None);
    var start := PodValue(map[], [a, b], [], None);
    assert InjectedPod(v, Settings(Sorted(Profiles().priority, profiles))) == start;
    var m := TwoRoundsHappen(parse, profiles, p, q, v, start);
    var m' := TwoRoundsHappen(parse, profiles, q, p, v, start);
    Malformed.TwoMutationsRefute(parse, profiles, [p, q], v, m, m');
  }

  /** Two rounds on two containers. */
  lemma AfterBothOfTwo(parse: QuantityParser, p: WorkloadPolicySpec, q: WorkloadPolicySpec, a: Container, b: Container)
    ensures var end := AfterBoth(parse, p, q, PodValue(map[], [a, b], [], None));
            && end.labels == q.mandatoryLabels + p.mandatoryLabels && |end.containers| == 2
            && end.containers[0] == Tried(parse, q, Tried(parse, p, a))
            && var b' := if ContainerFails(parse, p, a) then b else Tried(parse, p, b);
               end.containers[1] == if ContainerFails(parse, q, Tried(parse, p, a)) then b' else Tried(parse, q, b')
  {
    hide Round, ContainerFails, Tried;
    RoundOfTwo(parse, p, map[], a, b);
    var middle := Round(parse, p, PodValue(map[], [a, b], [], None));
    RoundOfTwo(parse, q, middle.labels, middle.containers[0], middle.containers[1]);
    assert p.mandatoryLabels + map[] == p.mandatoryLabels;
  }

  lemma FirstRequestStays(parse: QuantityParser, p: WorkloadPolicySpec, q: WorkloadPolicySpec, a: Container, r: string)
    requires UniformSpec(parse, p) && r in Parsed(parse, p.defaultRequests) && r !in a.requests
    ensures var end := Tried(parse, q, Tried(parse, p, a));
            r in end.requests && end.requests[r] == Parsed(parse, p.defaultRequests)[r]
  {
    MalformedMeansNoneParsed(parse, p.defaultRequests, r);
  }

  lemma FirstLimitStays(parse: QuantityParser, p: WorkloadPolicySpec, q: WorkloadPolicySpec, a: Container, r: string)
    requires UniformSpec(parse, p) && r in Parsed(parse, p.defaultLimits) && r !in a.limits
    requires p.defaultRequests.Keys <= a.requests.Keys
    ensures var end := Tried(parse, q, Tried(parse, p, a));
            r in end.limits && end.limits[r] == Parsed(parse, p.defaultLimits)[r]
  {
    MalformedMeansNoneParsed(parse, p.defaultLimits, r);
  }

  lemma DisagreementRefutes(parse: QuantityParser, profiles: seq<TelemetryProfile>, p: WorkloadPolicy,
        q: WorkloadPolicy)
    requires p.spec.priority == q.spec.priority && UniformSpec(parse, p.spec) && UniformSpec(parse, q.spec)
    requires !SpecsAgree(parse, p.spec, q.spec)
    ensures !Determined(parse, profiles, [p, q])
  {
    hide Determined, UniformSpec, Tried, ContainerFails, AfterBoth, ProfiledEnv, Parsed;
    var b := Container("b", ProfiledEnv(profiles), map[], map[], None);
    var a := if MapsAgree(Parsed(parse, p.spec.defaultRequests), Parsed(parse, q.spec.defaultRequests))
             then b.(requests := Own(p.spec.defaultRequests.Keys + q.spec.defaultRequests.Keys))
             else b;
    AfterBothOfTwo(parse, p.spec, q.spec, a, b);
    AfterBothOfTwo(parse, q.spec, p.spec, a, b);
    if !MapsAgree(Parsed(parse, p.spec.defaultRequests), Parsed(parse, q.spec.defaultRequests)) {
      var r :| r in Parsed(parse, p.spec.defaultRequests) && r in Parsed(parse, q.spec.defaultRequests)
               && Parsed(parse, p.spec.defaultRequests)[r] != Parsed(parse, q.spec.defaultRequests)[r];
      FirstRequestStays(parse, p.spec, q.spec, a, r);
      FirstRequestStays(parse, q.spec, p.spec, a, r);
    } else if !MapsAgree(Parsed(parse, p.spec.defaultLimits), Parsed(parse, q.spec.defaultLimits)) {
      var r :| r in Parsed(parse, p.spec.defaultLimits) && r in Parsed(parse, q.spec.defaultLimits)
               && Parsed(parse, p.spec.defaultLimits)[r] != Parsed(parse, q.spec.defaultLimits)[r];
      FirstLimitStays(parse, p.spec, q.spec, a, r);
      FirstLimitStays(parse, q.spec, p.spec, a, r);
    }
    OrderOfTieRefutes(parse, profiles, p, q, a, b);
  }

  /** Requests unlocked, limits withheld: q first lets p through, p first does nothing. */
  lemma UnlockedRequestsShow(parse: QuantityParser, profiles: seq<TelemetryProfile>, p: WorkloadPolicy,
        q: WorkloadPolicy)
    requires p.spec.priority == q.spec.priority && UniformSpec(parse, p.spec) && UniformSpec(parse, q.spec)
    requires Unlocks(parse, p.spec.defaultRequests, q.spec.defaultRequests)
    requires !(Parsed(parse, p.spec.defaultLimits).Keys <= Parsed(parse, q.spec.defaultLimits).Keys)
    ensures !Determined(parse, profiles, [p, q])
  {
    hide Determined, UniformSpec, Tried, ContainerFails, AfterBoth, ProfiledEnv;
    var r :| r in p.spec.defaultRequests && r in q.spec.defaultRequests
             && parse(p.spec.defaultRequests[r]).None? && parse(q.spec.defaultRequests[r]).Some?;
    var x :| x in Parsed(parse, p.spec.defaultLimits) && x !in Parsed(parse, q.spec.defaultLimits);
    var b := Container("b", ProfiledEnv(profiles), map[], map[], None);
    var a := b.(requests := Own(p.spec.defaultRequests.Keys - {r}));
    LockedRequests(parse, p.spec, q.spec, r, x, a);
    AfterBothOfTwo(parse, p.spec, q.spec, a, b);
    AfterBothOfTwo(parse, q.spec, p.spec, a, b);
    OrderOfTieRefutes(parse, profiles, p, q, a, b);
  }

  /** Limits unlocked, requests withheld: q first lets p reach the second container. */
  lemma UnlockedLimitsShow(parse: QuantityParser, profiles: seq<TelemetryProfile>, p: WorkloadPolicy, q: WorkloadPolicy)
    requires p.spec.priority == q.spec.priority && UniformSpec(parse, p.spec) && UniformSpec(parse, q.spec)
    requires Unlocks(parse, p.spec.defaultLimits, q.spec.defaultLimits)
    requires !(Parsed(parse, p.spec.defaultRequests).Keys <= Parsed(parse, q.spec.defaultRequests).Keys)
    ensures !Determined(parse, profiles, [p, q])
  {
    hide Determined, UniformSpec, Tried, ContainerFails, AfterBoth, ProfiledEnv;
    var r :| r in p.spec.defaultLimits && r in q.spec.defaultLimits
             && parse(p.spec.defaultLimits[r]).None? && parse(q.spec.defaultLimits[r]).Some?;
    var x :| x in Parsed(parse, p.spec.defaultRequests) && x !in Parsed(parse, q.spec.defaultRequests);
    var b := Container("b", ProfiledEnv(profiles), map[], map[], None);
    var a := b.(requests := Own(q.spec.defaultRequests.Keys), limits := Own(p.spec.defaultLimits.Keys - {r}));
    LockedLimits(parse, p.spec, q.spec, r, a);
    WithheldRequest(parse, p.spec, q.spec, x, b);
    AfterBothOfTwo(parse, p.spec, q.spec, a, b);
    AfterBothOfTwo(parse, q.spec, p.spec, a, b);
    OrderOfTieRefutes(parse, profiles, p, q, a, b);
  }

  lemma TieRefutes(parse: QuantityParser, profiles: seq<TelemetryProfile>, p: WorkloadPolicy, q: WorkloadPolicy)
    requires p.spec.priority == q.spec.priority && UniformSpec(parse, p.spec) && UniformSpec(parse, q.spec)
    requires Undercuts(parse, p.spec, q.spec) || !SpecsAgree(parse, p.spec, q.spec)
    ensures !Determined(parse, profiles, [p, q])
  {
    hide Determined, UniformSpec, Unlocks, Parsed, MapsAgree;
    if !SpecsAgree(parse, p.spec, q.spec) {
      DisagreementRefutes(parse, profiles, p, q);
    } else if Unlocks(parse, p.spec.defaultRequests, q.spec.defaultRequests)
              && !(Parsed(parse, p.spec.defaultLimits).Keys <= Parsed(parse, q.spec.defaultLimits).Keys) {
      UnlockedRequestsShow(parse, profiles, p, q);
    } else {
      UnlockedLimitsShow(parse, profiles, p, q);
    }
  }

  // ---------- the theorems ----------

  /** Each policy of the pool has requests that parse wholly or not at all, likewise limits, and policies of the same
      priority agree on every label, request and limit that they share, and do not undercut each other. */
  ghost predicate TiesExchangeable(parse: QuantityParser, pool: set<WorkloadPolicy>) {
    && (forall p | p in pool :: UniformSpec(parse, p.spec))
    && (forall p, q | p in pool && q in pool && p.spec.priority == q.spec.priority ::
          SpecsAgree(parse, p.spec, q.spec) && !Undercuts(parse, p.spec, q.spec))
  }

  lemma ProfilesUndetermined(parse: QuantityParser, profiles: seq<TelemetryProfile>, pool: set<WorkloadPolicy>)
    requires !LeadersAgree(Profiles(), profiles)
    ensures DrawnFrom([], pool) && !Determined(parse, profiles, [])
  {
    hide LeadersAgree, Determined;
    TelemetryUndetermined(parse, profiles, []);
  }

  /** Every list over the pool makes one pod of each incoming pod, whatever the listing order, the sorts and the
      iteration orders, if and only if the highest-priority profiles agree on each setting and the ties of the pool
      are exchangeable. Ties and malformed quantities may be present together. */
  lemma DeterminedExactlyWhenTiesExchangeable(parse: QuantityParser, profiles: seq<TelemetryProfile>,
        pool: set<WorkloadPolicy>)
    ensures (forall policies | DrawnFrom(policies, pool) :: Determined(parse, profiles, policies))
            <==> LeadersAgree(Profiles(), profiles) && TiesExchangeable(parse, pool)
  {
    hide Determined, LeadersAgree, UniformSpec, Undercuts, SpecsAgree;
    if LeadersAgree(Profiles(), profiles) && TiesExchangeable(parse, pool) {
      forall policies | DrawnFrom(policies, pool)
        ensures Determined(parse, profiles, policies)
      {
        AgreeingTiesDetermine(parse, profiles, policies);
      }
    }
    if !LeadersAgree(Profiles(), profiles) {
      ProfilesUndetermined(parse, profiles, pool);
    }
    forall p | p in pool && !UniformSpec(parse, p.spec)
      ensures DrawnFrom([p], pool) && !Determined(parse, profiles, [p])
    {
      Malformed.MixedPolicyIsUndetermined(parse, profiles, p);
    }
    forall p, q | p in pool && q in pool && UniformSpec(parse, p.spec) && UniformSpec(parse, q.spec)
                  && p.spec.priority == q.spec.priority
                  && (Undercuts(parse, p.spec, q.spec) || !SpecsAgree(parse, p.spec, q.spec))
      ensures DrawnFrom([p, q], pool) && !Determined(parse, profiles, [p, q])
    {
      TieRefutes(parse, profiles, p, q);
    }
  }

  ghost predicate NoTies(policies: seq<WorkloadPolicy>) {
    forall p, q | p in policies && q in policies && p.spec.priority == q.spec.priority :: p == q
  }

  lemma NoTiesAgree(parse: QuantityParser, policies: seq<WorkloadPolicy>)
    requires NoTies(policies)
    ensures TiesAgree(parse, policies)
  {
    hide Parsed;
    forall p | p in policies
      ensures SpecsAgree(parse, p.spec, p.spec) && !Undercuts(parse, p.spec, p.spec)
    {
      NeverUndercutsItself(parse, p.spec);
    }
  }

  /** Malformed quantities alone: every list without ties over the pool makes one pod of each incoming pod if and only
      if the highest-priority profiles agree on each setting and each policy of the pool has requests that parse
      wholly or not at all, and likewise limits. */
  lemma DeterminedExactlyWhenUniform(parse: QuantityParser, profiles: seq<TelemetryProfile>, pool: set<WorkloadPolicy>)
    ensures (forall policies | DrawnFrom(policies, pool) && NoTies(policies) :: Determined(parse, profiles, policies))
            <==> LeadersAgree(Profiles(), profiles) && forall p | p in pool :: UniformSpec(parse, p.spec)
  {
    hide Determined, LeadersAgree, UniformSpec;
    if LeadersAgree(Profiles(), profiles) && forall p | p in pool :: UniformSpec(parse, p.spec) {
      forall policies | DrawnFrom(policies, pool) && NoTies(policies)
        ensures Determined(parse, profiles, policies)
      {
        NoTiesAgree(parse, policies);
        AgreeingTiesDetermine(parse, profiles, policies);
      }
    }
    if !LeadersAgree(Profiles(), profiles) {
      ProfilesUndetermined(parse, profiles, pool);
      assert NoTies([]);
    }
    forall p | p in pool && !UniformSpec(parse, p.spec)
      ensures DrawnFrom([p], pool) && NoTies([p]) && !Determined(parse, profiles, [p])
    {
      Malformed.MixedPolicyIsUndetermined(parse, profiles, p);
    }
  }

  /** A tie in which the order shows although the two policies share no label, request or limit that both could give:
      one lets the other through. At different priorities every list over the two is determined. */
  lemma TieDecidesUnblocking(parse: QuantityParser, p: int32, q: int32)
    requires parse("100m").Some? && parse("1").Some? && parse("bad").None?
    ensures (forall policies | DrawnFrom(policies, {Blocked(p), Unblocking(q)}) :: Determined(parse, [], policies))
            <==> p != q
  {
    hide Determined, UniformSpec, Undercuts, LeadersAgree;
    BlockedIsUndercut(parse, p, q);
    NeverUndercutsItself(parse, Blocked(p).spec);
    NeverUndercutsItself(parse, Unblocking(q).spec);
    assert LeadersAgree(Profiles(), []) by {
      NoProfilesAgree();
    }
    DeterminedExactlyWhenTiesExchangeable(parse, [], {Blocked(p), Unblocking(q)});
  }
}
