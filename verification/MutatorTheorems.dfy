/** What every admission of a Pod guarantees, over all pods, policies, profiles, sorts and iteration orders. */
module MutatorTheorems {
  import opened Common
  import opened Types
  import opened Pods
  import opened Priorities
  import opened PriorityMerge
  import opened Telemetry
  import opened Resources
  import opened PodMutator

  // ---------- nothing is overwritten ----------

  lemma OutcomeExtends(parse: QuantityParser, spec: WorkloadPolicySpec, before: PodValue, after: PodValue)
    requires PolicyOutcome(parse, spec, before, after)
    ensures Extends(before, after)
  {
    ResourcesOutcomeExtends(parse, spec, before.containers, after.containers);
  }

  lemma ExtendsIsReflexive(v: PodValue)
    ensures Extends(v, v)
  {
  }

  lemma {:induction false} RunExtends(parse: QuantityParser, policies: seq<WorkloadPolicy>, pods: seq<PodValue>, i: nat,
        j: nat)
    requires PolicyRun(parse, policies, pods) && i <= j < |pods|
    ensures Extends(pods[i], pods[j])
    decreases j
  {
    hide PolicyOutcome;
    if i < j {
      RunExtends(parse, policies, pods, i, j - 1);
      OutcomeExtends(parse, policies[j - 1].spec, pods[j - 1], pods[j]);
      ExtendsIsTransitive(pods[i], pods[j - 1], pods[j]);
    } else {
      ExtendsIsReflexive(pods[i]);
    }
  }

  /** Labels, environment entries, requests and limits of the incoming pod keep their values; init containers,
      security contexts and the list of containers stay: on every path, also when policies fail after being partly
      applied. */
  lemma NothingIsOverwritten(parse: QuantityParser, profiles: seq<TelemetryProfile>, policies: seq<WorkloadPolicy>,
        v: PodValue, m: Mutation)
    requires Possible(parse, profiles, policies, v, m)
    ensures Extends(v, Final(m))
  {
    hide PolicyOutcome, Settings, Sorts;
    InjectedPodExtends(v, Settings(m.profiles));
    RunExtends(parse, m.policies, m.pods, 0, |m.pods| - 1);
    ExtendsIsTransitive(v, m.pods[0], Final(m));
  }

  // ---------- the flag ----------

  lemma RunIsConstant(parse: QuantityParser, policies: seq<WorkloadPolicy>, pods: seq<PodValue>, i: nat)
    requires PolicyRun(parse, policies, pods) && i < |pods|
    requires pods[|pods| - 1] == pods[0]
    ensures pods[i] == pods[0]
  {
    hide PolicyOutcome, Extends;
    RunExtends(parse, policies, pods, 0, i);
    RunExtends(parse, policies, pods, i, |pods| - 1);
    ExtendsIsAntisymmetric(pods[0], pods[i]);
  }

  /** The flag never lies by saying "mutated": the final pod then differs from the incoming one. */
  lemma RaisedFlagMeansChange(parse: QuantityParser, profiles: seq<TelemetryProfile>, policies: seq<WorkloadPolicy>,
        v: PodValue, m: Mutation)
    requires Possible(parse, profiles, policies, v, m) && Flag(parse, v, m)
    ensures Final(m) != v
  {
    hide PolicyOutcome, Settings, Sorts, Extends, PolicyFails;
    InjectedPodExtends(v, Settings(m.profiles));
    RunExtends(parse, m.policies, m.pods, 0, |m.pods| - 1);
    if Final(m) == v {
      ExtendsIsAntisymmetric(v, m.pods[0]);
      var i :| 0 <= i < |m.policies| && Reports(parse, m.policies[i].spec, m.pods[i], m.pods[i + 1]);
      RunIsConstant(parse, m.policies, m.pods, i);
      RunIsConstant(parse, m.policies, m.pods, i + 1);
      assert false;
    }
  }

  /** Nothing of the policy can be applied to any pod: no labels, and no quantity that parses. */
  predicate Inert(parse: QuantityParser, spec: WorkloadPolicySpec) {
    spec.mandatoryLabels == map[] && Parsed(parse, spec.defaultRequests) == map[]
          && Parsed(parse, spec.defaultLimits) == map[]
  }

  lemma InertLeavesContainer(parse: QuantityParser, spec: WorkloadPolicySpec, c: Container, c': Container)
    requires Inert(parse, spec)
    requires c' == ContainerFilled(parse, spec, c) || ContainerPartlyFilled(parse, spec, c, c')
    ensures c' == c
  {
    assert Filled(parse, spec.defaultRequests, c.requests) == c.requests;
    assert Filled(parse, spec.defaultLimits, c.limits) == c.limits;
    if c' != ContainerFilled(parse, spec, c) {
      if !Fillable(parse, spec.defaultRequests, c.requests) {
        MutualMapExtension(c.requests, c'.requests);
      } else {
        MutualMapExtension(c.limits, c'.limits);
      }
    }
  }

  lemma InertChangesNothing(parse: QuantityParser, spec: WorkloadPolicySpec, before: PodValue, after: PodValue)
    requires Inert(parse, spec) && PolicyOutcome(parse, spec, before, after)
    ensures after == before
  {
    hide ContainerPartlyFilled, ContainerFilled, ContainerFails, Parsed;
    forall i | 0 <= i < |before.containers|
      ensures after.containers[i] == before.containers[i]
    {
      if i <= FirstFailing(parse, spec, before.containers) {
        InertLeavesContainer(parse, spec, before.containers[i], after.containers[i]);
      }
    }
    assert after.containers == before.containers;
    assert spec.mandatoryLabels + before.labels == before.labels;
  }

  lemma ParsingPolicyDoesNotFail(parse: QuantityParser, spec: WorkloadPolicySpec, cs: seq<Container>)
    requires QuantitiesParse(parse, spec)
    ensures !PolicyFails(parse, spec, cs)
  {
    NeverFailsExactlyWhenQuantitiesParse(parse, spec);
  }

  ghost predicate HonestSilence(parse: QuantityParser, policies: seq<WorkloadPolicy>) {
    forall profiles, v, m | Possible(parse, profiles, policies, v, m) && !Flag(parse, v, m) :: Final(m) == v
  }

  ghost predicate DrawnFrom(policies: seq<WorkloadPolicy>, pool: set<WorkloadPolicy>) {
    forall p | p in policies :: p in pool
  }

  lemma {:induction false} QuietRunIsConstant(parse: QuantityParser, policies: seq<WorkloadPolicy>, pods: seq<PodValue>,
        n: nat)
    requires PolicyRun(parse, policies, pods) && n <= |policies|
    requires forall p | p in policies :: QuantitiesParse(parse, p.spec) || Inert(parse, p.spec)
    requires !SomeReport(parse, policies, pods)
    ensures pods[n] == pods[0]
  {
    hide PolicyOutcome, QuantitiesParse, Inert, PolicyFails;
    if n > 0 {
      QuietRunIsConstant(parse, policies, pods, n - 1);
      var p := policies[n - 1];
      assert p in policies && !Reports(parse, p.spec, pods[n - 1], pods[n]);
      if QuantitiesParse(parse, p.spec) {
        ParsingPolicyDoesNotFail(parse, p.spec, pods[n - 1].containers);
      } else {
        InertChangesNothing(parse, p.spec, pods[n - 1], pods[n]);
      }
    }
  }

  lemma SoundPoliciesAreHonest(parse: QuantityParser, policies: seq<WorkloadPolicy>)
    requires forall p | p in policies :: QuantitiesParse(parse, p.spec) || Inert(parse, p.spec)
    ensures HonestSilence(parse, policies)
  {
    hide PolicyOutcome, QuantitiesParse, Inert, PolicyFails, Settings, NonIncreasing;
    forall profiles, v, m | Possible(parse, profiles, policies, v, m) && !Flag(parse, v, m)
      ensures Final(m) == v
    {
      SameElements(m.policies, policies);
      QuietRunIsConstant(parse, m.policies, m.pods, |m.policies|);
    }
  }

  /** A map with a value of its own for every default that does not parse. */
  function Cover(parse: QuantityParser, defaults: map<string, string>): map<string, Quantity> {
    map r | r in defaults && parse(defaults[r]).None? :: Quantity("")
  }

  lemma CoverFillsAllButTheRest(parse: QuantityParser, defaults: map<string, string>)
    ensures Fillable(parse, defaults, Cover(parse, defaults))
    ensures Filled(parse, defaults, Cover(parse, defaults)) == Cover(parse, defaults)
          <==> Parsed(parse, defaults) == map[]
    ensures !AllParse(parse, defaults) ==> !Fillable(parse, defaults, map[])
  {
    if Parsed(parse, defaults) != map[] {
      var r :| r in Parsed(parse, defaults);
      assert r !in Cover(parse, defaults) && r in Filled(parse, defaults, Cover(parse, defaults));
    } else {
      assert Filled(parse, defaults, Cover(parse, defaults)) == Cover(parse, defaults);
    }
  }

  /** On two containers of which only the second fails, one outcome of a policy. */
  lemma OutcomeOfTwo(parse: QuantityParser, spec: WorkloadPolicySpec, labels: map<string, string>, a: Container,
        b: Container, b': Container)
    requires !ContainerFails(parse, spec, a)
    requires ContainerFails(parse, spec, b) && ContainerPartlyFilled(parse, spec, b, b')
    ensures var before := PodValue(labels, [a, b], [], None);
            var after := PodValue(spec.mandatoryLabels + labels, [ContainerFilled(parse, spec, a), b'], [], None);
            PolicyFails(parse, spec, before.containers) && PolicyOutcome(parse, spec, before, after)
  {
    hide ContainerFails, ContainerPartlyFilled, ContainerFilled;
    assert FirstFailing(parse, spec, [a, b][1..]) == 0;
    assert FirstFailing(parse, spec, [a, b]) == 1;
  }

  /** A silent round that changes the pod refutes honesty. */
  lemma QuietChange(parse: QuantityParser, p: WorkloadPolicy, before: PodValue, after: PodValue)
    requires PolicyOutcome(parse, p.spec, before, after)
    requires PolicyFails(parse, p.spec, before.containers) && after != before
    ensures !HonestSilence(parse, [p])
  {
    hide PolicyOutcome, PolicyFails;
    var m := Mutation([], [p], [before, after]);
    NothingInjected(before);
    assert Settings([]) == map[];
    assert Possible(parse, [], [p], before, m);
    assert !Flag(parse, before, m) && Final(m) != before;
  }

  /** The witness: a first container that takes everything the policy has, and a bare second one on which it fails. */
  lemma FailingPolicyIsDishonest(parse: QuantityParser, p: WorkloadPolicy)
    requires !QuantitiesParse(parse, p.spec) && !Inert(parse, p.spec)
    ensures !HonestSilence(parse, [p])
  {
    hide HonestSilence, PolicyOutcome, PolicyFails, Parsed, Filled, Cover, Fillable, AllParse;
    var a := Container("a", [], Cover(parse, p.spec.defaultRequests), Cover(parse, p.spec.defaultLimits), None);
    var b := Container("b", [], map[], map[], None);
    CoverFillsAllButTheRest(parse, p.spec.defaultRequests);
    CoverFillsAllButTheRest(parse, p.spec.defaultLimits);
    var b' := FailedContainer(parse, p.spec, b);
    FailedContainerIsPossible(parse, p.spec, b);
    OutcomeOfTwo(parse, p.spec, map[], a, b, b');
    var before := PodValue(map[], [a, b], [], None);
    var after := PodValue(p.spec.mandatoryLabels + map[], [ContainerFilled(parse, p.spec, a), b'], [], None);
    assert p.spec.mandatoryLabels + map[] == p.spec.mandatoryLabels;
    assert after.containers[0] != a || after.labels != map[];
    QuietChange(parse, p, before, after);
  }

  /** When "no mutations applied" loses nothing. A policy that hits a parse error keeps its labels and earlier
      resources in the pod but not in the flag, so the answer can drop them. For a pool of policies: every list over
      the pool answers honestly on every pod, under every sort and iteration order, if and only if each policy of the
      pool either parses completely or has nothing else to apply. */
  lemma SilenceIsHonestExactlyWhen(parse: QuantityParser, pool: set<WorkloadPolicy>)
    ensures (forall policies | DrawnFrom(policies, pool) :: HonestSilence(parse, policies))
            <==> forall p | p in pool :: QuantitiesParse(parse, p.spec) || Inert(parse, p.spec)
  {
    hide HonestSilence, QuantitiesParse, Inert;
    if forall p | p in pool :: QuantitiesParse(parse, p.spec) || Inert(parse, p.spec) {
      forall policies | DrawnFrom(policies, pool)
        ensures HonestSilence(parse, policies)
      {
        SoundPoliciesAreHonest(parse, policies);
      }
    }
    forall p | p in pool && !QuantitiesParse(parse, p.spec) && !Inert(parse, p.spec)
      ensures DrawnFrom([p], pool) && !HonestSilence(parse, [p])
    {
      FailingPolicyIsDishonest(parse, p);
    }
  }

  /** For instance: a policy with a label and one malformed request, on a pod with one bare container, gets the answer
      "no mutations applied" although the label is in the pod. */
  lemma LabelLostToBadQuantity(parse: QuantityParser) returns (m: Mutation)
    requires parse("not-a-quantity").None?
    ensures var policy := WorkloadPolicy(Key("team-a", "p"), "uid", 1,
                            WorkloadPolicySpec(map["cpu" := "not-a-quantity"], map[],
                                               map["team" := "platform"], 0, None));
            var v := PodValue(map[], [Container("app", [], map[], map[], None)], [], None);
            && Possible(parse, [], [policy], v, m)
            && !Flag(parse, v, m)
            && Final(m).labels == map["team" := "platform"]
  {
    var spec := WorkloadPolicySpec(map["cpu" := "not-a-quantity"], map[], map["team" := "platform"], 0, None);
    var policy := WorkloadPolicy(Key("team-a", "p"), "uid", 1, spec);
    var v := PodValue(map[], [Container("app", [], map[], map[], None)], [], None);
    var v' := v.(labels := map["team" := "platform"]);
    assert "cpu" in spec.defaultRequests;
    assert FirstFailing(parse, spec, v.containers) == 0;
    assert spec.mandatoryLabels + v.labels == v'.labels;
    assert PolicyOutcome(parse, spec, v, v');
    NothingInjected(v);
    assert Settings([]) == map[];
    m := Mutation([], [policy], [v, v']);
  }

  // ---------- the priority merge ----------

  function Labels(): Source<WorkloadPolicy, string> {
    Source(Priority(), (p: WorkloadPolicy) => p.spec.mandatoryLabels)
  }

  function Requests(parse: QuantityParser): Source<WorkloadPolicy, Quantity> {
    Source(Priority(), (p: WorkloadPolicy) => Parsed(parse, p.spec.defaultRequests))
  }

  function Limits(parse: QuantityParser): Source<WorkloadPolicy, Quantity> {
    Source(Priority(), (p: WorkloadPolicy) => Parsed(parse, p.spec.defaultLimits))
  }

  ghost predicate AllPoliciesParse(parse: QuantityParser, policies: seq<WorkloadPolicy>) {
    forall p | p in policies :: QuantitiesParse(parse, p.spec)
  }

  function LaidOnContainer(parse: QuantityParser, policies: seq<WorkloadPolicy>, c: Container): Container {
    c.(requests := FillAll(Requests(parse), policies, c.requests), limits := FillAll(Limits(parse), policies, c.limits))
  }

  /** All policies laid over the pod in list order. */
  function Laid(parse: QuantityParser, policies: seq<WorkloadPolicy>, v: PodValue): PodValue {
    v.(labels := FillAll(Labels(), policies, v.labels),
       containers := seq(|v.containers|, i requires 0 <= i < |v.containers| =>
             LaidOnContainer(parse, policies, v.containers[i])))
  }

  function LaidOne(parse: QuantityParser, spec: WorkloadPolicySpec, v: PodValue): PodValue {
    v.(labels := spec.mandatoryLabels + v.labels,
       containers := seq(|v.containers|, i requires 0 <= i < |v.containers| =>
             ContainerFilled(parse, spec, v.containers[i])))
  }

  /** A policy that parses has one outcome. */
  lemma ParsingOutcome(parse: QuantityParser, spec: WorkloadPolicySpec, before: PodValue, after: PodValue)
    requires QuantitiesParse(parse, spec)
    ensures PolicyOutcome(parse, spec, before, after) <==> after == LaidOne(parse, spec, before)
  {
    ParsingPolicyDoesNotFail(parse, spec, before.containers);
    if PolicyOutcome(parse, spec, before, after) {
      assert after.containers == LaidOne(parse, spec, before).containers;
    }
  }

  lemma LaidStep(parse: QuantityParser, policies: seq<WorkloadPolicy>, v: PodValue)
    requires policies != []
    ensures Laid(parse, policies, v) == Laid(parse, policies[1..], LaidOne(parse, policies[0].spec, v))
  {
    var w := LaidOne(parse, policies[0].spec, v);
    forall i | 0 <= i < |v.containers|
      ensures LaidOnContainer(parse, policies, v.containers[i])
            == LaidOnContainer(parse, policies[1..], w.containers[i])
    {
    }
    assert Laid(parse, policies, v).containers == Laid(parse, policies[1..], w).containers;
  }

  lemma NothingLaid(parse: QuantityParser, v: PodValue)
    ensures Laid(parse, [], v) == v
  {
    assert Laid(parse, [], v).containers == v.containers;
  }

  /** When all quantities parse, the policy loop ends in the laid pod, whatever the iteration orders. */
  lemma {:induction false} RunLaysPolicies(parse: QuantityParser, policies: seq<WorkloadPolicy>, pods: seq<PodValue>)
    requires PolicyRun(parse, policies, pods) && AllPoliciesParse(parse, policies)
    ensures pods[|policies|] == Laid(parse, policies, pods[0])
  {
    hide PolicyOutcome, QuantitiesParse, LaidOne;
    if policies == [] {
      NothingLaid(parse, pods[0]);
    } else {
      ParsingOutcome(parse, policies[0].spec, pods[0], pods[1]);
      LaidStep(parse, policies, pods[0]);
      forall i | 0 <= i < |policies[1..]|
        ensures PolicyOutcome(parse, policies[1..][i].spec, pods[1..][i], pods[1..][i + 1])
      {
        assert PolicyOutcome(parse, policies[i + 1].spec, pods[i + 1], pods[i + 2]);
      }
      RunLaysPolicies(parse, policies[1..], pods[1..]);
    }
  }

  /** The declarative reading of an admitted container and pod. */
  ghost predicate ContainerMerged(parse: QuantityParser, policies: seq<WorkloadPolicy>, c: Container, c': Container) {
    && c' == c.(env := c'.env, requests := c'.requests, limits := c'.limits)
    && IsPriorityMerge(Requests(parse), policies, c.requests, c'.requests)
    && IsPriorityMerge(Limits(parse), policies, c.limits, c'.limits)
  }

  ghost predicate PodMerged(parse: QuantityParser, policies: seq<WorkloadPolicy>, v: PodValue, v': PodValue) {
    && v' == v.(labels := v'.labels, containers := v'.containers)
    && IsPriorityMerge(Labels(), policies, v.labels, v'.labels)
    && |v'.containers| == |v.containers|
    && forall i | 0 <= i < |v.containers| :: ContainerMerged(parse, policies, v.containers[i], v'.containers[i])
  }

  lemma LaidIsMerged(parse: QuantityParser, policies: seq<WorkloadPolicy>, sorted: seq<WorkloadPolicy>, v: PodValue)
    requires Sorts(Priority(), policies, sorted)
    ensures PodMerged(parse, policies, v, Laid(parse, sorted, v))
  {
    hide IsPriorityMerge, FillAll, Sorts, Parsed;
    SortThenFillIsPriorityMerge(Labels(), policies, sorted, v.labels);
    forall i | 0 <= i < |v.containers|
      ensures ContainerMerged(parse, policies, v.containers[i], LaidOnContainer(parse, sorted, v.containers[i]))
    {
      SortThenFillIsPriorityMerge(Requests(parse), policies, sorted, v.containers[i].requests);
      SortThenFillIsPriorityMerge(Limits(parse), policies, sorted, v.containers[i].limits);
    }
  }

  /** When all quantities parse, every admission, under every tie-break and iteration order, ends in a priority merge
      of the listed policies over the pod: each label and, per container, each request and limit keeps the user's
      value, else takes that of a highest-priority policy defining it, else stays absent. */
  lemma AdmissionIsPriorityMerge(parse: QuantityParser, profiles: seq<TelemetryProfile>, policies: seq<WorkloadPolicy>,
        v: PodValue, m: Mutation)
    requires Possible(parse, profiles, policies, v, m) && AllPoliciesParse(parse, policies)
    ensures PodMerged(parse, policies, InjectedPod(v, Settings(m.profiles)), Final(m))
    ensures Final(m) == Laid(parse, m.policies, InjectedPod(v, Settings(m.profiles)))
  {
    hide PolicyOutcome, QuantitiesParse, PodMerged, Settings, NonIncreasing;
    SameElements(m.policies, policies);
    RunLaysPolicies(parse, m.policies, m.pods);
    LaidIsMerged(parse, policies, m.policies, m.pods[0]);
  }

  // ---------- what holds even when policies fail ----------

  lemma {:induction false} RunFillsLabels(parse: QuantityParser, policies: seq<WorkloadPolicy>, pods: seq<PodValue>)
    requires PolicyRun(parse, policies, pods)
    ensures pods[|policies|].labels == FillAll(Labels(), policies, pods[0].labels)
  {
    hide ResourcesOutcome;
    if policies != [] {
      assert PolicyOutcome(parse, policies[0].spec, pods[0], pods[1]);
      forall i | 0 <= i < |policies[1..]|
        ensures PolicyOutcome(parse, policies[1..][i].spec, pods[1..][i], pods[1..][i + 1])
      {
        assert PolicyOutcome(parse, policies[i + 1].spec, pods[i + 1], pods[i + 2]);
      }
      RunFillsLabels(parse, policies[1..], pods[1..]);
    }
  }

  /** Every value of `after` is the user's or is what some policy's default for the key parses to. */
  ghost predicate FromDefaults(parse: QuantityParser, defaults: WorkloadPolicySpec -> map<string, string>,
        policies: seq<WorkloadPolicy>, before: map<string, Quantity>, after: map<string, Quantity>) {
    forall r | r in after && r !in before ::
      exists p :: p in policies && r in defaults(p.spec) && parse(defaults(p.spec)[r]) == Some(after[r])
  }

  function DefaultRequests(): WorkloadPolicySpec -> map<string, string> {
    (s: WorkloadPolicySpec) => s.defaultRequests
  }

  function DefaultLimits(): WorkloadPolicySpec -> map<string, string> {
    (s: WorkloadPolicySpec) => s.defaultLimits
  }

  /** Where the settings of an admitted container come from: the environment from the profiles only, added requests
      and limits from some policy. */
  ghost predicate Sourced(parse: QuantityParser, policies: seq<WorkloadPolicy>, c: Container, c': Container) {
    && c'.env == c.env
    && FromDefaults(parse, DefaultRequests(), policies, c.requests, c'.requests)
    && FromDefaults(parse, DefaultLimits(), policies, c.limits, c'.limits)
  }

  lemma OutcomeIsSourced(parse: QuantityParser, policies: seq<WorkloadPolicy>, p: WorkloadPolicy, before: PodValue,
        after: PodValue, i: nat)
    requires PolicyOutcome(parse, p.spec, before, after) && p in policies && i < |before.containers|
    ensures |after.containers| == |before.containers|
    ensures Sourced(parse, policies, before.containers[i], after.containers[i])
  {
    var c, c' := before.containers[i], after.containers[i];
    var n := FirstFailing(parse, p.spec, before.containers);
    if i == n {
      assert ContainerPartlyFilled(parse, p.spec, c, c');
    }
    forall r | r in c'.requests && r !in c.requests
      ensures r in p.spec.defaultRequests && parse(p.spec.defaultRequests[r]) == Some(c'.requests[r])
    {
      assert r in Filled(parse, p.spec.defaultRequests, c.requests);
    }
    forall r | r in c'.limits && r !in c.limits
      ensures r in p.spec.defaultLimits && parse(p.spec.defaultLimits[r]) == Some(c'.limits[r])
    {
      assert r in Filled(parse, p.spec.defaultLimits, c.limits);
    }
  }

  lemma {:induction false} RunIsSourced(parse: QuantityParser, policies: seq<WorkloadPolicy>, pods: seq<PodValue>,
        i: nat, n: nat)
    requires PolicyRun(parse, policies, pods) && n <= |policies| && i < |pods[0].containers|
    ensures |pods[n].containers| == |pods[0].containers|
    ensures Sourced(parse, policies, pods[0].containers[i], pods[n].containers[i])
  {
    hide PolicyOutcome;
    if n > 0 {
      RunIsSourced(parse, policies, pods, i, n - 1);
      OutcomeIsSourced(parse, policies, policies[n - 1], pods[n - 1], pods[n], i);
      OutcomeExtends(parse, policies[n - 1].spec, pods[n - 1], pods[n]);
      assert ContainerExtends(pods[n - 1].containers[i], pods[n].containers[i]);
    }
  }

  /** On every path, failing policies included: the labels are the priority merge of the listed policies over the
      pod's own; each container's environment has exactly the settings of the profiles injected; and every added
      request or limit is a default of some listed policy that parses. */
  lemma AdmissionIsSourced(parse: QuantityParser, profiles: seq<TelemetryProfile>, policies: seq<WorkloadPolicy>,
        v: PodValue, m: Mutation)
    requires Possible(parse, profiles, policies, v, m)
    ensures IsPriorityMerge(Labels(), policies, v.labels, Final(m).labels)
    ensures |Final(m).containers| == |v.containers|
    ensures forall i | 0 <= i < |v.containers| ::
              && Final(m).containers[i].env == Injected(v.containers[i].env, Settings(m.profiles))
              && FromDefaults(parse, DefaultRequests(), policies, v.containers[i].requests,
                    Final(m).containers[i].requests)
              && FromDefaults(parse, DefaultLimits(), policies, v.containers[i].limits, Final(m).containers[i].limits)
  {
    hide PolicyOutcome, Settings, NonIncreasing, Injected, IsPriorityMerge, FillAll;
    RunFillsLabels(parse, m.policies, m.pods);
    SortThenFillIsPriorityMerge(Labels(), policies, m.policies, v.labels);
    SameElements(m.policies, policies);
    RunExtends(parse, m.policies, m.pods, 0, |m.policies|);
    forall i | 0 <= i < |v.containers|
      ensures Sourced(parse, m.policies, m.pods[0].containers[i], Final(m).containers[i])
    {
      RunIsSourced(parse, m.policies, m.pods, i, |m.policies|);
    }
  }

  // ---------- idempotence ----------

  lemma {:induction false} SaturatedFillIsIdle<T(!new), V(!new)>(src: Source<T, V>, sorted: seq<T>,
        result: map<string, V>)
    requires forall x | x in sorted :: src.values(x) + result == result
    ensures FillAll(src, sorted, result) == result
  {
    if sorted != [] {
      assert sorted[0] in sorted;
      SaturatedFillIsIdle(src, sorted[1..], result);
    }
  }

  lemma MergedIsSaturated<T(!new), V(!new)>(src: Source<T, V>, items: seq<T>, sorted: seq<T>, base: map<string, V>,
        result: map<string, V>)
    requires IsPriorityMerge(src, items, base, result) && multiset(sorted) == multiset(items)
    ensures FillAll(src, sorted, result) == result
  {
    hide IsPriorityMerge;
    SameElements(sorted, items);
    forall x | x in sorted
      ensures src.values(x) + result == result
    {
      MergeIsSaturated(src, items, base, result, x);
    }
    SaturatedFillIsIdle(src, sorted, result);
  }

  lemma LayingAgainIsIdle(parse: QuantityParser, policies: seq<WorkloadPolicy>, sorted: seq<WorkloadPolicy>,
        v: PodValue, v': PodValue)
    requires PodMerged(parse, policies, v, v') && multiset(sorted) == multiset(policies)
    ensures Laid(parse, sorted, v') == v'
  {
    hide IsPriorityMerge, FillAll;
    MergedIsSaturated(Labels(), policies, sorted, v.labels, v'.labels);
    forall i | 0 <= i < |v.containers|
      ensures LaidOnContainer(parse, sorted, v'.containers[i]) == v'.containers[i]
    {
      assert ContainerMerged(parse, policies, v.containers[i], v'.containers[i]);
      MergedIsSaturated(Requests(parse), policies, sorted, v.containers[i].requests, v'.containers[i].requests);
      MergedIsSaturated(Limits(parse), policies, sorted, v.containers[i].limits, v'.containers[i].limits);
    }
    assert Laid(parse, sorted, v').containers == v'.containers;
  }

  lemma InjectingAgainIsIdle(profiles: seq<TelemetryProfile>, first: seq<TelemetryProfile>,
        second: seq<TelemetryProfile>, v: PodValue, parse: QuantityParser, policies: seq<WorkloadPolicy>)
    requires Sorts(Profiles().priority, profiles, first) && Sorts(Profiles().priority, profiles, second)
    ensures var v' := Laid(parse, policies, InjectedPod(v, Settings(first)));
            InjectedPod(v', Settings(second)) == v'
  {
    hide Injected, Settings, Sorts, FillAll;
    var v' := Laid(parse, policies, InjectedPod(v, Settings(first)));
    forall i | 0 <= i < |v'.containers|
      ensures Injected(v'.containers[i].env, Settings(second)) == v'.containers[i].env
    {
      InjectionIsIdempotent(profiles, first, second, v.containers[i].env);
    }
    assert InjectedPod(v', Settings(second)).containers == v'.containers;
  }

  /** Admitting an admitted pod again, with the same profiles and policies listed and sorted in any other way, reports
      no mutation and leaves the pod as it is. */
  lemma MutationIsIdempotent(parse: QuantityParser, profiles: seq<TelemetryProfile>, policies: seq<WorkloadPolicy>,
        v: PodValue, m: Mutation, profiles': seq<TelemetryProfile>, policies': seq<WorkloadPolicy>, m': Mutation)
    requires AllPoliciesParse(parse, policies)
    requires multiset(profiles') == multiset(profiles) && multiset(policies') == multiset(policies)
    requires Possible(parse, profiles, policies, v, m) && Possible(parse, profiles', policies', Final(m), m')
    ensures Final(m') == Final(m)
    ensures !Flag(parse, Final(m), m')
  {
    hide PolicyOutcome, PodMerged, QuantitiesParse, Settings, NonIncreasing, Laid, InjectedPod;
    SameElements(policies', policies);
    AdmissionIsPriorityMerge(parse, profiles, policies, v, m);
    AdmissionIsPriorityMerge(parse, profiles', policies', Final(m), m');
    InjectingAgainIsIdle(profiles, m.profiles, m'.profiles, v, parse, m.policies);
    LayingAgainIsIdle(parse, policies, m'.policies, InjectedPod(v, Settings(m.profiles)), Final(m));
    forall i | 0 <= i < |m'.policies|
      ensures !Reports(parse, m'.policies[i].spec, m'.pods[i], m'.pods[i + 1])
    {
      RunIsConstant(parse, m'.policies, m'.pods, i);
      RunIsConstant(parse, m'.policies, m'.pods, i + 1);
    }
  }
}
