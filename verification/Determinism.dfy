/** When the admitted pod depends on nothing but its inputs. */
module Determinism {
  import opened Common
  import opened Types
  import opened Pods
  import opened Priorities
  import opened PriorityMerge
  import opened Telemetry
  import opened PodMutator
  import opened MutatorTheorems

  /** The same profiles and policies, listed in another order. */
  ghost predicate Relisted(profiles: seq<TelemetryProfile>, policies: seq<WorkloadPolicy>,
        profiles': seq<TelemetryProfile>, policies': seq<WorkloadPolicy>) {
    multiset(profiles') == multiset(profiles) && multiset(policies') == multiset(policies)
  }

  /** The admitted pod is the same for every listing order, sort and iteration order, whatever the incoming pod. */
  ghost predicate Determined(parse: QuantityParser, profiles: seq<TelemetryProfile>, policies: seq<WorkloadPolicy>) {
    forall profiles', policies', v, m, m' |
      && Relisted(profiles, policies, profiles', policies')
      && Possible(parse, profiles, policies, v, m)
      && Possible(parse, profiles', policies', v, m') ::
      Final(m) == Final(m')
  }

  lemma RelistingChangesNothing(parse: QuantityParser, profiles: seq<TelemetryProfile>, policies: seq<WorkloadPolicy>,
        profiles': seq<TelemetryProfile>, policies': seq<WorkloadPolicy>, v: PodValue, m: Mutation)
    requires Relisted(profiles, policies, profiles', policies')
    ensures Possible(parse, profiles', policies', v, m) <==> Possible(parse, profiles, policies, v, m)
  {
  }

  /** For every label, request, limit and telemetry setting, the highest-priority definers agree on the value. */
  ghost predicate AllLeadersAgree(parse: QuantityParser, profiles: seq<TelemetryProfile>,
        policies: seq<WorkloadPolicy>) {
    && LeadersAgree(Labels(), policies)
    && LeadersAgree(Requests(parse), policies)
    && LeadersAgree(Limits(parse), policies)
    && LeadersAgree(Profiles(), profiles)
  }

  // ---------- agreement determines the pod ----------

  lemma FillsAgree<T(!new), V(!new)>(src: Source<T, V>, items: seq<T>, a: seq<T>, b: seq<T>, base: map<string, V>)
    requires LeadersAgree(src, items)
    requires Sorts(src.priority, items, a) && Sorts(src.priority, items, b)
    ensures FillAll(src, a, base) == FillAll(src, b, base)
  {
    MergeIsDeterminedExactlyWhenLeadersAgree(src, items);
  }

  lemma LaidAgree(parse: QuantityParser, policies: seq<WorkloadPolicy>, a: seq<WorkloadPolicy>, b: seq<WorkloadPolicy>,
        v: PodValue)
    requires LeadersAgree(Labels(), policies) && LeadersAgree(Requests(parse), policies)
          && LeadersAgree(Limits(parse), policies)
    requires Sorts(Priority(), policies, a) && Sorts(Priority(), policies, b)
    ensures Laid(parse, a, v) == Laid(parse, b, v)
  {
    hide LeadersAgree, FillAll, Sorts;
    FillsAgree(Labels(), policies, a, b, v.labels);
    forall i | 0 <= i < |v.containers|
      ensures LaidOnContainer(parse, a, v.containers[i]) == LaidOnContainer(parse, b, v.containers[i])
    {
      FillsAgree(Requests(parse), policies, a, b, v.containers[i].requests);
      FillsAgree(Limits(parse), policies, a, b, v.containers[i].limits);
    }
    assert Laid(parse, a, v).containers == Laid(parse, b, v).containers;
  }

  lemma AgreementDetermines(parse: QuantityParser, profiles: seq<TelemetryProfile>, policies: seq<WorkloadPolicy>)
    requires AllPoliciesParse(parse, policies) && AllLeadersAgree(parse, profiles, policies)
    ensures Determined(parse, profiles, policies)
  {
    hide LeadersAgree, QuantitiesParse, PolicyOutcome, NonIncreasing, PodMerged, InjectedPod, FillAll;
    forall profiles', policies', v, m, m' |
      && Relisted(profiles, policies, profiles', policies')
      && Possible(parse, profiles, policies, v, m)
      && Possible(parse, profiles', policies', v, m')
      ensures Final(m) == Final(m')
    {
      RelistingChangesNothing(parse, profiles, policies, profiles', policies', v, m');
      AdmissionIsPriorityMerge(parse, profiles, policies, v, m);
      AdmissionIsPriorityMerge(parse, profiles, policies, v, m');
      FillsAgree(Profiles(), profiles, m.profiles, m'.profiles, map[]);
      LaidAgree(parse, policies, m.policies, m'.policies, m.pods[0]);
    }
  }

  // ---------- disagreement shows ----------

  function RunOf(parse: QuantityParser, policies: seq<WorkloadPolicy>, v: PodValue): (pods: seq<PodValue>)
    ensures |pods| == |policies| + 1 && pods[0] == v
  {
    if policies == [] then [v] else [v] + RunOf(parse, policies[1..], LaidOne(parse, policies[0].spec, v))
  }

  lemma {:induction false} RunOfIsRun(parse: QuantityParser, policies: seq<WorkloadPolicy>, v: PodValue)
    requires AllPoliciesParse(parse, policies)
    ensures PolicyRun(parse, policies, RunOf(parse, policies, v))
  {
    hide PolicyOutcome, QuantitiesParse, LaidOne;
    if policies != [] {
      var next := LaidOne(parse, policies[0].spec, v);
      RunOfIsRun(parse, policies[1..], next);
      ParsingOutcome(parse, policies[0].spec, v, next);
      var pods := RunOf(parse, policies, v);
      forall i | 0 <= i < |policies|
        ensures PolicyOutcome(parse, policies[i].spec, pods[i], pods[i + 1])
      {
        if i > 0 {
          var rest := RunOf(parse, policies[1..], next);
          assert PolicyOutcome(parse, policies[1..][i - 1].spec, rest[i - 1], rest[i]);
        }
      }
    }
  }

  /** Every pair of sorts is met by some admission. */
  lemma SortsHappen(parse: QuantityParser, profiles: seq<TelemetryProfile>, policies: seq<WorkloadPolicy>,
        a: seq<TelemetryProfile>, b: seq<WorkloadPolicy>, v: PodValue)
    returns (m: Mutation)
    requires AllPoliciesParse(parse, policies)
    requires Sorts(Profiles().priority, profiles, a) && Sorts(Priority(), policies, b)
    ensures Possible(parse, profiles, policies, v, m)
    ensures Final(m) == Laid(parse, b, InjectedPod(v, Settings(a)))
  {
    hide PolicyRun, QuantitiesParse, NonIncreasing, Laid, InjectedPod, Settings;
    var start := InjectedPod(v, Settings(a));
    SameElements(b, policies);
    RunOfIsRun(parse, b, start);
    m := Mutation(a, b, RunOf(parse, b, start));
    AdmissionIsPriorityMerge(parse, profiles, policies, v, m);
  }

  /** Two sorts that make different pods refute determinism. */
  lemma TwoSortsRefute(parse: QuantityParser, profiles: seq<TelemetryProfile>, policies: seq<WorkloadPolicy>,
        p: seq<TelemetryProfile>, q: seq<TelemetryProfile>, a: seq<WorkloadPolicy>, b: seq<WorkloadPolicy>, v: PodValue)
    requires AllPoliciesParse(parse, policies)
    requires Sorts(Profiles().priority, profiles, p) && Sorts(Profiles().priority, profiles, q)
    requires Sorts(Priority(), policies, a) && Sorts(Priority(), policies, b)
    requires Laid(parse, a, InjectedPod(v, Settings(p))) != Laid(parse, b, InjectedPod(v, Settings(q)))
    ensures !Determined(parse, profiles, policies)
  {
    hide Possible, Sorts, QuantitiesParse, Laid, InjectedPod, Settings;
    var m := SortsHappen(parse, profiles, policies, p, a, v);
    var m' := SortsHappen(parse, profiles, policies, q, b, v);
  }

  lemma LabelsUndetermined(parse: QuantityParser, profiles: seq<TelemetryProfile>, policies: seq<WorkloadPolicy>)
    requires AllPoliciesParse(parse, policies) && !LeadersAgree(Labels(), policies)
    ensures !Determined(parse, profiles, policies)
  {
    hide Determined, LeadersAgree, Sorts, QuantitiesParse, Settings;
    MergeIsDeterminedExactlyWhenLeadersAgree(Labels(), policies);
    var a, b, base :| Sorts(Priority(), policies, a) && Sorts(Priority(), policies, b)
                      && FillAll(Labels(), a, base) != FillAll(Labels(), b, base);
    var p := Sorted(Profiles().priority, profiles);
    SortedSorts(Profiles().priority, profiles);
    TwoSortsRefute(parse, profiles, policies, p, p, a, b, PodValue(base, [], [], None));
  }

  lemma RequestsUndetermined(parse: QuantityParser, profiles: seq<TelemetryProfile>, policies: seq<WorkloadPolicy>)
    requires AllPoliciesParse(parse, policies) && !LeadersAgree(Requests(parse), policies)
    ensures !Determined(parse, profiles, policies)
  {
    hide Determined, LeadersAgree, Sorts, QuantitiesParse, Settings, Injected, FillAll;
    MergeIsDeterminedExactlyWhenLeadersAgree(Requests(parse), policies);
    var a, b, base :| Sorts(Priority(), policies, a) && Sorts(Priority(), policies, b)
                      && FillAll(Requests(parse), a, base) != FillAll(Requests(parse), b, base);
    var p := Sorted(Profiles().priority, profiles);
    SortedSorts(Profiles().priority, profiles);
    var v := PodValue(map[], [Container("", [], base, map[], None)], [], None);
    var w := InjectedPod(v, Settings(p));
    assert Laid(parse, a, w).containers[0].requests != Laid(parse, b, w).containers[0].requests;
    TwoSortsRefute(parse, profiles, policies, p, p, a, b, v);
  }

  lemma LimitsUndetermined(parse: QuantityParser, profiles: seq<TelemetryProfile>, policies: seq<WorkloadPolicy>)
    requires AllPoliciesParse(parse, policies) && !LeadersAgree(Limits(parse), policies)
    ensures !Determined(parse, profiles, policies)
  {
    hide Determined, LeadersAgree, Sorts, QuantitiesParse, Settings, Injected, FillAll;
    MergeIsDeterminedExactlyWhenLeadersAgree(Limits(parse), policies);
    var a, b, base :| Sorts(Priority(), policies, a) && Sorts(Priority(), policies, b)
                      && FillAll(Limits(parse), a, base) != FillAll(Limits(parse), b, base);
    var p := Sorted(Profiles().priority, profiles);
    SortedSorts(Profiles().priority, profiles);
    var v := PodValue(map[], [Container("", [], map[], base, None)], [], None);
    var w := InjectedPod(v, Settings(p));
    assert Laid(parse, a, w).containers[0].limits != Laid(parse, b, w).containers[0].limits;
    TwoSortsRefute(parse, profiles, policies, p, p, a, b, v);
  }

  lemma EnvsDiffer(s: map<string, string>, t: map<string, string>, key: string)
    requires key == ENDPOINT || key == SAMPLER
    requires key in s && key in t && s[key] != t[key]
    ensures Injected([], s) != Injected([], t)
  {
    hide Injected;
    EntriesAdded([], s, key);
    EntriesAdded([], t, key);
    assert EnvVar(key, s[key]) in Injected([], s)[0..] && EnvVar(key, t[key]) in Injected([], t)[0..];
  }

  lemma TelemetryUndetermined(parse: QuantityParser, profiles: seq<TelemetryProfile>, policies: seq<WorkloadPolicy>)
    requires AllPoliciesParse(parse, policies) && !LeadersAgree(Profiles(), profiles)
    ensures !Determined(parse, profiles, policies)
  {
    hide Determined, Sorts, QuantitiesParse, Injected;
    var x, y, key :| Leads(Profiles(), profiles, x, key) && Leads(Profiles(), profiles, y, key)
                     && Offers(x)[key] != Offers(y)[key];
    var p := LeaderMayWin(Profiles(), profiles, x, map[], key);
    var q := LeaderMayWin(Profiles(), profiles, y, map[], key);
    EnvsDiffer(Settings(p), Settings(q), key);
    var a := Sorted(Priority(), policies);
    SortedSorts(Priority(), policies);
    var v := PodValue(map[], [Container("", [], map[], map[], None)], [], None);
    assert Laid(parse, a, InjectedPod(v, Settings(p))).containers[0].env
           != Laid(parse, a, InjectedPod(v, Settings(q))).containers[0].env;
    TwoSortsRefute(parse, profiles, policies, p, q, a, a, v);
  }

  // ---------- the theorem ----------

  /** Ties, when all quantities parse: the admitted pod is the same under every listing order, sort and iteration
      order, for every incoming pod, if and only if the highest-priority definers of each key agree. */
  lemma DeterminedExactlyWhenLeadersAgree(parse: QuantityParser, profiles: seq<TelemetryProfile>,
        policies: seq<WorkloadPolicy>)
    requires AllPoliciesParse(parse, policies)
    ensures Determined(parse, profiles, policies) <==> AllLeadersAgree(parse, profiles, policies)
  {
    hide LeadersAgree, Determined, QuantitiesParse;
    if AllLeadersAgree(parse, profiles, policies) {
      AgreementDetermines(parse, profiles, policies);
    }
    if !LeadersAgree(Labels(), policies) {
      LabelsUndetermined(parse, profiles, policies);
    }
    if !LeadersAgree(Requests(parse), policies) {
      RequestsUndetermined(parse, profiles, policies);
    }
    if !LeadersAgree(Limits(parse), policies) {
      LimitsUndetermined(parse, profiles, policies);
    }
    if !LeadersAgree(Profiles(), profiles) {
      TelemetryUndetermined(parse, profiles, policies);
    }
  }

  /** A tie: two policies of equal priority with different defaults for one label. */
  lemma TieMakesTwoPods(parse: QuantityParser)
    ensures var p := WorkloadPolicy(Key("team-a", "p"), "1", 1,
                                    WorkloadPolicySpec(map[], map[], map["team" := "red"], 0, None));
            var q := WorkloadPolicy(Key("team-a", "q"), "2", 1,
                                    WorkloadPolicySpec(map[], map[], map["team" := "blue"], 0, None));
            AllPoliciesParse(parse, [p, q]) && !Determined(parse, [], [p, q])
  {
    var p := WorkloadPolicy(Key("team-a", "p"), "1", 1,
                            WorkloadPolicySpec(map[], map[], map["team" := "red"], 0, None));
    var q := WorkloadPolicy(Key("team-a", "q"), "2", 1,
                            WorkloadPolicySpec(map[], map[], map["team" := "blue"], 0, None));
    assert p in [p, q] && q in [p, q] && "team" in Labels().values(p) && "team" in Labels().values(q);
    assert Leads(Labels(), [p, q], p, "team") && Leads(Labels(), [p, q], q, "team");
    assert !LeadersAgree(Labels(), [p, q]);
    DeterminedExactlyWhenLeadersAgree(parse, [], [p, q]);
  }
}
