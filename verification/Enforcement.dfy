/** What "Available: being enforced" is worth: when an error-free reconcile of a policy leaves the deployments of its
    namespace in the state the policy asks for. */
module Enforcement {
  import opened Common
  import opened Types
  import opened Hpa
  import opened HpaPass
  import opened HpaTheorems
  import opened Election
  import opened Reconciler
  import opened Confluence
  import Status

  /** The policy drives the autoscalers of its namespace. */
  ghost predicate Elected(w: World, key: Key, policyOrder: seq<Key>)
    requires key in w.policies && forall k | k in policyOrder :: k in w.policies
  {
    Contender(PolicyAt(w, key)) && IsHighest(PoliciesIn(w, policyOrder), PolicyAt(w, key))
  }

  ghost predicate Succeeds(w: World, key: Key, api: ApiBehaviour) {
    Answers(w, key.namespace, api) && ReconcileSpec(w, key, api).error.None?
  }

  /** From every map of autoscalers and under every behaviour of the API, a reconcile of the policy without error
      settles every deployment. */
  ghost predicate Enforces(w: World, key: Key, deploymentOrder: seq<Key>)
    requires key in w.policies && forall k | k in deploymentOrder :: k in w.deployments
  {
    forall hpas: HpaMap, api | Succeeds(w.(hpas := hpas), key, api) ::
      Converged(PolicyAt(w, key), DeploymentsIn(w, deploymentOrder),
                ReconcileSpec(w.(hpas := hpas), key, api).world.hpas)
  }

  function CalmApi(policyOrder: seq<Key>, deploymentOrder: seq<Key>): (api: ApiBehaviour)
    ensures Calm(api) && |api.steps| == |deploymentOrder|
  {
    ApiBehaviour(Works, Works, policyOrder, Works, deploymentOrder, seq(|deploymentOrder|, _ => NO_FAULTS), Works)
  }

  /** A calm reconcile of a policy that is not elected succeeds and leaves the autoscalers alone. */
  lemma LoserSucceedsIdly(w: World, key: Key, api: ApiBehaviour)
    requires key in w.policies && Answers(w, key.namespace, api) && Calm(api)
    requires !Elected(w, key, api.policyOrder)
    ensures Succeeds(w, key, api) && ReconcileSpec(w, key, api).world.hpas == w.hpas
  {
    hide IsHighest, Pass, PoliciesIn, Status.Shows, Status.WithCondition;
  }

  /** A start from which doing nothing leaves the deployment unsettled: no autoscaler where one is wanted, a managed
      one where none is. */
  function Disturbed(policy: WorkloadPolicy, d: Deployment): HpaMap {
    if Wanted(policy, d) then map[] else map[HpaKey(d) := DesiredHpa(policy, d)]
  }

  lemma DisturbedIsUnsettled(policy: WorkloadPolicy, d: Deployment)
    requires AnnotationParses(policy, d)
    ensures !Settled(policy, d, Lookup(Disturbed(policy, d), HpaKey(d)))
  {
  }

  lemma SuccessMeansPassed(w: World, key: Key, api: ApiBehaviour)
    requires key in w.policies && Succeeds(w, key, api)
    ensures api.getPolicy == Works
    ensures Contender(PolicyAt(w, key)) ==> api.listPolicies == Works
    ensures Contender(PolicyAt(w, key)) && IsHighest(PoliciesIn(w, api.policyOrder), PolicyAt(w, key)) ==>
              && api.listDeployments == Works
              && Pass(PolicyAt(w, key), DeploymentsIn(w, api.deploymentOrder), api.steps, w.hpas).outcome.Done?
  {
    hide Pass, IsHighest, StatusPhase;
  }

  lemma WinnerSettles(w: World, key: Key, policyOrder: seq<Key>, deploymentOrder: seq<Key>, api: ApiBehaviour)
    requires key in w.policies
    requires Enumerates(policyOrder, w.policies.Keys, key.namespace)
    requires Enumerates(deploymentOrder, w.deployments.Keys, key.namespace)
    requires Elected(w, key, policyOrder) && NoClash(PolicyAt(w, key), DeploymentsIn(w, deploymentOrder))
    requires Succeeds(w, key, api)
    ensures Converged(PolicyAt(w, key), DeploymentsIn(w, deploymentOrder), ReconcileSpec(w, key, api).world.hpas)
  {
    hide Pass, IsHighest, PoliciesIn, StatusPhase, ReconcileSpec, HpaPhase, Settled;
    var policy := PolicyAt(w, key);
    var ds, es := DeploymentsIn(w, deploymentOrder), DeploymentsIn(w, api.deploymentOrder);
    HpasAfterReconcile(w, key, api);
    HpasAfterPhase(w, key, api);
    SuccessMeansPassed(w, key, api);
    ElectionCarriesOver(w, w, policyOrder, api.policyOrder, key.namespace, policy);
    SameDeploymentsListed(w, w, deploymentOrder, api.deploymentOrder, key.namespace);
    SuccessSettles(policy, es, api.steps, w.hpas);
  }

  /** Listings do not depend on the stored autoscalers. */
  lemma SameView(w: World, hpas: HpaMap, policyOrder: seq<Key>, deploymentOrder: seq<Key>)
    requires forall k | k in policyOrder :: k in w.policies
    requires forall k | k in deploymentOrder :: k in w.deployments
    ensures var w' := w.(hpas := hpas);
            && PoliciesIn(w', policyOrder) == PoliciesIn(w, policyOrder)
            && DeploymentsIn(w', deploymentOrder) == DeploymentsIn(w, deploymentOrder)
            && forall k | k in w.policies :: PolicyAt(w', k) == PolicyAt(w, k)
  {
  }

  lemma CalmElectedSucceeds(w: World, key: Key, api: ApiBehaviour)
    requires key in w.policies && Answers(w, key.namespace, api) && Calm(api)
    requires Elected(w, key, api.policyOrder)
    requires Pass(PolicyAt(w, key), DeploymentsIn(w, api.deploymentOrder), api.steps, w.hpas).outcome.Done?
    ensures Succeeds(w, key, api)
  {
    hide Pass, IsHighest, Status.Shows, Status.WithCondition;
  }

  lemma ListedKeysAreDistinct(w: World, order: seq<Key>, namespace: string)
    requires Enumerates(order, w.deployments.Keys, namespace)
    ensures DistinctKeys(DeploymentsIn(w, order))
    ensures forall d, e | d in DeploymentsIn(w, order) && e in DeploymentsIn(w, order) && d != e :: d.key != e.key
  {
    forall d | d in DeploymentsIn(w, order)
      ensures d.annotations == w.deployments[d.key]
    {
      DeploymentsListed(w, order, d);
    }
  }

  /** A calm reconcile of the elected policy leaves what a clean pass leaves. */
  lemma WinnerPasses(w: World, key: Key, policyOrder: seq<Key>, deploymentOrder: seq<Key>)
    requires key in w.policies
    requires Enumerates(policyOrder, w.policies.Keys, key.namespace)
    requires Enumerates(deploymentOrder, w.deployments.Keys, key.namespace)
    requires Elected(w, key, policyOrder)
    requires CleanPass(PolicyAt(w, key), DeploymentsIn(w, deploymentOrder), w.hpas).outcome.Done?
    ensures var api := CalmApi(policyOrder, deploymentOrder);
            && Succeeds(w, key, api)
            && ReconcileSpec(w, key, api).world.hpas
               == CleanPass(PolicyAt(w, key), DeploymentsIn(w, deploymentOrder), w.hpas).hpas
  {
    hide Pass, IsHighest, PoliciesIn, ReconcileSpec, HpaPhase;
    var api := CalmApi(policyOrder, deploymentOrder);
    assert api.steps == seq(|DeploymentsIn(w, deploymentOrder)|, _ => NO_FAULTS);
    CalmElectedSucceeds(w, key, api);
    HpasAfterReconcile(w, key, api);
    HpasAfterPhase(w, key, api);
  }

  /** With clashes, a calm reconcile of the elected policy from no autoscalers at all succeeds and settles not
      everyone. */
  lemma ClashBreaksEnforcement(w: World, key: Key, policyOrder: seq<Key>, deploymentOrder: seq<Key>)
    requires key in w.policies
    requires Enumerates(policyOrder, w.policies.Keys, key.namespace)
    requires Enumerates(deploymentOrder, w.deployments.Keys, key.namespace)
    requires forall d | d in DeploymentsIn(w, deploymentOrder) :: AnnotationParses(PolicyAt(w, key), d)
    requires Elected(w, key, policyOrder) && !NoClash(PolicyAt(w, key), DeploymentsIn(w, deploymentOrder))
    ensures !Enforces(w, key, deploymentOrder)
  {
    hide IsHighest, PoliciesIn, DeploymentsIn, Settled, ReconcileSpec, CleanPass, Answers, HpaEnabled, CalmApi;
    var policy, ds := PolicyAt(w, key), DeploymentsIn(w, deploymentOrder);
    var empty: HpaMap := map[];
    SameView(w, empty, policyOrder, deploymentOrder);
    CleanPassSucceedsExactlyWhen(policy, ds, empty);
    WinnerPasses(w.(hpas := empty), key, policyOrder, deploymentOrder);
    ListedKeysAreDistinct(w, deploymentOrder, key.namespace);
    var after := CleanPass(policy, ds, empty).hpas;
    var d, e :| d in ds && e in ds && d != e && HpaKey(d) == HpaKey(e)
                && !(Unwanted(policy, d) && Unwanted(policy, e));
    ClashCannotSettle(policy, d, e, Lookup(after, HpaKey(d)));
    assert !Converged(policy, ds, after);
    assert Succeeds(w.(hpas := empty), key, CalmApi(policyOrder, deploymentOrder));
  }

  /** When "being enforced" is true: for a namespace with at least one deployment and annotations that parse,
      error-free reconciles of the policy settle the deployments, from every start and under every API behaviour, if
      and only if the policy is elected and no two deployments clash. */
  lemma EnforcedExactlyWhenElected(w: World, key: Key, policyOrder: seq<Key>, deploymentOrder: seq<Key>)
    requires key in w.policies && deploymentOrder != []
    requires Enumerates(policyOrder, w.policies.Keys, key.namespace)
    requires Enumerates(deploymentOrder, w.deployments.Keys, key.namespace)
    requires forall d | d in DeploymentsIn(w, deploymentOrder) :: AnnotationParses(PolicyAt(w, key), d)
    ensures Enforces(w, key, deploymentOrder)
            <==> Elected(w, key, policyOrder) && NoClash(PolicyAt(w, key), DeploymentsIn(w, deploymentOrder))
  {
    hide IsHighest, PoliciesIn, NoClash, ReconcileSpec, Settled;
    var policy, ds := PolicyAt(w, key), DeploymentsIn(w, deploymentOrder);
    if !Elected(w, key, policyOrder) {
      var start := w.(hpas := Disturbed(policy, ds[0]));
      var api := CalmApi(policyOrder, deploymentOrder);
      SameView(w, start.hpas, policyOrder, deploymentOrder);
      LoserSucceedsIdly(start, key, api);
      DisturbedIsUnsettled(policy, ds[0]);
      assert !Converged(policy, ds, ReconcileSpec(start, key, api).world.hpas);
      assert Succeeds(w.(hpas := start.hpas), key, api);
    } else if !NoClash(policy, ds) {
      ClashBreaksEnforcement(w, key, policyOrder, deploymentOrder);
    } else {
      forall hpas: HpaMap, api | Succeeds(w.(hpas := hpas), key, api)
        ensures Converged(policy, ds, ReconcileSpec(w.(hpas := hpas), key, api).world.hpas)
      {
        SameView(w, hpas, policyOrder, deploymentOrder);
        WinnerSettles(w.(hpas := hpas), key, policyOrder, deploymentOrder, api);
      }
    }
  }

  // ---------- an instance ----------

  const WINNER := Key("team-a", "a")
  const LOSER := Key("team-a", "b")
  const APP := Key("team-a", "app")

  function Scaling(priority: int32, enabled: bool): PolicyRecord {
    PolicyRecord("uid", 1,
                 WorkloadPolicySpec(map[], map[], map[], priority, Some(HorizontalScalingPolicy(enabled, 2, 10, 80))),
                       [])
  }

  /** Two policies with scaling blocks, the one of higher priority off by default and the other on; one deployment. */
  const CONTESTED := World(map[WINNER := Scaling(10, false), LOSER := Scaling(1, true)], map[APP := map[]], map[])

  /** Such a listing exists. */
  lemma ContestAnswers()
    ensures Answers(CONTESTED, "team-a", CalmApi([WINNER, LOSER], [APP]))
  {
    assert forall k :: k in [WINNER, LOSER] <==> k in CONTESTED.policies.Keys;
    assert forall k :: k in [APP] <==> k in CONTESTED.deployments.Keys;
  }

  lemma ListsAll(order: seq<Key>, keys: set<Key>, namespace: string, k: Key)
    requires Enumerates(order, keys, namespace)
    ensures k in order <==> k in keys && k.namespace == namespace
  {
  }

  lemma ContestIsListed(api: ApiBehaviour)
    requires Answers(CONTESTED, "team-a", api)
    ensures !Elected(CONTESTED, LOSER, api.policyOrder)
  {
    hide Less;
    var policies := PoliciesIn(CONTESTED, api.policyOrder);
    var winner, loser := PolicyAt(CONTESTED, WINNER), PolicyAt(CONTESTED, LOSER);
    assert WINNER in api.policyOrder by {
      assert WINNER in CONTESTED.policies.Keys && WINNER.namespace == "team-a";
      ListsAll(api.policyOrder, CONTESTED.policies.Keys, "team-a", WINNER);
    }
    PoliciesListed(CONTESTED, api.policyOrder, winner);
    assert Beats(winner, loser);
    forall c | c in policies && c.key.name == LOSER.name
      ensures c == loser
    {
      PoliciesListed(CONTESTED, api.policyOrder, c);
      ListsAll(api.policyOrder, CONTESTED.policies.Keys, "team-a", c.key);
    }
  }

  /** A calm reconcile of the loser of the election reports success and shows it as Available, "being enforced", while
      the deployment lacks the autoscaler its block asks for. */
  lemma LoserShownAvailable(api: ApiBehaviour)
    requires Answers(CONTESTED, "team-a", api) && Calm(api)
    ensures var r := ReconcileSpec(CONTESTED, LOSER, api);
            var app := Deployment(APP, map[]);
            && r.error.None?
            && LOSER in r.world.policies
            && Status.Shows(r.world.policies[LOSER].conditions, Status.AvailableAt(1))
            && !Settled(PolicyAt(CONTESTED, LOSER), app, Lookup(r.world.hpas, HpaKey(app)))
  {
    hide Answers, ReconcileSpec, Status.Shows, Elected;
    ContestIsListed(api);
    LoserSucceedsIdly(CONTESTED, LOSER, api);
    SuccessMeansAvailable(CONTESTED, LOSER, api);
  }
}
