/** Many reconciles over fixed policies and deployments: any order, any repetition, any API failures. */
module Confluence {
  import opened Common
  import opened Types
  import opened Hpa
  import opened HpaPass
  import opened HpaTheorems
  import opened Election
  import opened Reconciler
  import Status

  /** Two clusters hold the same policies (up to status) and the same deployments. */
  ghost predicate SameSpecs(a: World, b: World) {
    && a.policies.Keys == b.policies.Keys
    && (forall k | k in a.policies :: PolicyAt(a, k) == PolicyAt(b, k))
    && a.deployments == b.deployments
  }

  /** The status part of a reconcile changes conditions only. */
  lemma StatusPhaseKeepsSpecs(w: World, key: Key, fault: Fault)
    requires key in w.policies
    ensures SameSpecs(w, StatusPhase(w, key, fault).world)
    ensures StatusPhase(w, key, fault).world.hpas == w.hpas
  {
  }

  /** A reconcile never touches a policy's spec or a deployment. */
  lemma ReconcileKeepsSpecs(w: World, key: Key, api: ApiBehaviour)
    requires Answers(w, key.namespace, api)
    ensures SameSpecs(w, ReconcileSpec(w, key, api).world)
  {
    hide HpaPhase, Answers, StatusPhase;
    if key in w.policies {
      StatusPhaseKeepsSpecs(w.(hpas := HpaPhase(w, key, api).hpas), key, api.status);
    }
  }

  /** What a reconcile does to the autoscalers, case by case. */
  lemma HpasAfterReconcile(w: World, key: Key, api: ApiBehaviour)
    requires Answers(w, key.namespace, api)
    ensures var after := ReconcileSpec(w, key, api).world.hpas;
            if api.getPolicy != Works || key !in w.policies then after == w.hpas
            else after == HpaPhase(w, key, api).hpas
  {
    hide HpaPhase, Answers, StatusPhase, SameSpecs;
    if key in w.policies {
      StatusPhaseKeepsSpecs(w.(hpas := HpaPhase(w, key, api).hpas), key, api.status);
    }
  }

  lemma HpasAfterPhase(w: World, key: Key, api: ApiBehaviour)
    requires key in w.policies && Answers(w, key.namespace, api)
    ensures var phase := HpaPhase(w, key, api);
            if Contender(PolicyAt(w, key)) && api.listPolicies == Works
               && IsHighest(PoliciesIn(w, api.policyOrder), PolicyAt(w, key))
               && api.listDeployments == Works
            then phase.hpas == Pass(PolicyAt(w, key), DeploymentsIn(w, api.deploymentOrder), api.steps, w.hpas).hpas
            else phase.hpas == w.hpas
  {
    hide Pass, IsHighest, PolicyAt;
  }

  lemma AnswersCarryOver(a: World, b: World, namespace: string, api: ApiBehaviour)
    requires SameSpecs(a, b)
    ensures Answers(a, namespace, api) <==> Answers(b, namespace, api)
  {
  }

  lemma PoliciesListed(w: World, order: seq<Key>, p: WorkloadPolicy)
    requires forall k | k in order :: k in w.policies
    ensures p in PoliciesIn(w, order) <==> p.key in order && p == PolicyAt(w, p.key)
  {
    if p.key in order && p == PolicyAt(w, p.key) {
      var i :| 0 <= i < |order| && order[i] == p.key;
      assert PoliciesIn(w, order)[i] == p;
    }
  }

  lemma ElectionCarriesOver(a: World, b: World, orderA: seq<Key>, orderB: seq<Key>, namespace: string,
        policy: WorkloadPolicy)
    requires SameSpecs(a, b)
    requires Enumerates(orderA, a.policies.Keys, namespace) && Enumerates(orderB, b.policies.Keys, namespace)
    ensures IsHighest(PoliciesIn(a, orderA), policy) <==> IsHighest(PoliciesIn(b, orderB), policy)
  {
    var ps, qs := PoliciesIn(a, orderA), PoliciesIn(b, orderB);
    forall p
      ensures p in ps <==> p in qs
    {
      PoliciesListed(a, orderA, p);
      PoliciesListed(b, orderB, p);
    }
    ElectionIgnoresOrderAndBystanders(ps, qs, policy);
  }

  lemma DeploymentsListed(w: World, order: seq<Key>, d: Deployment)
    requires forall k | k in order :: k in w.deployments
    ensures d in DeploymentsIn(w, order) <==> d.key in order && d.annotations == w.deployments[d.key]
  {
    if d.key in order && d.annotations == w.deployments[d.key] {
      var i :| 0 <= i < |order| && order[i] == d.key;
      assert DeploymentsIn(w, order)[i] == d;
    }
  }

  lemma SameDeploymentsListed(a: World, b: World, orderA: seq<Key>, orderB: seq<Key>, namespace: string)
    requires SameSpecs(a, b)
    requires Enumerates(orderA, a.deployments.Keys, namespace) && Enumerates(orderB, b.deployments.Keys, namespace)
    ensures SameDeployments(DeploymentsIn(a, orderA), DeploymentsIn(b, orderB))
  {
    forall d
      ensures d in DeploymentsIn(a, orderA) <==> d in DeploymentsIn(b, orderB)
    {
      DeploymentsListed(a, orderA, d);
      DeploymentsListed(b, orderB, d);
    }
  }

  lemma PassIsPassUpTo(policy: WorkloadPolicy, deployments: seq<Deployment>, faults: seq<StepFaults>, hpas: HpaMap)
    requires |deployments| == |faults|
    ensures Pass(policy, deployments, faults, hpas) == PassUpTo(policy, deployments, faults, hpas, |deployments|)
  {
    hide PassUpTo;
  }

  /** Foreign autoscalers survive every reconcile, however it ends. */
  lemma ReconcileIsOwnershipSafe(w: World, key: Key, api: ApiBehaviour)
    requires Answers(w, key.namespace, api)
    ensures Foreign(ReconcileSpec(w, key, api).world.hpas) == Foreign(w.hpas)
  {
    hide HpaPhase, ReconcileSpec, Pass, IsHighest, PoliciesIn;
    HpasAfterReconcile(w, key, api);
    if key in w.policies {
      HpasAfterPhase(w, key, api);
      PassIsPassUpTo(PolicyAt(w, key), DeploymentsIn(w, api.deploymentOrder), api.steps, w.hpas);
      OwnershipIsSafe(PolicyAt(w, key), DeploymentsIn(w, api.deploymentOrder), api.steps, w.hpas, |api.steps|);
    }
  }

  /** A reconcile reaches only into the namespace of its policy. */
  lemma ReconcileStaysInItsNamespace(w: World, key: Key, api: ApiBehaviour, k: Key)
    requires Answers(w, key.namespace, api) && k.namespace != key.namespace
    ensures Lookup(ReconcileSpec(w, key, api).world.hpas, k) == Lookup(w.hpas, k)
  {
    hide HpaPhase, ReconcileSpec, Pass, IsHighest, PoliciesIn;
    HpasAfterReconcile(w, key, api);
    if key in w.policies {
      HpasAfterPhase(w, key, api);
      var deployments := DeploymentsIn(w, api.deploymentOrder);
      PassIsPassUpTo(PolicyAt(w, key), deployments, api.steps, w.hpas);
      PassKeepsOtherKeys(PolicyAt(w, key), deployments, api.steps, w.hpas, |deployments|);
      assert forall i | 0 <= i < |deployments| :: deployments[i].key in api.deploymentOrder;
      assert !Concerns(deployments, k);
    }
  }

  // ---------- runs of reconciles in one namespace ----------

  /** The reconcile of the elected policy got through its pass over the deployments. */
  ghost predicate PassCompleted(w: World, key: Key, api: ApiBehaviour)
    requires key in w.policies && Answers(w, key.namespace, api)
  {
    && api.getPolicy == Works && api.listPolicies == Works && api.listDeployments == Works
    && Pass(PolicyAt(w, key), DeploymentsIn(w, api.deploymentOrder), api.steps, w.hpas).outcome.Done?
  }

  datatype Request = Request(key: Key, api: ApiBehaviour)

  ghost predicate Reconciles(namespace: string, w: World, r: Request, w': World) {
    && r.key.namespace == namespace
    && Answers(w, namespace, r.api)
    && w' == ReconcileSpec(w, r.key, r.api).world
  }

  ghost predicate ReconcileRun(namespace: string, worlds: seq<World>, requests: seq<Request>) {
    && |worlds| == |requests| + 1
    && forall i | 0 <= i < |requests| :: Reconciles(namespace, worlds[i], requests[i], worlds[i + 1])
  }

  /** What a run starts from: the winner of the election, its deployments in some order without clashes, and a clean
      pass that succeeds. */
  ghost predicate Ready(namespace: string, w: World, elected: Key, policyOrder: seq<Key>, deploymentOrder: seq<Key>) {
    && elected in w.policies && elected.namespace == namespace
    && Enumerates(policyOrder, w.policies.Keys, namespace)
    && Enumerates(deploymentOrder, w.deployments.Keys, namespace)
    && Contender(PolicyAt(w, elected))
    && IsHighest(PoliciesIn(w, policyOrder), PolicyAt(w, elected))
    && NoClash(PolicyAt(w, elected), DeploymentsIn(w, deploymentOrder))
    && CleanPass(PolicyAt(w, elected), DeploymentsIn(w, deploymentOrder), w.hpas).outcome.Done?
  }

  /** The map one clean reconcile of the elected policy makes of the start. */
  ghost function Goal(namespace: string, w: World, elected: Key, policyOrder: seq<Key>,
        deploymentOrder: seq<Key>): HpaMap
    requires Ready(namespace, w, elected, policyOrder, deploymentOrder)
  {
    CleanPass(PolicyAt(w, elected), DeploymentsIn(w, deploymentOrder), w.hpas).hpas
  }

  lemma OnlyTheElectedWrites(namespace: string, w0: World, w: World, elected: Key, policyOrder: seq<Key>,
        deploymentOrder: seq<Key>, r: Request)
    requires Ready(namespace, w0, elected, policyOrder, deploymentOrder) && SameSpecs(w0, w)
    requires r.key.namespace == namespace && Answers(w, namespace, r.api)
    requires r.key != elected
    ensures ReconcileSpec(w, r.key, r.api).world.hpas == w.hpas
  {
    hide HpaPhase, ReconcileSpec, Pass, CleanPass, PoliciesIn, NoClash;
    HpasAfterReconcile(w, r.key, r.api);
    if r.key in w.policies {
      HpasAfterPhase(w, r.key, r.api);
    }
    if r.key in w.policies && IsHighest(PoliciesIn(w, r.api.policyOrder), PolicyAt(w, r.key)) {
      ElectionCarriesOver(w0, w, policyOrder, r.api.policyOrder, namespace, PolicyAt(w, r.key));
      var ps := PoliciesIn(w0, policyOrder);
      var c :| Unbeaten(ps, c) && c.key.name == r.key.name;
      var e :| Unbeaten(ps, e) && e.key.name == elected.name;
      UnbeatenAgree(ps, c, e);
    }
  }

  lemma SameConcerns(ds: seq<Deployment>, es: seq<Deployment>, before: HpaMap, after: HpaMap)
    requires SameDeployments(ds, es)
    ensures OthersKept(ds, before, after) <==> OthersKept(es, before, after)
  {
    assert forall k :: Concerns(ds, k) <==> Concerns(es, k);
  }

  lemma ArrivedElsewhere(policy: WorkloadPolicy, ds: seq<Deployment>, es: seq<Deployment>, before: HpaMap,
        after: HpaMap)
    requires SameDeployments(ds, es) && Arrived(policy, es, before, after)
    ensures Arrived(policy, ds, before, after)
  {
    SameConcerns(ds, es, before, after);
  }

  lemma OnTheWayComposes(policy: WorkloadPolicy, ds: seq<Deployment>, es: seq<Deployment>, start: HpaMap,
        middle: HpaMap, end: HpaMap)
    requires SameDeployments(ds, es)
    requires OnTheWay(policy, ds, start, middle) && OnTheWay(policy, es, middle, end)
    ensures OnTheWay(policy, ds, start, end)
  {
    SameConcerns(ds, es, middle, end);
    forall d | d in ds
      ensures Unmoved(d, start, end) || Moved(policy, d, start, end)
    {
      StepReachesTarget(policy, d, Lookup(start, HpaKey(d)), NO_FAULTS);
      assert Unmoved(d, middle, end) || Moved(policy, d, middle, end);
    }
  }

  lemma ArrivedIsFixed(policy: WorkloadPolicy, ds: seq<Deployment>, es: seq<Deployment>, start: HpaMap, goal: HpaMap,
        after: HpaMap)
    requires SameDeployments(ds, es)
    requires Arrived(policy, ds, start, goal) && OnTheWay(policy, es, goal, after)
    ensures after == goal
  {
    SameConcerns(ds, es, goal, after);
    forall d | d in ds
      ensures Moved(policy, d, start, after)
    {
      StepReachesTarget(policy, d, Lookup(start, HpaKey(d)), NO_FAULTS);
      assert Moved(policy, d, start, goal);
      assert Unmoved(d, goal, after) || Moved(policy, d, goal, after);
    }
    ArrivalIsUnique(policy, ds, ds, start, after, goal);
  }

  lemma PassApproaches(policy: WorkloadPolicy, ds: seq<Deployment>, es: seq<Deployment>, faults: seq<StepFaults>,
        start: HpaMap, hpas: HpaMap)
    requires SameDeployments(ds, es) && NoClash(policy, ds) && |es| == |faults|
    requires OnTheWay(policy, ds, start, hpas)
    requires CleanPass(policy, ds, start).outcome.Done?
    ensures var r := Pass(policy, es, faults, hpas);
            && OnTheWay(policy, ds, start, r.hpas)
            && (hpas == CleanPass(policy, ds, start).hpas ==> r.hpas == hpas)
            && (r.outcome.Done? ==> r.hpas == CleanPass(policy, ds, start).hpas)
  {
    hide StepOnSlot;
    var r := Pass(policy, es, faults, hpas);
    var goal := CleanPass(policy, ds, start).hpas;
    PassLeads(policy, es, faults, hpas, |es|);
    OnTheWayComposes(policy, ds, es, start, hpas, r.hpas);
    SuccessArrives(policy, ds, seq(|ds|, _ => NO_FAULTS), start);
    if hpas == goal {
      ArrivedIsFixed(policy, ds, es, start, goal, r.hpas);
    }
    if r.outcome.Done? {
      SuccessArrives(policy, es, faults, hpas);
      ArrivedElsewhere(policy, ds, es, hpas, r.hpas);
      ArrivalAbsorbs(policy, ds, start, hpas, r.hpas);
      ArrivalIsUnique(policy, ds, ds, start, r.hpas, goal);
    }
  }

  /** One request of a run: slots stay between the start and the goal, and the goal, once reached, stays. */
  lemma RequestApproaches(namespace: string, w0: World, w: World, elected: Key, policyOrder: seq<Key>,
        deploymentOrder: seq<Key>, r: Request)
    requires Ready(namespace, w0, elected, policyOrder, deploymentOrder) && SameSpecs(w0, w)
    requires OnTheWay(PolicyAt(w0, elected), DeploymentsIn(w0, deploymentOrder), w0.hpas, w.hpas)
    requires r.key.namespace == namespace && Answers(w, namespace, r.api)
    ensures var goal := Goal(namespace, w0, elected, policyOrder, deploymentOrder);
            var w' := ReconcileSpec(w, r.key, r.api).world;
            && OnTheWay(PolicyAt(w0, elected), DeploymentsIn(w0, deploymentOrder), w0.hpas, w'.hpas)
            && (w.hpas == goal ==> w'.hpas == goal)
            && (r.key == elected && PassCompleted(w, r.key, r.api) ==> w'.hpas == goal)
  {
    hide HpaPhase, ReconcileSpec, Pass, CleanPass, PoliciesIn, NoClash, IsHighest, OnTheWay, SameDeployments;
    HpasAfterReconcile(w, r.key, r.api);
    if r.key != elected {
      OnlyTheElectedWrites(namespace, w0, w, elected, policyOrder, deploymentOrder, r);
    } else if r.api.getPolicy == Works {
      HpasAfterPhase(w, elected, r.api);
      var policy := PolicyAt(w0, elected);
      var ds, es := DeploymentsIn(w0, deploymentOrder), DeploymentsIn(w, r.api.deploymentOrder);
      ElectionCarriesOver(w0, w, policyOrder, r.api.policyOrder, namespace, policy);
      SameDeploymentsListed(w0, w, deploymentOrder, r.api.deploymentOrder, namespace);
      PassApproaches(policy, ds, es, r.api.steps, w0.hpas, w.hpas);
    }
  }

  lemma StartIsOnTheWay(namespace: string, w: World, elected: Key, policyOrder: seq<Key>, deploymentOrder: seq<Key>)
    requires Ready(namespace, w, elected, policyOrder, deploymentOrder)
    ensures SameSpecs(w, w) && OnTheWay(PolicyAt(w, elected), DeploymentsIn(w, deploymentOrder), w.hpas, w.hpas)
  {
  }

  /** Confluence. Fix the policies and deployments of a namespace. Take any run of reconciles of its policies, in any
      order, with repeats, under any API failures and list orders. As soon as one reconcile of the elected policy gets
      through its pass, the autoscalers are those that a single clean reconcile of the elected policy would have made
      of the start, and no later reconcile of the run changes them. */
  lemma {:induction false} ReconcilesAreConfluent(namespace: string, worlds: seq<World>, requests: seq<Request>,
        elected: Key, policyOrder: seq<Key>, deploymentOrder: seq<Key>, n: nat)
    requires ReconcileRun(namespace, worlds, requests) && n <= |requests|
    requires Ready(namespace, worlds[0], elected, policyOrder, deploymentOrder)
    ensures SameSpecs(worlds[0], worlds[n])
    ensures Foreign(worlds[n].hpas) == Foreign(worlds[0].hpas)
    ensures OnTheWay(PolicyAt(worlds[0], elected), DeploymentsIn(worlds[0], deploymentOrder), worlds[0].hpas,
          worlds[n].hpas)
    ensures (exists i :: 0 <= i < n && requests[i].key == elected && elected in worlds[i].policies
                         && Answers(worlds[i], namespace, requests[i].api)
                         && PassCompleted(worlds[i], elected, requests[i].api))
            ==> worlds[n].hpas == Goal(namespace, worlds[0], elected, policyOrder, deploymentOrder)
  {
    hide ReconcileSpec, OnTheWay, PassCompleted, PolicyAt, DeploymentsIn, Goal, Ready, Answers, Foreign;
    if n > 0 {
      ReconcilesAreConfluent(namespace, worlds, requests, elected, policyOrder, deploymentOrder, n - 1);
      assert Reconciles(namespace, worlds[n - 1], requests[n - 1], worlds[n]);
      ReconcileKeepsSpecs(worlds[n - 1], requests[n - 1].key, requests[n - 1].api);
      ReconcileIsOwnershipSafe(worlds[n - 1], requests[n - 1].key, requests[n - 1].api);
      RequestApproaches(namespace, worlds[0], worlds[n - 1], elected, policyOrder, deploymentOrder, requests[n - 1]);
    } else {
      StartIsOnTheWay(namespace, worlds[0], elected, policyOrder, deploymentOrder);
    }
  }

  /** No call needed by the reconcile fails. */
  predicate Calm(api: ApiBehaviour) {
    && api.getPolicy == Works && api.listPolicies == Works && api.listDeployments == Works && api.status == Works
    && FaultFree(api.steps)
  }

  /** Wherever such a run stands, a calm reconcile of the elected policy succeeds and gets there. */
  lemma CalmReconcileCompletes(namespace: string, w0: World, w: World, elected: Key, policyOrder: seq<Key>,
        deploymentOrder: seq<Key>, api: ApiBehaviour)
    requires Ready(namespace, w0, elected, policyOrder, deploymentOrder) && SameSpecs(w0, w)
    requires Foreign(w.hpas) == Foreign(w0.hpas)
    requires Answers(w, namespace, api) && Calm(api)
    ensures PassCompleted(w, elected, api)
    ensures ReconcileSpec(w, elected, api).error.None?
  {
    var policy := PolicyAt(w0, elected);
    var ds, es := DeploymentsIn(w0, deploymentOrder), DeploymentsIn(w, api.deploymentOrder);
    SameDeploymentsListed(w0, w, deploymentOrder, api.deploymentOrder, namespace);
    ElectionCarriesOver(w0, w, policyOrder, api.policyOrder, namespace, policy);
    CleanPassSucceedsExactlyWhen(policy, ds, w0.hpas);
    forall d | d in es
      ensures Acceptable(policy, d, w.hpas)
    {
      AcceptableWhileForeignKept(policy, d, w.hpas, w0.hpas);
    }
    PassSucceedsExactlyWhen(policy, es, api.steps, w.hpas, |es|);
  }

  /** After any run of such reconciles, one calm reconcile of the elected policy returns no error and reaches the
      goal. */
  lemma CalmReconcileReachesGoal(namespace: string, worlds: seq<World>, requests: seq<Request>, elected: Key,
        policyOrder: seq<Key>, deploymentOrder: seq<Key>, n: nat, api: ApiBehaviour)
    requires ReconcileRun(namespace, worlds, requests) && n <= |requests|
    requires Ready(namespace, worlds[0], elected, policyOrder, deploymentOrder)
    requires Answers(worlds[n], namespace, api) && Calm(api)
    ensures var r := ReconcileSpec(worlds[n], elected, api);
            && r.error.None?
            && r.world.hpas == Goal(namespace, worlds[0], elected, policyOrder, deploymentOrder)
  {
    hide ReconcileSpec, OnTheWay, PassCompleted, Goal;
    ReconcilesAreConfluent(namespace, worlds, requests, elected, policyOrder, deploymentOrder, n);
    CalmReconcileCompletes(namespace, worlds[0], worlds[n], elected, policyOrder, deploymentOrder, api);
    RequestApproaches(namespace, worlds[0], worlds[n], elected, policyOrder, deploymentOrder, Request(elected, api));
  }

  /** A reconcile that returns no error leaves the policy, elected or not, shown as Available at its present
      generation. */
  lemma SuccessMeansAvailable(w: World, key: Key, api: ApiBehaviour)
    requires Answers(w, key.namespace, api) && key in w.policies
    requires ReconcileSpec(w, key, api).error.None?
    ensures var w' := ReconcileSpec(w, key, api).world;
            && key in w'.policies
            && Status.Shows(w'.policies[key].conditions, Status.AvailableAt(w.policies[key].generation))
  {
    hide HpaPhase, Answers, Status.Shows, Status.WithCondition;
    Status.WithConditionShows(w.policies[key].conditions, Status.AvailableAt(w.policies[key].generation));
  }

  /** In fields: the first condition of kind "Available" has status True, the operator's reason and message, and the
      policy's present generation. */
  lemma SuccessInFields(w: World, key: Key, api: ApiBehaviour)
    requires Answers(w, key.namespace, api) && key in w.policies
    requires ReconcileSpec(w, key, api).error.None?
    ensures var w' := ReconcileSpec(w, key, api).world;
            && key in w'.policies
            && var conditions := w'.policies[key].conditions;
               exists i :: && Status.IsFirst(conditions, i, "Available")
                           && conditions[i].status == Status.True
                           && conditions[i].observedGeneration == w.policies[key].generation
                           && conditions[i].reason == "Reconciled"
                           && conditions[i].message == "WorkloadPolicy is available and being enforced"
  {
    hide ReconcileSpec, Answers, Status.Shows, Status.IsFirst;
    SuccessMeansAvailable(w, key, api);
    var conditions := ReconcileSpec(w, key, api).world.policies[key].conditions;
    Status.ShownIsFirst(conditions, Status.AvailableAt(w.policies[key].generation));
  }

  /** A request for a policy that is gone succeeds and changes nothing. */
  lemma GonePolicyIsIgnored(w: World, key: Key, api: ApiBehaviour)
    requires Answers(w, key.namespace, api) && key !in w.policies
    ensures api.getPolicy == Works ==> ReconcileSpec(w, key, api) == ReconcileResult(w, None)
    ensures api.getPolicy != Works ==> ReconcileSpec(w, key, api) == ReconcileResult(w, Some(PolicyUnreadable))
  {
  }

  /** A reconcile of a stored policy returns no error exactly when the policy can be read, no List call it needs
      fails, its pass over the deployments, if it wins the election, completes, and its status is shown already or
      written. */
  lemma ReconcileSucceedsExactlyWhen(w: World, key: Key, api: ApiBehaviour)
    requires Answers(w, key.namespace, api) && key in w.policies
    ensures var policy := PolicyAt(w, key);
            var scales := w.policies[key].spec.horizontalScaling.Some?;
            var wins := scales && IsHighest(PoliciesIn(w, api.policyOrder), policy);
            ReconcileSpec(w, key, api).error.None? <==>
            && api.getPolicy == Works
            && (scales ==> api.listPolicies == Works)
            && (wins ==> && api.listDeployments == Works
                         && Pass(policy, DeploymentsIn(w, api.deploymentOrder), api.steps, w.hpas).outcome.Done?)
            && (Status.Shows(w.policies[key].conditions, Status.AvailableAt(w.policies[key].generation))
                || api.status == Works)
  {
    hide Pass, IsHighest, PoliciesIn, Answers, Status.Shows, Status.WithCondition;
  }

  /** Idempotence of the whole reconcile, status included: after a calm successful reconcile of the elected policy, a
      second one of the same policy, with the lists in any other order, changes nothing at all. */
  lemma SecondReconcileIsIdle(namespace: string, w: World, elected: Key, policyOrder: seq<Key>,
        deploymentOrder: seq<Key>, first: ApiBehaviour, second: ApiBehaviour)
    requires Ready(namespace, w, elected, policyOrder, deploymentOrder)
    requires Answers(w, namespace, first) && Answers(w, namespace, second) && Calm(first) && Calm(second)
    ensures var w' := ReconcileSpec(w, elected, first).world;
            Answers(w', namespace, second) && ReconcileSpec(w', elected, second) == ReconcileResult(w', None)
  {
    var w' := ReconcileSpec(w, elected, first).world;
    ReconcileKeepsSpecs(w, elected, first);
    AnswersCarryOver(w, w', namespace, second);
    ReconcileIsOwnershipSafe(w, elected, first);
    StartIsOnTheWay(namespace, w, elected, policyOrder, deploymentOrder);
    CalmReconcileCompletes(namespace, w, w, elected, policyOrder, deploymentOrder, first);
    CalmReconcileCompletes(namespace, w, w', elected, policyOrder, deploymentOrder, second);
    RequestApproaches(namespace, w, w, elected, policyOrder, deploymentOrder, Request(elected, first));
    RequestApproaches(namespace, w, w', elected, policyOrder, deploymentOrder, Request(elected, second));
    Status.WithConditionShows(w.policies[elected].conditions, Status.AvailableAt(w.policies[elected].generation));
  }
}
