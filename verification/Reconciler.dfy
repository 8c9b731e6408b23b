/** The WorkloadPolicy reconciler against the API server: the specification of one reconcile as a function of the
    cluster and of how the API answers, and the imperative reconciler proved against it. */
module Reconciler {
  import opened Common
  import opened Types
  import opened Hpa
  import opened HpaPass
  import opened Election
  import Status

  datatype PolicyRecord = PolicyRecord(
    uid: string,
    generation: int,
    spec: WorkloadPolicySpec,
    conditions: seq<Status.Condition>)

  /** What the API server stores. */
  datatype World = World(
    policies: map<Key, PolicyRecord>,
    deployments: map<Key, map<string, string>>,
    hpas: HpaMap)

  /** How the API behaves during one reconcile: which calls fail, and in which order lists come back. */
  datatype ApiBehaviour = ApiBehaviour(
    getPolicy: Fault,
    listPolicies: Fault,
    policyOrder: seq<Key>,
    listDeployments: Fault,
    deploymentOrder: seq<Key>,
    steps: seq<StepFaults>,
    status: Fault)

  datatype ReconcileError =
    | PolicyUnreadable
    | PoliciesUnlisted
    | DeploymentsUnlisted
    | HpaPassFailed(error: PassError)
    | StatusUnwritten

  /** The order lists exactly the keys of a namespace, each once. */
  ghost predicate Enumerates(order: seq<Key>, keys: set<Key>, namespace: string) {
    && (forall i, j | 0 <= i < j < |order| :: order[i] != order[j])
    && (forall k :: k in order <==> k in keys && k.namespace == namespace)
  }

  ghost predicate Answers(w: World, namespace: string, api: ApiBehaviour) {
    && Enumerates(api.policyOrder, w.policies.Keys, namespace)
    && Enumerates(api.deploymentOrder, w.deployments.Keys, namespace)
    && |api.steps| == |api.deploymentOrder|
  }

  function PolicyAt(w: World, k: Key): WorkloadPolicy
    requires k in w.policies
  {
    WorkloadPolicy(k, w.policies[k].uid, w.policies[k].generation, w.policies[k].spec)
  }

  function PoliciesIn(w: World, order: seq<Key>): seq<WorkloadPolicy>
    requires forall k | k in order :: k in w.policies
  {
    seq(|order|, i requires 0 <= i < |order| => PolicyAt(w, order[i]))
  }

  function DeploymentsIn(w: World, order: seq<Key>): seq<Deployment>
    requires forall k | k in order :: k in w.deployments
  {
    seq(|order|, i requires 0 <= i < |order| => Deployment(order[i], w.deployments[order[i]]))
  }

  datatype PhaseResult = PhaseResult(hpas: HpaMap, error: Option<ReconcileError>)

  /** The autoscaler part of a reconcile: nothing without a scaling block or for a policy that is not elected,
      otherwise one pass over the deployments of the namespace. */
  ghost function HpaPhase(w: World, key: Key, api: ApiBehaviour): PhaseResult
    requires key in w.policies && Answers(w, key.namespace, api)
  {
    var policy := PolicyAt(w, key);
    if policy.spec.horizontalScaling.None? then PhaseResult(w.hpas, None)
    else if api.listPolicies != Works then PhaseResult(w.hpas, Some(PoliciesUnlisted))
    else if !IsHighest(PoliciesIn(w, api.policyOrder), policy) then PhaseResult(w.hpas, None)
    else if api.listDeployments != Works then PhaseResult(w.hpas, Some(DeploymentsUnlisted))
    else
      var r := Pass(policy, DeploymentsIn(w, api.deploymentOrder), api.steps, w.hpas);
      PhaseResult(r.hpas, if r.outcome.Done? then None else Some(HpaPassFailed(r.outcome.error)))
  }

  function MarkAvailable(w: World, key: Key): World
    requires key in w.policies
  {
    var record := w.policies[key];
    var conditions := Status.WithCondition(record.conditions, Status.AvailableAt(record.generation));
    w.(policies := w.policies[key := record.(conditions := conditions)])
  }

  datatype ReconcileResult = ReconcileResult(world: World, error: Option<ReconcileError>)

  /** The status part: one write, unless the policy's present generation is already shown as Available. */
  function StatusPhase(w: World, key: Key, fault: Fault): ReconcileResult
    requires key in w.policies
  {
    if Status.Shows(w.policies[key].conditions, Status.AvailableAt(w.policies[key].generation))
          then ReconcileResult(w, None)
    else match fault
      case Works => ReconcileResult(MarkAvailable(w, key), None)
      case Rejected => ReconcileResult(w, Some(StatusUnwritten))
      case ReplyLost => ReconcileResult(MarkAvailable(w, key), Some(StatusUnwritten))
  }

  /** Reconcile */
  ghost function ReconcileSpec(w: World, key: Key, api: ApiBehaviour): ReconcileResult
    requires Answers(w, key.namespace, api)
  {
    if api.getPolicy != Works then ReconcileResult(w, Some(PolicyUnreadable))
    else if key !in w.policies then ReconcileResult(w, None)
    else
      var phase := HpaPhase(w, key, api);
      if phase.error.Some? then ReconcileResult(w.(hpas := phase.hpas), phase.error)
      else StatusPhase(w.(hpas := phase.hpas), key, api.status)
  }

  // ---------- the API server ----------

  datatype GetResult = Found(hpa: HPA) | NotFound | GetError

  datatype WriteResult = Written | Missing | WriteError

  class Cluster {
    var policies: map<Key, PolicyRecord>
    var deployments: map<Key, map<string, string>>
    var hpas: HpaMap

    function State(): World
      reads this
    {
      World(policies, deployments, hpas)
    }

    method GetHpa(key: Key, fault: Fault) returns (r: GetResult)
      ensures r == if fault != Works then GetError else if key in hpas then Found(hpas[key]) else NotFound
    {
      if fault != Works {
        return GetError;
      }
      if key in hpas {
        return Found(hpas[key]);
      }
      return NotFound;
    }

    /** Creating over an existing object is refused. */
    method CreateHpa(key: Key, hpa: HPA, fault: Fault) returns (r: WriteResult)
      modifies this`hpas
      ensures r == (if fault == Works && key !in old(hpas) then Written else WriteError)
      ensures hpas == if fault == Rejected || key in old(hpas) then old(hpas)
                      else old(hpas)[key := hpa.(specManager := Operator)]
    {
      if fault == Rejected || key in hpas {
        return WriteError;
      }
      hpas := hpas[key := hpa.(specManager := Operator)];
      return if fault == Works then Written else WriteError;
    }

    method UpdateHpa(key: Key, hpa: HPA, fault: Fault) returns (r: WriteResult)
      modifies this`hpas
      ensures r == (if fault != Works then WriteError else if key in old(hpas) then Written else Missing)
      ensures hpas == if fault == Rejected || key !in old(hpas) then old(hpas)
                      else old(hpas)[key := hpa.(specManager := Operator)]
    {
      if fault == Rejected {
        return WriteError;
      }
      if key !in hpas {
        return if fault == Works then Missing else WriteError;
      }
      hpas := hpas[key := hpa.(specManager := Operator)];
      return if fault == Works then Written else WriteError;
    }

    method DeleteHpa(key: Key, fault: Fault) returns (r: WriteResult)
      modifies this`hpas
      ensures r == (if fault != Works then WriteError else if key in old(hpas) then Written else Missing)
      ensures hpas == if fault == Rejected then old(hpas) else old(hpas) - {key}
    {
      if fault == Rejected {
        return WriteError;
      }
      r := if fault == ReplyLost then WriteError else if key in hpas then Written else Missing;
      hpas := hpas - {key};
    }

    /** The status subresource: conditions change, nothing else does. */
    method UpdateStatus(key: Key, conditions: seq<Status.Condition>, fault: Fault) returns (r: WriteResult)
      requires key in policies
      modifies this`policies
      ensures r == if fault == Works then Written else WriteError
      ensures policies == if fault == Rejected then old(policies)
                          else old(policies)[key := old(policies)[key].(conditions := conditions)]
    {
      if fault == Rejected {
        return WriteError;
      }
      policies := policies[key := policies[key].(conditions := conditions)];
      return if fault == Works then Written else WriteError;
    }
  }

  // ---------- the reconciler ----------

  class WorkloadPolicyReconciler {
    const cluster: Cluster

    constructor (cluster: Cluster)
      ensures this.cluster == cluster
    {
      this.cluster := cluster;
    }

    /** reconcileDeploymentHPAs, after its List call */
    method ReconcileDeploymentHpas(policy: WorkloadPolicy, deployments: seq<Deployment>, faults: seq<StepFaults>)
      returns (outcome: Outcome)
      requires |deployments| == |faults|
      modifies cluster`hpas
      ensures PassResult(cluster.hpas, outcome) == Pass(policy, deployments, faults, old(cluster.hpas))
    {
      for i := 0 to |deployments|
        invariant PassUpTo(policy, deployments, faults, old(cluster.hpas), i) == PassResult(cluster.hpas, Done)
      {
        outcome := ReconcileDeployment(policy, deployments[i], faults[i]);
        assert PassUpTo(policy, deployments, faults, old(cluster.hpas), i + 1) == PassResult(cluster.hpas, outcome);
        if outcome.Failed? {
          FailureEndsThePass(policy, deployments, faults, old(cluster.hpas), i + 1, |deployments|);
          return;
        }
      }
      return Done;
    }

    /** The body of the loop; Done covers both falling through and `continue`. */
    method ReconcileDeployment(policy: WorkloadPolicy, deployment: Deployment, faults: StepFaults)
      returns (outcome: Outcome)
      modifies cluster`hpas
      ensures PassResult(cluster.hpas, outcome) == Step(policy, deployment, old(cluster.hpas), faults)
    {
      var enabled := HpaEnabled(deployment, policy.spec.horizontalScaling);
      var key := Key(deployment.key.namespace, ManagedName(deployment.key.name));
      StoreOwnLookup(cluster.hpas, key);
      if enabled.None? {
        return Failed(BadAnnotation);
      }
      var got := cluster.GetHpa(key, faults.get);
      if got.GetError? {
        return Failed(GetFailed);
      }
      if !enabled.value {
        if got.NotFound? {
          return Done;
        }
        if IsManaged(got.hpa) {
          var deleted := cluster.DeleteHpa(key, faults.write);
          if deleted.WriteError? {
            return Failed(WriteFailed);
          }
        }
        return Done;
      }
      var desired := DesiredHpa(policy, deployment);
      if got.NotFound? {
        var created := cluster.CreateHpa(key, desired, faults.write);
        return if created.Written? then Done else Failed(WriteFailed);
      }
      if !IsManaged(got.hpa) {
        return Failed(NotManaged);
      }
      var drifted := HpaSpecDrifted(got.hpa.spec, desired.spec);
      if drifted {
        var existing := new HpaObject(got.hpa);
        existing.spec := desired.spec;
        existing.EnsureManagedMetadata(policy.key.name);
        var updated := cluster.UpdateHpa(key, existing.Value(), faults.write);
        return if updated.Written? then Done else Failed(WriteFailed);
      }
      return Done;
    }

    /** updateAvailableStatusIfChanged */
    method UpdateAvailableStatusIfChanged(key: Key, generation: int, local: Status.ConditionList, fault: Fault)
      returns (updated: bool, failed: bool)
      requires key in cluster.policies
      modifies cluster`policies, local
      ensures var c := Status.AvailableAt(generation);
              if Status.Shows(old(local.conditions), c) then
                !updated && !failed && cluster.policies == old(cluster.policies)
              else
                && updated == (fault == Works)
                && failed == (fault != Works)
                && cluster.policies ==
                     if fault == Rejected then old(cluster.policies)
                     else
                       var record := old(cluster.policies)[key];
                       var conditions := Status.WithCondition(old(local.conditions), c);
                       old(cluster.policies)[key := record.(conditions := conditions)]
    {
      var c := Status.AvailableAt(generation);
      var changed := local.SetStatusCondition(c);
      if !changed {
        return false, false;
      }
      var written := cluster.UpdateStatus(key, local.conditions, fault);
      if written.WriteError? {
        return false, true;
      }
      return true, false;
    }

    /** Reconcile: for every cluster, request and behaviour of the API it does what ReconcileSpec says, and
        deployments are only read. */
    method Reconcile(key: Key, api: ApiBehaviour) returns (error: Option<ReconcileError>)
      requires Answers(cluster.State(), key.namespace, api)
      modifies cluster`hpas, cluster`policies
      ensures ReconcileResult(cluster.State(), error) == ReconcileSpec(old(cluster.State()), key, api)
    {
      ghost var before := cluster.State();
      if api.getPolicy != Works {
        return Some(PolicyUnreadable);
      }
      if key !in cluster.policies {
        return None;
      }
      var policy := PolicyAt(cluster.State(), key);
      if policy.spec.horizontalScaling.Some? {
        if api.listPolicies != Works {
          return Some(PoliciesUnlisted);
        }
        var highest := IsHighestPriorityPolicy(PoliciesIn(cluster.State(), api.policyOrder), policy);
        if highest {
          if api.listDeployments != Works {
            return Some(DeploymentsUnlisted);
          }
          var outcome := ReconcileDeploymentHpas(policy, DeploymentsIn(cluster.State(), api.deploymentOrder),
                api.steps);
          if outcome.Failed? {
            return Some(HpaPassFailed(outcome.error));
          }
        }
      }
      assert cluster.hpas == HpaPhase(before, key, api).hpas && HpaPhase(before, key, api).error.None?;
      var local := new Status.ConditionList(cluster.policies[key].conditions);
      var updated, failed := UpdateAvailableStatusIfChanged(key, policy.generation, local, api.status);
      if failed {
        return Some(StatusUnwritten);
      }
      return None;
    }
  }
}
