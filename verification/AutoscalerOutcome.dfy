/** What users find in the cluster after a reconcile, said in the fields of the API objects. */
module AutoscalerOutcome {
  import opened Common
  import opened Types
  import opened Hpa
  import opened HpaPass
  import opened HpaTheorems
  import opened Reconciler
  import opened Confluence
  import Admission

  /** The name and namespace of a deployment's autoscaler. */
  function AutoscalerKey(d: Key): Key {
    Key(d.namespace, (if |d.name| <= 55 then d.name else d.name[..55]) + "-pgo-hpa")
  }

  predicate CarriesManagedLabel(hpa: HPA) {
    "core.platform.f3nr1r.io/managed-hpa" in hpa.labels && hpa.labels["core.platform.f3nr1r.io/managed-hpa"] == "true"
  }

  /** A number of a scaling block; left at 0, or without a block, the default. */
  function NumberOf(block: Option<HorizontalScalingPolicy>, field: HorizontalScalingPolicy -> int32,
        default: int32): int32 {
    if block.Some? && field(block.value) != 0 then field(block.value) else default
  }

  /** The spec scales the deployment between the block's bounds on the block's share of CPU, and on nothing else. */
  predicate ScalesAsAsked(block: Option<HorizontalScalingPolicy>, d: Deployment, spec: HpaSpec) {
    && spec.scaleTargetRef.apiVersion == "apps/v1"
    && spec.scaleTargetRef.kind == "Deployment"
    && spec.scaleTargetRef.name == d.key.name
    && spec.minReplicas == Some(NumberOf(block, (b: HorizontalScalingPolicy) => b.minReplicas, 2))
    && spec.maxReplicas == NumberOf(block, (b: HorizontalScalingPolicy) => b.maxReplicas, 10)
    && |spec.metrics| == 1
    && spec.metrics[0].kind == "Resource"
    && spec.metrics[0].resource.Some?
    && spec.metrics[0].resource.value.name == "cpu"
    && spec.metrics[0].resource.value.target.kind == "Utilization"
    && spec.metrics[0].resource.value.target.averageUtilization
       == Some(NumberOf(block, (b: HorizontalScalingPolicy) => b.targetCPU, 80))
  }

  /** Nothing is set beyond what the operator controls. */
  predicate SetsNothingElse(spec: HpaSpec) {
    && spec.behavior == ""
    && forall m | m in spec.metrics ::
         m.otherSources == "" && (m.resource.Some? ==> m.resource.value.target.otherTargets == "")
  }

  /** A new autoscaler has the managed label, the annotation naming the policy and the policy as its one owner. */
  predicate CreatedFor(policy: WorkloadPolicy, hpa: HPA) {
    && hpa.labels == map["core.platform.f3nr1r.io/managed-hpa" := "true"]
    && hpa.annotations == map["core.platform.f3nr1r.io/workload-policy" := policy.key.name]
    && |hpa.ownerReferences| == 1
    && var owner := hpa.ownerReferences[0];
       && owner.apiVersion == "core.platform.f3nr1r.io/v1alpha1" && owner.kind == "WorkloadPolicy"
       && owner.name == policy.key.name && owner.uid == policy.uid
       && owner.blockOwnerDeletion && owner.controller
  }

  /** An autoscaler that scaled otherwise has a new spec and names the policy; its labels, owners and other
      annotations are those it had. */
  predicate UpdatedFor(policy: WorkloadPolicy, before: HPA, after: HPA) {
    && after.labels == before.labels
    && after.annotations == before.annotations["core.platform.f3nr1r.io/workload-policy" := policy.key.name]
    && after.ownerReferences == before.ownerReferences
  }

  /** One deployment after a successful reconcile. */
  predicate Handled(policy: WorkloadPolicy, d: Deployment, before: Option<HPA>, after: Option<HPA>) {
    var block := policy.spec.horizontalScaling;
    match HpaEnabled(d, block)
    case None => false
    case Some(false) => after == if before.Some? && CarriesManagedLabel(before.value) then None else before
    case Some(true) =>
      && after.Some? && ScalesAsAsked(block, d, after.value.spec) && CarriesManagedLabel(after.value)
      && match before
         case None => CreatedFor(policy, after.value) && SetsNothingElse(after.value.spec)
         case Some(hpa) =>
           && CarriesManagedLabel(hpa)
           && if ScalesAsAsked(block, d, hpa.spec) then after.value == hpa
              else UpdatedFor(policy, hpa, after.value) && SetsNothingElse(after.value.spec)
  }

  // ---------- one deployment ----------

  /** Drift, when the operator looks at it, is exactly not scaling as asked. */
  lemma DriftedExactlyWhenScalesOtherwise(policy: WorkloadPolicy, d: Deployment, spec: HpaSpec)
    ensures Drifted(spec, DesiredHpa(policy, d).spec) <==> !ScalesAsAsked(policy.spec.horizontalScaling, d, spec)
  {
    var desired := DesiredHpa(policy, d).spec;
    DriftedExactlyWhenFieldsDiffer(spec, desired);
    assert ScalesAsAsked(policy.spec.horizontalScaling, d, desired);
    if SameInFields(spec, desired) {
      assert SameMetricInFields(spec.metrics[0], desired.metrics[0]);
    }
  }

  lemma DesiredIsCreated(policy: WorkloadPolicy, d: Deployment)
    ensures var hpa := DesiredHpa(policy, d);
            && ScalesAsAsked(policy.spec.horizontalScaling, d, hpa.spec) && CarriesManagedLabel(hpa)
            && CreatedFor(policy, hpa) && SetsNothingElse(hpa.spec)
  {
  }

  lemma UpdatedIsUpdated(policy: WorkloadPolicy, d: Deployment, hpa: HPA)
    requires CarriesManagedLabel(hpa)
    ensures var after := Updated(hpa, policy, d);
            && after.spec == DesiredHpa(policy, d).spec
            && CarriesManagedLabel(after)
            && UpdatedFor(policy, hpa, after)
  {
  }

  /** What a stored, admitted block asks for is what the submitted one asked for. */
  lemma AskedAsSubmitted(parse: QuantityParser, submitted: WorkloadPolicySpec, d: Deployment, spec: HpaSpec)
    requires Admission.Admit(parse, submitted).Some?
    ensures var stored := Admission.Admit(parse, submitted).value;
            ScalesAsAsked(stored.horizontalScaling, d, spec) <==> ScalesAsAsked(submitted.horizontalScaling, d, spec)
  {
  }

  /** An undisturbed step that succeeds handles its deployment. */
  lemma StepHandles(policy: WorkloadPolicy, d: Deployment, slot: Option<HPA>)
    requires StepOnSlot(policy, d, slot, NO_FAULTS).1.Done?
    ensures Handled(policy, d, slot, StepOnSlot(policy, d, slot, NO_FAULTS).0)
  {
    hide HpaEnabled, Drifted, DesiredHpa, Updated, ScalesAsAsked, CreatedFor, UpdatedFor, SetsNothingElse;
    DesiredIsCreated(policy, d);
    if slot.Some? {
      DriftedExactlyWhenScalesOtherwise(policy, d, slot.value.spec);
      if CarriesManagedLabel(slot.value) {
        UpdatedIsUpdated(policy, d, slot.value);
      }
    }
  }

  /** How each error of a step comes about, and what the map holds when a write fails. */
  lemma StepFailsExactlyWhen(policy: WorkloadPolicy, d: Deployment, slot: Option<HPA>, faults: StepFaults)
    ensures var enabled := HpaEnabled(d, policy.spec.horizontalScaling);
            var (after, outcome) := StepOnSlot(policy, d, slot, faults);
            var managed := slot.Some? && CarriesManagedLabel(slot.value);
            && (outcome == Failed(BadAnnotation) <==> enabled.None?)
            && (outcome == Failed(GetFailed) <==> enabled.Some? && faults.get != Works)
            && (outcome == Failed(NotManaged) <==>
                  enabled == Some(true) && faults.get == Works && slot.Some? && !managed)
            && (outcome == Failed(WriteFailed) <==>
                  && faults.get == Works && faults.write != Works
                  && ((enabled == Some(false) && managed)
                      || (enabled == Some(true) && slot.None?)
                      || (enabled == Some(true) && managed
                          && !ScalesAsAsked(policy.spec.horizontalScaling, d, slot.value.spec))))
            && (outcome == Failed(WriteFailed) ==>
                  after == if faults.write == Rejected then slot else Target(policy, d, slot))
            && (outcome.Failed? && outcome.error != WriteFailed ==> after == slot)
  {
    hide HpaEnabled, Drifted, DesiredHpa, Updated, ScalesAsAsked;
    if slot.Some? {
      DriftedExactlyWhenScalesOtherwise(policy, d, slot.value.spec);
    }
  }

  // ---------- a pass ----------

  /** A pass that reports success, whatever faults it met on the way, has handled every deployment. */
  lemma PassHandles(policy: WorkloadPolicy, deployments: seq<Deployment>, faults: seq<StepFaults>, hpas: HpaMap)
    requires |deployments| == |faults| && NoClash(policy, deployments)
    requires Pass(policy, deployments, faults, hpas).outcome.Done?
    ensures var after := Pass(policy, deployments, faults, hpas).hpas;
            forall d | d in deployments ::
              Handled(policy, d, Lookup(hpas, AutoscalerKey(d.key)), Lookup(after, AutoscalerKey(d.key)))
  {
    hide StepOnSlot, PassUpTo, NoClash, Handled;
    SuccessArrives(policy, deployments, faults, hpas);
    var after := Pass(policy, deployments, faults, hpas).hpas;
    forall d | d in deployments
      ensures Handled(policy, d, Lookup(hpas, AutoscalerKey(d.key)), Lookup(after, AutoscalerKey(d.key)))
    {
      assert AutoscalerKey(d.key) == HpaKey(d);
      assert Moved(policy, d, hpas, after);
      NoConflictOnSuccess(policy, deployments, faults, hpas, |deployments|, d);
      StepHandles(policy, d, Lookup(hpas, HpaKey(d)));
    }
  }

  /** Whatever the list, the faults and the clashes: an autoscaler without the managed label stays as it is, and
      nobody else's appears. */
  lemma UnlabelledAreSafe(policy: WorkloadPolicy, deployments: seq<Deployment>, faults: seq<StepFaults>, hpas: HpaMap,
        n: nat, k: Key)
    requires n <= |deployments| == |faults|
    ensures var after := PassUpTo(policy, deployments, faults, hpas, n).hpas;
            && (k in hpas && !CarriesManagedLabel(hpas[k]) ==> k in after && after[k] == hpas[k])
            && (k in after && !CarriesManagedLabel(after[k]) ==> k in hpas && after[k] == hpas[k])
  {
    hide StepOnSlot, PassUpTo;
    OwnershipIsSafe(policy, deployments, faults, hpas, n);
    var after := PassUpTo(policy, deployments, faults, hpas, n).hpas;
    assert k in Foreign(hpas) <==> k in hpas && !CarriesManagedLabel(hpas[k]);
    assert k in Foreign(after) <==> k in after && !CarriesManagedLabel(after[k]);
  }

  // ---------- any run of reconciles ----------

  /** After any run of reconciles of a namespace's policies, one calm reconcile of the elected policy returns no
      error, and every deployment of the namespace is handled: with respect to the autoscalers from before the run. */
  lemma CalmReconcileHandles(namespace: string, worlds: seq<World>, requests: seq<Request>, elected: Key,
        policyOrder: seq<Key>, deploymentOrder: seq<Key>, n: nat, api: ApiBehaviour)
    requires ReconcileRun(namespace, worlds, requests) && n <= |requests|
    requires Ready(namespace, worlds[0], elected, policyOrder, deploymentOrder)
    requires Answers(worlds[n], namespace, api) && Calm(api)
    ensures var w := worlds[0];
            var r := ReconcileSpec(worlds[n], elected, api);
            && r.error.None?
            && forall k | k in w.deployments && k.namespace == namespace ::
                 Handled(PolicyAt(w, elected), Deployment(k, w.deployments[k]),
                         Lookup(w.hpas, AutoscalerKey(k)), Lookup(r.world.hpas, AutoscalerKey(k)))
  {
    hide ReconcileSpec, Reconciles, Handled, NoClash, Pass;
    CalmReconcileReachesGoal(namespace, worlds, requests, elected, policyOrder, deploymentOrder, n, api);
    var w := worlds[0];
    var policy, ds := PolicyAt(w, elected), DeploymentsIn(w, deploymentOrder);
    PassHandles(policy, ds, seq(|ds|, _ => NO_FAULTS), w.hpas);
    forall k | k in w.deployments && k.namespace == namespace
      ensures Handled(policy, Deployment(k, w.deployments[k]), Lookup(w.hpas, AutoscalerKey(k)),
                      Lookup(ReconcileSpec(worlds[n], elected, api).world.hpas, AutoscalerKey(k)))
    {
      DeploymentsListed(w, deploymentOrder, Deployment(k, w.deployments[k]));
    }
  }
}
