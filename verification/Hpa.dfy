/** HorizontalPodAutoscalers: what the operator writes, how it names it, and how it decides that a stored one has
    drifted. */
module Hpa {
  import opened Common
  import opened Types

  datatype ObjectReference = ObjectReference(apiVersion: string, kind: string, name: string)

  datatype OwnerReference = OwnerReference(
    apiVersion: string,
    kind: string,
    name: string,
    uid: string,
    blockOwnerDeletion: bool,
    controller: bool)

  /** `otherTargets` stands for the value and averageValue targets. */
  datatype MetricTarget = MetricTarget(kind: string, averageUtilization: Option<int32>, otherTargets: string)

  datatype ResourceMetric = ResourceMetric(name: string, target: MetricTarget)

  /** `otherSources` stands for the object, pods, external and container-resource sources. */
  datatype MetricSpec = MetricSpec(kind: string, resource: Option<ResourceMetric>, otherSources: string)

  /** `behavior` stands for the scaling behaviour block, which the operator never sets. */
  datatype HpaSpec = HpaSpec(
    scaleTargetRef: ObjectReference,
    minReplicas: Option<int32>,
    maxReplicas: int32,
    metrics: seq<MetricSpec>,
    behavior: string)

  /** Who wrote the spec last, as the API server's managedFields record it. */
  datatype FieldManager = Operator | OtherManager

  datatype HPA = HPA(
    labels: map<string, string>,
    annotations: map<string, string>,
    ownerReferences: seq<OwnerReference>,
    spec: HpaSpec,
    specManager: FieldManager)

  const HPA_ENABLED_ANNOTATION := "core.platform.f3nr1r.io/hpa-enabled"
  const MANAGED_LABEL := "core.platform.f3nr1r.io/managed-hpa"
  const MANAGED_VALUE := "true"
  const POLICY_ANNOTATION := "core.platform.f3nr1r.io/workload-policy"

  const DEFAULT_MIN_REPLICAS: int32 := 2
  const DEFAULT_MAX_REPLICAS: int32 := 10
  const DEFAULT_TARGET_CPU: int32 := 80

  const SUFFIX := "-pgo-hpa"
  const MAX_BASE := 55

  /** managedHPAName */
  function ManagedName(deployment: string): string {
    (if |deployment| > MAX_BASE then deployment[..MAX_BASE] else deployment) + SUFFIX
  }

  /** Managed names fit a label value, and two deployments share one exactly when they are the same or agree on their
      first 55 characters. */
  lemma ManagedNameCollision(a: string, b: string)
    ensures |ManagedName(a)| <= 63
    ensures ManagedName(a) == ManagedName(b) <==>
            a == b || (|a| >= MAX_BASE && |b| >= MAX_BASE && a[..MAX_BASE] == b[..MAX_BASE])
  {
    var x := if |a| > MAX_BASE then a[..MAX_BASE] else a;
    var y := if |b| > MAX_BASE then b[..MAX_BASE] else b;
    if x + SUFFIX == y + SUFFIX {
      assert |x| == |y|;
      assert x == (x + SUFFIX)[..|x|] == (y + SUFFIX)[..|y|] == y;
    }
  }

  predicate Alphanumeric(c: char) {
    'a' <= c <= 'z' || '0' <= c <= '9'
  }

  predicate CharactersValid(name: string) {
    forall i | 0 <= i < |name| :: Alphanumeric(name[i]) || name[i] == '-' || name[i] == '.'
  }

  predicate DotsEnclosed(name: string) {
    forall i | 0 < i < |name| - 1 && name[i] == '.' :: Alphanumeric(name[i - 1]) && Alphanumeric(name[i + 1])
  }

  /** A DNS-1123 subdomain, which is what the API server accepts as the name of an autoscaler or a deployment. */
  predicate ValidName(name: string) {
    && 0 < |name| <= 253
    && Alphanumeric(name[0]) && Alphanumeric(name[|name| - 1])
    && CharactersValid(name)
    && DotsEnclosed(name)
  }

  lemma SuffixKeepsValid(base: string)
    requires 0 < |base| <= MAX_BASE && Alphanumeric(base[0])
    requires CharactersValid(base) && DotsEnclosed(base)
    ensures ValidName(base + SUFFIX) <==> base[|base| - 1] != '.'
  {
    var n, name := |base|, base + SUFFIX;
    assert CharactersValid(SUFFIX) && forall i | 0 <= i < |SUFFIX| :: SUFFIX[i] != '.';
    assert name[n] == '-' && name[|name| - 1] == 'a' && name[n - 1] == base[n - 1];
    forall i | 0 <= i < |name|
      ensures Alphanumeric(name[i]) || name[i] == '-' || name[i] == '.'
    {
      assert name[i] == if i < n then base[i] else SUFFIX[i - n];
    }
    forall i | 0 < i < |name| - 1 && name[i] == '.' && base[n - 1] != '.'
      ensures Alphanumeric(name[i - 1]) && Alphanumeric(name[i + 1])
    {
      assert i < n - 1;
      assert name[i - 1] == base[i - 1] && name[i + 1] == base[i + 1];
    }
    if base[n - 1] == '.' {
      assert !DotsEnclosed(name);
    }
  }

  lemma LastIsNoDot(name: string)
    requires ValidName(name)
    ensures name[|name| - 1] != '.'
  {
  }

  /** Truncation keeps a valid name valid unless it cuts right after a dot. */
  lemma ManagedNameValidExactlyWhen(deployment: string)
    requires ValidName(deployment)
    ensures ValidName(ManagedName(deployment)) <==> |deployment| <= MAX_BASE || deployment[MAX_BASE - 1] != '.'
  {
    hide Alphanumeric;
    var base := if |deployment| > MAX_BASE then deployment[..MAX_BASE] else deployment;
    assert DotsEnclosed(base) by {
      forall i | 0 < i < |base| - 1 && base[i] == '.'
        ensures Alphanumeric(base[i - 1]) && Alphanumeric(base[i + 1])
      {
        assert deployment[i] == '.';
      }
    }
    SuffixKeepsValid(base);
    if |deployment| <= MAX_BASE {
      LastIsNoDot(deployment);
    }
  }

  /** For instance: 54 letters and ".b", cut right after the dot. */
  lemma DottedNameBecomesInvalid()
    ensures var d := seq(54, _ => 'a') + ".b"; ValidName(d) && !ValidName(ManagedName(d))
  {
    var d := seq(54, _ => 'a') + ".b";
    assert d[54] == '.' && d[55] == 'b';
    ManagedNameValidExactlyWhen(d);
  }

  /** The key under which the operator keeps a deployment's autoscaler. */
  function HpaKey(d: Deployment): Key {
    Key(d.key.namespace, ManagedName(d.key.name))
  }

  predicate InBounds(b: HorizontalScalingPolicy) {
    1 <= b.minReplicas <= b.maxReplicas && 1 <= b.targetCPU <= 100
  }

  /** effectiveHorizontalScalingPolicy */
  function Effective(block: Option<HorizontalScalingPolicy>): HorizontalScalingPolicy {
    match block
    case None =>
      HorizontalScalingPolicy(false, DEFAULT_MIN_REPLICAS, DEFAULT_MAX_REPLICAS, DEFAULT_TARGET_CPU)
    case Some(b) =>
      HorizontalScalingPolicy(
        b.enabledByDefault,
        if b.minReplicas == 0 then DEFAULT_MIN_REPLICAS else b.minReplicas,
        if b.maxReplicas == 0 then DEFAULT_MAX_REPLICAS else b.maxReplicas,
        if b.targetCPU == 0 then DEFAULT_TARGET_CPU else b.targetCPU)
  }

  /** hpaEnabledForDeployment; None is the invalid-annotation error. */
  function HpaEnabled(d: Deployment, block: Option<HorizontalScalingPolicy>): Option<bool> {
    if HPA_ENABLED_ANNOTATION in d.annotations
    then ParseBool(TrimSpace(d.annotations[HPA_ENABLED_ANNOTATION]))
    else Some(Effective(block).enabledByDefault)
  }

  function Annotated(d: Deployment, value: string): Deployment {
    d.(annotations := d.annotations["core.platform.f3nr1r.io/hpa-enabled" := value])
  }

  /** A deployment's annotation overrules every policy: white space around it is ignored, a text that is no boolean
      and a blank one are errors. Without the annotation the policy decides, and without a scaling block the answer is
      no. */
  lemma AnnotationOverrulesPolicy(d: Deployment, block: Option<HorizontalScalingPolicy>, left: string, text: string,
        right: string)
    requires Blank(left) && Blank(right)
    requires text != "" && !IsSpace(text[0]) && !IsSpace(text[|text| - 1])
    ensures HpaEnabled(Annotated(d, left + text + right), block)
            == if text in {"1", "t", "T", "true", "TRUE", "True"} then Some(true)
               else if text in {"0", "f", "F", "false", "FALSE", "False"} then Some(false)
               else None
    ensures HpaEnabled(Annotated(d, left), block) == None
    ensures "core.platform.f3nr1r.io/hpa-enabled" !in d.annotations ==>
              HpaEnabled(d, block) == Some(block.Some? && block.value.enabledByDefault)
  {
    TrimSpaceDropsPadding(left, text, right);
    TrimSpaceOfBlank(left);
  }

  /** The controller reference to a policy. */
  function OwnerOf(policy: WorkloadPolicy): OwnerReference {
    OwnerReference("core.platform.f3nr1r.io/v1alpha1", "WorkloadPolicy", policy.key.name, policy.uid, true, true)
  }

  /** desiredHPAForDeployment */
  function DesiredHpa(policy: WorkloadPolicy, d: Deployment): HPA {
    var scaling := Effective(policy.spec.horizontalScaling);
    HPA(
      map[MANAGED_LABEL := MANAGED_VALUE],
      map[POLICY_ANNOTATION := policy.key.name],
      [OwnerOf(policy)],
      HpaSpec(
        ObjectReference("apps/v1", "Deployment", d.key.name),
        Some(scaling.minReplicas),
        scaling.maxReplicas,
        [MetricSpec("Resource",
                    Some(ResourceMetric("cpu", MetricTarget("Utilization", Some(scaling.targetCPU), ""))),
                    "")],
        ""),
      Operator)
  }

  /** isManagedHPA */
  predicate IsManaged(hpa: HPA) {
    MANAGED_LABEL in hpa.labels && hpa.labels[MANAGED_LABEL] == MANAGED_VALUE
  }

  // ---------- drift ----------

  /** The part of a resource metric, and of a metric, that the operator controls. */
  datatype ControlledResource = ControlledResource(name: string, targetKind: string, utilization: int)
  datatype ControlledMetric = ControlledMetric(kind: string, resource: Option<ControlledResource>)

  /** The part of a spec the operator controls; absent counts read as 0. */
  datatype ControlledSpec = ControlledSpec(
    scaleTargetRef: ObjectReference,
    minReplicas: int,
    maxReplicas: int,
    metrics: seq<ControlledMetric>)

  function OrZero(n: Option<int32>): int {
    match n case None => 0 case Some(v) => v
  }

  function ControlsOfMetric(m: MetricSpec): ControlledMetric {
    ControlledMetric(m.kind, match m.resource
                             case None => None
                             case Some(r) => Some(ControlledResource(r.name, r.target.kind,
                                   OrZero(r.target.averageUtilization))))
  }

  function Controls(spec: HpaSpec): ControlledSpec {
    ControlledSpec(spec.scaleTargetRef, OrZero(spec.minReplicas), spec.maxReplicas,
                   seq(|spec.metrics|, i requires 0 <= i < |spec.metrics| => ControlsOfMetric(spec.metrics[i])))
  }

  /** Drift, as the reconciler means it: the controlled parts differ. */
  predicate Drifted(existing: HpaSpec, desired: HpaSpec) {
    Controls(existing) != Controls(desired)
  }

  /** Equal, except that absent and 0 are the same. */
  predicate SameCount(m: Option<int32>, n: Option<int32>) {
    m == n || (m in {None, Some(0)} && n in {None, Some(0)})
  }

  ghost predicate SameMetricInFields(m: MetricSpec, n: MetricSpec) {
    && m.kind == n.kind
    && (m.resource.Some? <==> n.resource.Some?)
    && (m.resource.Some? ==>
          var r, s := m.resource.value, n.resource.value;
          var u, v := r.target.averageUtilization, s.target.averageUtilization;
          r.name == s.name && r.target.kind == s.target.kind && SameCount(u, v))
  }

  /** Drift in fields: target reference, bounds (an absent minimum reads as 0) and, metric by metric, kind, presence
      of a resource and then its name, target kind and utilization (absent reads as 0). */
  ghost predicate SameInFields(a: HpaSpec, b: HpaSpec) {
    && a.scaleTargetRef == b.scaleTargetRef
    && a.maxReplicas == b.maxReplicas
    && SameCount(a.minReplicas, b.minReplicas)
    && |a.metrics| == |b.metrics|
    && forall i | 0 <= i < |a.metrics| :: SameMetricInFields(a.metrics[i], b.metrics[i])
  }

  lemma DriftedExactlyWhenFieldsDiffer(existing: HpaSpec, desired: HpaSpec)
    ensures Drifted(existing, desired) <==> !SameInFields(existing, desired)
  {
    var es, ds := existing.metrics, desired.metrics;
    forall i | 0 <= i < |es| && i < |ds|
      ensures ControlsOfMetric(es[i]) == ControlsOfMetric(ds[i]) <==> SameMetricInFields(es[i], ds[i])
    {
    }
    if SameInFields(existing, desired) {
      assert Controls(existing).metrics == Controls(desired).metrics;
    }
    if !Drifted(existing, desired) {
      assert |Controls(existing).metrics| == |Controls(desired).metrics|;
      forall i | 0 <= i < |es|
        ensures SameMetricInFields(es[i], ds[i])
      {
        assert Controls(existing).metrics[i] == Controls(desired).metrics[i];
      }
    }
  }

  /** One round of the comparison loop. */
  method SameControls(em: MetricSpec, dm: MetricSpec) returns (same: bool)
    ensures same <==> ControlsOfMetric(em) == ControlsOfMetric(dm)
  {
    if em.kind != dm.kind {
      return false;
    }
    if em.resource.None? || dm.resource.None? {
      return em.resource.None? && dm.resource.None?;
    }
    if em.resource.value.name != dm.resource.value.name {
      return false;
    }
    var et, dt := em.resource.value.target, dm.resource.value.target;
    if et.kind != dt.kind {
      return false;
    }
    var existingUtil := if et.averageUtilization.Some? then et.averageUtilization.value else 0;
    var desiredUtil := if dt.averageUtilization.Some? then dt.averageUtilization.value else 0;
    return existingUtil == desiredUtil;
  }

  /** hpaSpecDrifted: the comparison reports exactly a difference in a field the operator controls, or, what is the
      same, that the controlled parts differ, so "no drift" is an equivalence relation. */
  method HpaSpecDrifted(existing: HpaSpec, desired: HpaSpec) returns (drifted: bool)
    ensures drifted <==> !SameInFields(existing, desired)
    ensures drifted <==> Controls(existing) != Controls(desired)
  {
    DriftedExactlyWhenFieldsDiffer(existing, desired);
    if existing.scaleTargetRef != desired.scaleTargetRef {
      return true;
    }
    if existing.maxReplicas != desired.maxReplicas {
      return true;
    }
    var existingMin := if existing.minReplicas.Some? then existing.minReplicas.value else 0;
    var desiredMin := if desired.minReplicas.Some? then desired.minReplicas.value else 0;
    if existingMin != desiredMin {
      return true;
    }
    if |existing.metrics| != |desired.metrics| {
      assert |Controls(existing).metrics| != |Controls(desired).metrics|;
      return true;
    }
    for i := 0 to |desired.metrics|
      invariant forall j | 0 <= j < i :: ControlsOfMetric(existing.metrics[j]) == ControlsOfMetric(desired.metrics[j])
    {
      var same := SameControls(existing.metrics[i], desired.metrics[i]);
      if !same {
        assert Controls(existing).metrics[i] != Controls(desired).metrics[i];
        return true;
      }
    }
    assert Controls(existing).metrics == Controls(desired).metrics;
    return false;
  }

  function Relabelled(hpa: HPA, policyName: string): HPA {
    hpa.(labels := hpa.labels[MANAGED_LABEL := MANAGED_VALUE],
         annotations := hpa.annotations[POLICY_ANNOTATION := policyName])
  }

  /** An autoscaler object in the controller's hands: a private copy that Get fills and Update sends. */
  class HpaObject {
    var labels: map<string, string>
    var annotations: map<string, string>
    var ownerReferences: seq<OwnerReference>
    var spec: HpaSpec
    var specManager: FieldManager

    constructor (hpa: HPA)
      ensures Value() == hpa
    {
      labels, annotations, ownerReferences := hpa.labels, hpa.annotations, hpa.ownerReferences;
      spec, specManager := hpa.spec, hpa.specManager;
    }

    function Value(): HPA
      reads this
    {
      HPA(labels, annotations, ownerReferences, spec, specManager)
    }

    /** ensureManagedHPAMetadata: the object becomes managed and names the policy; every other label and annotation,
        the owners and the spec stay. */
    method EnsureManagedMetadata(policyName: string)
      modifies this`labels, this`annotations
      ensures IsManaged(Value())
      ensures POLICY_ANNOTATION in annotations && annotations[POLICY_ANNOTATION] == policyName
      ensures labels - {MANAGED_LABEL} == old(labels) - {MANAGED_LABEL}
      ensures annotations - {POLICY_ANNOTATION} == old(annotations) - {POLICY_ANNOTATION}
      ensures Value() == Relabelled(old(Value()), policyName)
    {
      labels := labels[MANAGED_LABEL := MANAGED_VALUE];
      annotations := annotations[POLICY_ANNOTATION := policyName];
    }
  }

  /** What Update sends for a drifted autoscaler: the desired spec whole, the old owners and other metadata. */
  function Updated(existing: HPA, policy: WorkloadPolicy, d: Deployment): HPA {
    Relabelled(existing, policy.key.name).(spec := DesiredHpa(policy, d).spec, specManager := Operator)
  }
}
