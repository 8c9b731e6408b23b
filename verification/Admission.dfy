/** The admission webhooks of WorkloadPolicy: defaulting, then validation. */
module Admission {
  import opened Common
  import opened Types
  import Hpa

  /** Defaulting replaces a scaling block by its effective reading. */
  function Defaulted(spec: WorkloadPolicySpec): WorkloadPolicySpec {
    if spec.horizontalScaling.None? then spec
    else spec.(horizontalScaling := Some(Hpa.Effective(spec.horizontalScaling)))
  }

  /** The number stays unless it was left at 0. */
  predicate Filled(before: int32, default: int32, after: int32) {
    after == if before == 0 then default else before
  }

  /** What defaulting does to each field: zeros in the block become 2, 10 and 80, everything else stays. */
  predicate DefaultedInFields(before: WorkloadPolicySpec, after: WorkloadPolicySpec) {
    && after.priority == before.priority
    && after.mandatoryLabels == before.mandatoryLabels
    && after.defaultRequests == before.defaultRequests
    && after.defaultLimits == before.defaultLimits
    && (after.horizontalScaling.Some? <==> before.horizontalScaling.Some?)
    && (before.horizontalScaling.Some? ==>
          var b, a := before.horizontalScaling.value, after.horizontalScaling.value;
          && a.enabledByDefault == b.enabledByDefault
          && Filled(b.minReplicas, 2, a.minReplicas)
          && Filled(b.maxReplicas, 10, a.maxReplicas)
          && Filled(b.targetCPU, 80, a.targetCPU))
  }

  /** The object under admission, updated in place by the defaulter. */
  class PolicyObject {
    var spec: WorkloadPolicySpec

    constructor (spec: WorkloadPolicySpec)
      ensures this.spec == spec
    {
      this.spec := spec;
    }

    /** Default: what the webhook writes into a scaling block is what the reconciler would read out of it, and nothing
        else of the spec changes. */
    method Default()
      modifies this
      ensures spec == Defaulted(old(spec))
      ensures spec.horizontalScaling.Some? ==>
                spec.horizontalScaling.value == Hpa.Effective(old(spec).horizontalScaling)
      ensures DefaultedInFields(old(spec), spec)
    {
      if spec.horizontalScaling.None? {
        return;
      }
      if spec.horizontalScaling.value.minReplicas == 0 {
        spec := spec.(horizontalScaling :=
                        Some(spec.horizontalScaling.value.(minReplicas := Hpa.DEFAULT_MIN_REPLICAS)));
      }
      if spec.horizontalScaling.value.maxReplicas == 0 {
        spec := spec.(horizontalScaling :=
                        Some(spec.horizontalScaling.value.(maxReplicas := Hpa.DEFAULT_MAX_REPLICAS)));
      }
      if spec.horizontalScaling.value.targetCPU == 0 {
        spec := spec.(horizontalScaling := Some(spec.horizontalScaling.value.(targetCPU := Hpa.DEFAULT_TARGET_CPU)));
      }
    }
  }

  // ---------- validation ----------

  predicate LabelsNonBlank(labels: map<string, string>) {
    forall l | l in labels :: !Blank(l) && !Blank(labels[l])
  }

  predicate ScalingInBounds(block: Option<HorizontalScalingPolicy>) {
    block.Some? ==> Hpa.InBounds(block.value)
  }

  predicate ValidSpec(parse: QuantityParser, spec: WorkloadPolicySpec) {
    && QuantitiesParse(parse, spec)
    && LabelsNonBlank(spec.mandatoryLabels)
    && ScalingInBounds(spec.horizontalScaling)
  }

  datatype SpecError =
    | InvalidRequest(resource: string, text: string)
    | InvalidLimit(resource: string, text: string)
    | BlankLabelKey
    | BlankLabelValue(key: string)
    | MinReplicasTooSmall
    | MaxReplicasTooSmall
    | MaxBelowMin
    | TargetCpuOutOfRange

  /** The complaint names something really wrong with the spec, and everything checked before it is in order. */
  ghost predicate Explains(parse: QuantityParser, spec: WorkloadPolicySpec, e: SpecError) {
    && (!e.InvalidRequest? ==> AllParse(parse, spec.defaultRequests))
    && (!e.InvalidRequest? && !e.InvalidLimit? ==> AllParse(parse, spec.defaultLimits))
    && (!e.InvalidRequest? && !e.InvalidLimit? && !e.BlankLabelKey? && !e.BlankLabelValue? ==>
          LabelsNonBlank(spec.mandatoryLabels) && spec.horizontalScaling.Some?)
    && match e
       case InvalidRequest(r, t) => r in spec.defaultRequests && spec.defaultRequests[r] == t && parse(t).None?
       case InvalidLimit(r, t) => r in spec.defaultLimits && spec.defaultLimits[r] == t && parse(t).None?
       case BlankLabelKey => exists l :: l in spec.mandatoryLabels && Blank(l)
       case BlankLabelValue(l) => l in spec.mandatoryLabels && !Blank(l) && Blank(spec.mandatoryLabels[l])
       case MinReplicasTooSmall => spec.horizontalScaling.value.minReplicas < 1
       case MaxReplicasTooSmall =>
         spec.horizontalScaling.value.minReplicas >= 1 > spec.horizontalScaling.value.maxReplicas
       case MaxBelowMin => 1 <= spec.horizontalScaling.value.maxReplicas < spec.horizontalScaling.value.minReplicas
       case TargetCpuOutOfRange =>
         && 1 <= spec.horizontalScaling.value.minReplicas <= spec.horizontalScaling.value.maxReplicas
         && !(1 <= spec.horizontalScaling.value.targetCPU <= 100)
  }

  /** One of the two quantity loops: visit the entries in any order, stop at the first that does not parse. */
  method FindUnparsed(parse: QuantityParser, quantities: map<string, string>) returns (bad: Option<string>)
    ensures bad.None? <==> AllParse(parse, quantities)
    ensures bad.Some? ==> bad.value in quantities && parse(quantities[bad.value]).None?
  {
    var remaining := quantities.Keys;
    while remaining != {}
      invariant remaining <= quantities.Keys
      invariant forall r | r in quantities && r !in remaining :: parse(quantities[r]).Some?
    {
      var r :| r in remaining;
      remaining := remaining - {r};
      if parse(quantities[r]).None? {
        return Some(r);
      }
    }
    return None;
  }

  /** validateWorkloadPolicySpec */
  method ValidateSpec(parse: QuantityParser, spec: WorkloadPolicySpec) returns (err: Option<SpecError>)
    ensures err.None? <==> ValidSpec(parse, spec)
    ensures err.Some? ==> Explains(parse, spec, err.value)
  {
    var badRequest := FindUnparsed(parse, spec.defaultRequests);
    if badRequest.Some? {
      return Some(InvalidRequest(badRequest.value, spec.defaultRequests[badRequest.value]));
    }
    var badLimit := FindUnparsed(parse, spec.defaultLimits);
    if badLimit.Some? {
      return Some(InvalidLimit(badLimit.value, spec.defaultLimits[badLimit.value]));
    }
    var remaining := spec.mandatoryLabels.Keys;
    while remaining != {}
      invariant remaining <= spec.mandatoryLabels.Keys
      invariant forall l | l in spec.mandatoryLabels && l !in remaining :: !Blank(l) && !Blank(spec.mandatoryLabels[l])
    {
      var l :| l in remaining;
      remaining := remaining - {l};
      TrimSpaceOfBlank(l);
      TrimSpaceOfBlank(spec.mandatoryLabels[l]);
      if TrimSpace(l) == "" {
        return Some(BlankLabelKey);
      }
      if TrimSpace(spec.mandatoryLabels[l]) == "" {
        return Some(BlankLabelValue(l));
      }
    }
    if spec.horizontalScaling.Some? {
      var scaling := spec.horizontalScaling.value;
      if scaling.minReplicas < 1 {
        return Some(MinReplicasTooSmall);
      }
      if scaling.maxReplicas < 1 {
        return Some(MaxReplicasTooSmall);
      }
      if scaling.maxReplicas < scaling.minReplicas {
        return Some(MaxBelowMin);
      }
      if scaling.targetCPU < 1 || scaling.targetCPU > 100 {
        return Some(TargetCpuOutOfRange);
      }
    }
    return None;
  }

  /** What admission lets into the cluster: the spec that defaulting makes of the submitted one, if it validates. */
  function Admit(parse: QuantityParser, submitted: WorkloadPolicySpec): Option<WorkloadPolicySpec> {
    if ValidSpec(parse, Defaulted(submitted)) then Some(Defaulted(submitted)) else None
  }

  /** An admitted spec parses, stays as it is under a second admission, and is read by the reconciler exactly as
      written, within bounds. */
  lemma AdmissionDischargesTheReconciler(parse: QuantityParser, submitted: WorkloadPolicySpec)
    requires Admit(parse, submitted).Some?
    ensures var spec := Admit(parse, submitted).value;
            && Admit(parse, spec) == Some(spec)
            && DefaultedInFields(submitted, spec)
            && QuantitiesParse(parse, spec)
            && (spec.horizontalScaling.Some? ==>
                  && Hpa.Effective(spec.horizontalScaling) == spec.horizontalScaling.value
                  && Hpa.Effective(spec.horizontalScaling) == Hpa.Effective(submitted.horizontalScaling)
                  && Hpa.InBounds(Hpa.Effective(spec.horizontalScaling)))
  {
  }

  /** The numbers of a submitted policy reach the autoscalers as submitted, with 2, 10 and 80 for those left at 0, and
      make a legal autoscaler for every deployment. */
  lemma SubmittedNumbersReachTheAutoscaler(parse: QuantityParser, submitted: WorkloadPolicySpec, policy: WorkloadPolicy,
        d: Deployment)
    requires Admit(parse, submitted) == Some(policy.spec) && submitted.horizontalScaling.Some?
    ensures var b := submitted.horizontalScaling.value;
            var spec := Hpa.DesiredHpa(policy, d).spec;
            && |spec.metrics| == 1 && spec.metrics[0].kind == "Resource" && spec.metrics[0].resource.Some?
            && var cpu := spec.metrics[0].resource.value;
            var target := cpu.target.averageUtilization;
            && cpu.name == "cpu" && cpu.target.kind == "Utilization"
            && spec.minReplicas == Some(if b.minReplicas != 0 then b.minReplicas else 2)
            && spec.maxReplicas == (if b.maxReplicas != 0 then b.maxReplicas else 10)
            && target == Some(if b.targetCPU != 0 then b.targetCPU else 80)
            && 1 <= spec.minReplicas.value <= spec.maxReplicas && 1 <= target.value <= 100
  {
  }

  /** Which submitted numbers are accepted: each is left at 0 or in its range, and the bounds agree once the defaults
      2 and 10 stand in for zeros, so that a lone minimum above 10 or a lone maximum of 1 is refused. */
  predicate NumbersAcceptable(b: HorizontalScalingPolicy) {
    && b.minReplicas >= 0 && b.maxReplicas >= 0 && 0 <= b.targetCPU <= 100
    && (b.minReplicas > 10 ==> b.maxReplicas > 10)
    && (b.maxReplicas == 1 ==> b.minReplicas == 1)
    && (b.minReplicas != 0 && b.maxReplicas != 0 ==> b.minReplicas <= b.maxReplicas)
  }

  /** Defaulting followed by validation accepts a submission exactly when its quantities parse, its labels are not
      blank and its numbers, as submitted, are acceptable. */
  lemma AdmittedExactlyWhen(parse: QuantityParser, submitted: WorkloadPolicySpec)
    ensures Admit(parse, submitted).Some? <==>
            && (forall r | r in submitted.defaultRequests :: parse(submitted.defaultRequests[r]).Some?)
            && (forall r | r in submitted.defaultLimits :: parse(submitted.defaultLimits[r]).Some?)
            && (forall l | l in submitted.mandatoryLabels :: !Blank(l) && !Blank(submitted.mandatoryLabels[l]))
            && (submitted.horizontalScaling.Some? ==> NumbersAcceptable(submitted.horizontalScaling.value))
  {
  }
}
