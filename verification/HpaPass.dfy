/** One pass of the reconciler over a list of deployments, under an arbitrary pattern of API failures. */
module HpaPass {
  import opened Common
  import opened Types
  import opened Hpa

  type HpaMap = map<Key, HPA>

  /** How one API call goes: it works, it fails without effect, or it takes effect and the reply is lost. */
  datatype Fault = Works | Rejected | ReplyLost

  /** The faults met while one deployment is handled: its Get, and the one write that may follow. */
  datatype StepFaults = StepFaults(get: Fault, write: Fault)

  datatype PassError = BadAnnotation | GetFailed | NotManaged | WriteFailed

  datatype Outcome = Done | Failed(error: PassError)

  const NO_FAULTS := StepFaults(Works, Works)

  predicate FaultFree(faults: seq<StepFaults>) {
    forall i | 0 <= i < |faults| :: faults[i] == NO_FAULTS
  }

  function Lookup(hpas: HpaMap, k: Key): Option<HPA> {
    if k in hpas then Some(hpas[k]) else None
  }

  function Store(hpas: HpaMap, k: Key, slot: Option<HPA>): HpaMap {
    match slot
    case None => hpas - {k}
    case Some(hpa) => hpas[k := hpa]
  }

  // ---------- one deployment ----------

  /** A write of `next` over `slot`. */
  function Write(slot: Option<HPA>, next: Option<HPA>, fault: Fault): (Option<HPA>, Outcome) {
    match fault
    case Works => (next, Done)
    case Rejected => (slot, Failed(WriteFailed))
    case ReplyLost => (next, Failed(WriteFailed))
  }

  /** The loop body, as an action on the deployment's own slot. */
  function StepOnSlot(policy: WorkloadPolicy, d: Deployment, slot: Option<HPA>,
        faults: StepFaults): (Option<HPA>, Outcome) {
    match HpaEnabled(d, policy.spec.horizontalScaling)
    case None => (slot, Failed(BadAnnotation))
    case Some(enabled) =>
      if faults.get != Works then (slot, Failed(GetFailed))
      else if !enabled then
        if slot.Some? && IsManaged(slot.value) then Write(slot, None, faults.write) else (slot, Done)
      else if slot.None? then Write(slot, Some(DesiredHpa(policy, d)), faults.write)
      else if !IsManaged(slot.value) then (slot, Failed(NotManaged))
      else if Drifted(slot.value.spec, DesiredHpa(policy, d).spec) then
        Write(slot, Some(Updated(slot.value, policy, d)), faults.write)
      else (slot, Done)
  }

  datatype PassResult = PassResult(hpas: HpaMap, outcome: Outcome)

  function Step(policy: WorkloadPolicy, d: Deployment, hpas: HpaMap, faults: StepFaults): PassResult {
    var (slot, outcome) := StepOnSlot(policy, d, Lookup(hpas, HpaKey(d)), faults);
    PassResult(Store(hpas, HpaKey(d), slot), outcome)
  }

  /** reconcileDeploymentHPAs over the first n deployments: stop at the first error, keep what was written. */
  function PassUpTo(policy: WorkloadPolicy, deployments: seq<Deployment>, faults: seq<StepFaults>, hpas: HpaMap,
        n: nat): PassResult
    requires n <= |deployments| == |faults|
  {
    if n == 0 then PassResult(hpas, Done)
    else
      var before := PassUpTo(policy, deployments, faults, hpas, n - 1);
      if before.outcome.Failed? then before
      else Step(policy, deployments[n - 1], before.hpas, faults[n - 1])
  }

  function Pass(policy: WorkloadPolicy, deployments: seq<Deployment>, faults: seq<StepFaults>, hpas: HpaMap): PassResult
    requires |deployments| == |faults|
  {
    PassUpTo(policy, deployments, faults, hpas, |deployments|)
  }

  /** A pass in which every API call works. */
  function CleanPass(policy: WorkloadPolicy, deployments: seq<Deployment>, hpas: HpaMap): PassResult {
    Pass(policy, deployments, seq(|deployments|, _ => NO_FAULTS), hpas)
  }

  lemma {:induction false} FailureEndsThePass(policy: WorkloadPolicy, deployments: seq<Deployment>,
        faults: seq<StepFaults>, hpas: HpaMap, n: nat, m: nat)
    requires n <= m <= |deployments| == |faults|
    requires PassUpTo(policy, deployments, faults, hpas, n).outcome.Failed?
    ensures PassUpTo(policy, deployments, faults, hpas, m) == PassUpTo(policy, deployments, faults, hpas, n)
    decreases m
  {
    hide StepOnSlot;
    if n < m {
      FailureEndsThePass(policy, deployments, faults, hpas, n, m - 1);
    }
  }

  // ---------- what a pass is meant to achieve ----------

  predicate AnnotationParses(policy: WorkloadPolicy, d: Deployment) {
    HpaEnabled(d, policy.spec.horizontalScaling).Some?
  }

  predicate Wanted(policy: WorkloadPolicy, d: Deployment) {
    HpaEnabled(d, policy.spec.horizontalScaling) == Some(true)
  }

  predicate Unwanted(policy: WorkloadPolicy, d: Deployment) {
    HpaEnabled(d, policy.spec.horizontalScaling) == Some(false)
  }

  /** Deployment d is in the state the policy asks for. */
  predicate Settled(policy: WorkloadPolicy, d: Deployment, slot: Option<HPA>) {
    && (Wanted(policy, d) ==>
          && slot.Some?
          && IsManaged(slot.value)
          && !Drifted(slot.value.spec, DesiredHpa(policy, d).spec))
    && (Unwanted(policy, d) ==> !(slot.Some? && IsManaged(slot.value)))
  }

  ghost predicate Converged(policy: WorkloadPolicy, deployments: seq<Deployment>, hpas: HpaMap) {
    forall d | d in deployments :: Settled(policy, d, Lookup(hpas, HpaKey(d)))
  }

  /** Deployments that share a managed name want no autoscaler. Pairwise distinct managed names are the special
      case. */
  ghost predicate NoClash(policy: WorkloadPolicy, deployments: seq<Deployment>) {
    forall d, e | d in deployments && e in deployments && d != e && HpaKey(d) == HpaKey(e) ::
      Unwanted(policy, d) && Unwanted(policy, e)
  }

  ghost predicate SameDeployments(ds: seq<Deployment>, es: seq<Deployment>) {
    forall d :: d in ds <==> d in es
  }

  ghost predicate DistinctKeys(ds: seq<Deployment>) {
    forall i, j | 0 <= i < j < |ds| :: ds[i].key != ds[j].key
  }

  /** No error awaits this deployment when the API works: its annotation parses and, if an autoscaler is wanted, its
      key is free or already managed. */
  predicate Acceptable(policy: WorkloadPolicy, d: Deployment, hpas: HpaMap) {
    && AnnotationParses(policy, d)
    && (Wanted(policy, d) ==> HpaKey(d) !in hpas || IsManaged(hpas[HpaKey(d)]))
  }

  /** The autoscalers that are not the operator's. */
  function Foreign(hpas: HpaMap): HpaMap {
    map k | k in hpas && !IsManaged(hpas[k]) :: hpas[k]
  }

  /** The slot an undisturbed step leaves behind. */
  function Target(policy: WorkloadPolicy, d: Deployment, slot: Option<HPA>): Option<HPA> {
    StepOnSlot(policy, d, slot, NO_FAULTS).0
  }

  lemma StoreOwnLookup(hpas: HpaMap, k: Key)
    ensures Store(hpas, k, Lookup(hpas, k)) == hpas
  {
  }
}
