# Platform Governance Operator: a verified model

The operator turns platform contracts into behaviour in a Kubernetes cluster. This project models its two working
parts, and the admission rules that join them, and proves what they guarantee.

**The autoscaler reconciler.** Among the `WorkloadPolicy` objects of a namespace that have a scaling block one is elected;
its reconcile walks over the Deployments and creates, updates, deletes or leaves one HorizontalPodAutoscaler for each, stops
at the first error with earlier writes kept, and finally records an `Available` condition. `Hpa.dfy`, `Election.dfy` and
`Status.dfy` hold the parts, `HpaPass.dfy` one pass as a function of the stored autoscalers, `Reconciler.dfy` the API server
and the reconciler as classes, proved equal to that function. `HpaTheorems.dfy` says what a pass keeps and where it leads,
`Confluence.dfy` what any sequence of reconciles leads to, `Enforcement.dfy` when success means that the policy is in force, and
`Runs.dfy` what holds in every run that mixes reconciles with edits. `AutoscalerOutcome.dfy` says what is found in the cluster
afterwards, in the fields of the API objects.

**Pod admission.** The mutator sorts telemetry profiles and policies by priority and fills in what the Pod lacks; the validator
checks it against the security baselines. `Priorities.dfy` and `PriorityMerge.dfy` are the theory of unstable sorting and
first-match filling; `Telemetry.dfy`, `Resources.dfy` and `PodMutator.dfy` the mutator on a mutable Pod; `MutatorTheorems.dfy`
and `Determinism.dfy` its guarantees; `Uniform.dfy`, `Malformed.dfy`, `Idempotence.dfy` and `OrderFree.dfy` what is left of them when
quantities are malformed; `PodValidator.dfy` the validator and how the two webhooks compose. `PodOutcome.dfy` says field by field
what is found in an admitted Pod.

**The bridge.** `Admission.dfy` defaults and validates policies and proves that this is all the other two parts rely on;
`Pipeline.dfy` carries it to the Pods admitted in any reachable state of the cluster.

## How the model reads the code

- The API server is a class with mutable maps. Every API call may work, fail without effect, or take effect with the reply lost;
  these faults, and the order of every list answer, are inputs over which the theorems quantify. One reconcile is one step.
- `sort.Slice` may leave equal priorities in any order; a `range` over a map visits the keys in any order. Sorts are arbitrary
  non-increasing rearrangements, iteration takes an arbitrary remaining key.
- `resource.ParseQuantity` is an arbitrary function from strings to optional quantities, passed around as `parse`.
- A nil map and an empty map are one value. Object names are ASCII, so a character is a byte. No `int32` is computed with, only
  compared and copied, so the width is a subset type and no wrap-around can occur.
- An autoscaler carries the manager of its spec, as the API server's managedFields do; this is how "last written by the
  operator" is expressed.

## Where properties one would expect fail

Each comes with an input and the exact condition.

- *Convergence* and *independence of the list order*: managed names keep 55 characters of the Deployment's name, so longer names can
  share an autoscaler (`LongNamesClash`). For annotations that parse both hold exactly when Deployments sharing a managed name want
  no autoscaler (`ConvergesExactlyWhenNoClash`, `ListOrderIsIrrelevantExactlyWhenNoClash`).
- *A managed name is a valid object name* fails when truncation cuts right after a dot (`DottedNameBecomesInvalid`,
  `ManagedNameValidExactlyWhen`).
- *"No mutations applied" loses nothing*: a policy that hits a malformed quantity leaves its labels and earlier resources in the Pod
  but not in the flag (`LabelLostToBadQuantity`). The condition, over a pool of policies, is in `SilenceIsHonestExactlyWhen`.
- *The mutated Pod is a function of the listed objects* fails for three reasons: policies of equal priority with different values
  (`TieMakesTwoPods`); a policy that parses in part, where the iteration order decides what is written (`HalfMalformedMakesTwoPods`);
  and policies of equal priority of which one fills what the other fails on (`TieDecidesUnblocking`).
  `DeterminedExactlyWhenTiesExchangeable` has the condition for the lists over a pool at the policies' own priorities, ties and malformed
  quantities together; `DeterminedExactlyWhenLeadersAgree` the one for a single list that parses.
- *Admitting an admitted Pod again changes nothing* fails on the half-malformed policy (`HalfMalformedIsNotIdempotent`), and when a policy
  of the same or lower priority fills what another fails on (`PriorityDecidesIdempotence`). `IdempotentExactlyWhenIndependent` has the
  condition for the lists over a pool, again at the policies' own priorities.
- *Available means enforced*: the loser of an election is shown Available, "being enforced", while a Deployment lacks the autoscaler its
  block asks for (`LoserShownAvailable`). `EnforcedExactlyWhenElected` has the condition.

The repository's README shows `mandatoryLabels` as a list whose missing entries get a placeholder value. The code has a map
from labels to default values and fills in those; the model follows the code. The comment on `Reconcile` says that it only
records status; the code also manages autoscalers there, and so does the model.

## Model

| member | source | states |
|---|---|---|
| Hpa.ManagedNameCollision | internal/controller/workloadpolicy_controller.go:352-359 | Managed names have at most 63 characters, and two Deployments share one exactly when they are equal or agree on their first 55 characters. |
| Hpa.ManagedNameValidExactlyWhen | internal/controller/workloadpolicy_controller.go:352-359 | For a valid Deployment name the managed name is a valid object name if and only if the name has at most 55 characters or its 55th is no dot. |
| Hpa.DottedNameBecomesInvalid | internal/controller/workloadpolicy_controller.go:352-359 | The valid name of 54 letters followed by ".b" gets an invalid managed name. |
| Hpa.AnnotationOverrulesPolicy | internal/controller/workloadpolicy_controller.go:299-326 | The annotation decides against every policy, white space around its value ignored: 1, t, T, true, TRUE and True enable, 0, f, F, false, FALSE and False disable, anything else, blank included, is an error; without it the block's enabledByDefault decides, and without a block the answer is no. |
| Hpa.HpaSpecDrifted | internal/controller/workloadpolicy_controller.go:386-441 | The loop reports drift exactly when one of these differs: target reference, maximum, minimum (absent reads as 0), number of metrics, or, for some metric, kind, presence of a resource, resource name, target kind or utilization (absent reads as 0). |
| Hpa.DriftedExactlyWhenFieldsDiffer | internal/controller/workloadpolicy_controller.go:386-441 | The same for drift as the other theorems use it, which is inequality of projections and so makes "no drift" an equivalence. |
| Hpa.HpaObject.EnsureManagedMetadata | internal/controller/workloadpolicy_controller.go:371-381 | The object becomes managed and names the policy; all other labels, annotations, the owners and the spec stay. |
| Election.IsHighestPriorityPolicy | internal/controller/workloadpolicy_controller.go:140-175 | The scan answers true exactly when an unbeaten contender of the list has the policy's name. |
| Election.WinnerIsMaximum | internal/controller/workloadpolicy_controller.go:150-174 | With distinct names, a policy wins exactly when it has a scaling block and beats every other contender by priority, then by smaller name. |
| Election.WinnerInFields | internal/controller/workloadpolicy_controller.go:150-174 | With distinct names, a policy wins exactly when it has a scaling block and every other policy with one has lower priority, or the same priority and a name that comes later: longer with this one as its beginning, or with the greater character where they first differ. |
| Election.TieGoesToTheSmallerName | internal/controller/workloadpolicy_controller.go:166-168 | Of two contenders of equal priority named "a" and "b", "a" wins. |
| Common.LessExactlyWhenComesFirst | internal/controller/workloadpolicy_controller.go:166 | The comparison of names from the front is the order of a dictionary. |
| Election.ExactlyOneWinner | internal/controller/workloadpolicy_controller.go:146-174 | With distinct names there is exactly one winner if and only if some policy has a scaling block. |
| Election.ElectionIgnoresOrderAndBystanders | internal/controller/workloadpolicy_controller.go:150-174 | The answer is the same for any list with the same contenders: order and policies without scaling block do not matter. |
| HpaTheorems.StepReachesTarget | internal/controller/workloadpolicy_controller.go:183-239 | One round leaves the Deployment's slot alone or at its target; on success it is at the target and settled (managed and undrifted, or not managed), and a second undisturbed round would change nothing. |
| HpaTheorems.OwnershipIsSafe | internal/controller/workloadpolicy_controller.go:197-238 | For any start, list (collisions included) and faults, also midway, the autoscalers without the managed label are the same before and after: none deleted, changed, adopted or added. |
| HpaTheorems.PassSucceedsExactlyWhen | internal/controller/workloadpolicy_controller.go:183-241 | With a working API the pass succeeds exactly when, at the start, every annotation parses and every wanted autoscaler's key is free or managed. |
| HpaTheorems.AbortCommitsPrefix | internal/controller/workloadpolicy_controller.go:183-239 | An aborted pass leaves what a successful pass over the Deployments before the failing one leaves; only a failed write can add its own effect. |
| HpaTheorems.PassLeads | internal/controller/workloadpolicy_controller.go:183-239 | Under any faults a pass without clashes leaves each slot as it was or at its target and all other keys alone; a successful one has all at their targets. |
| HpaTheorems.PassKeepsOtherKeys | internal/controller/workloadpolicy_controller.go:191-195 | Even with clashes, no key other than the Deployments' own managed keys is touched. |
| HpaTheorems.ConvergesExactlyWhenNoClash | internal/controller/workloadpolicy_controller.go:177-242 | Every successful pass from every start settles every Deployment if and only if Deployments that share a managed name all want no autoscaler. |
| HpaTheorems.LongNamesClash | internal/controller/workloadpolicy_controller.go:352-359 | Two names differing only in their 56th character: the pass reports success and leaves one Deployment unsettled. |
| HpaTheorems.ShortNamesDoNotClash | internal/controller/workloadpolicy_controller.go:352-359 | Names of at most 55 characters never clash within a namespace. |
| HpaTheorems.ListOrderIsIrrelevantExactlyWhenNoClash | internal/controller/workloadpolicy_controller.go:183-239 | For Deployments with distinct keys whose annotations parse: success and resulting map are the same for every order of the list, from every start, if and only if no two clash. |
| HpaTheorems.CleanPassAbsorbsFaultyOne | internal/controller/workloadpolicy_controller.go:183-239 | A clean pass after any faulty pass, over any order of the list, ends where a clean pass from the start would have ended. |
| HpaTheorems.PassWritesWellFormedSpecs | internal/controller/workloadpolicy_controller.go:215-238 | A pass of a policy within bounds keeps every operator-written spec within 1 <= min <= max, CPU target 1 to 100, with one Resource metric, on cpu by Utilization, and an apps/v1 Deployment target whose managed name is the autoscaler's. |
| HpaTheorems.PassStampsItsWrites | internal/controller/workloadpolicy_controller.go:232-272 | Under any faults and clashes, every autoscaler after a pass is the old one or is managed, names the policy, and is owned by the policy or by the owners it had. |
| HpaTheorems.PassKeepsOwners | internal/controller/workloadpolicy_controller.go:232-238 | Without clashes, every autoscaler that was there before keeps its owner references, and every new one is owned by the policy. |
| Reconciler.WorkloadPolicyReconciler.ReconcileDeployment | internal/controller/workloadpolicy_controller.go:184-238 | The loop body against the API server does to the stored autoscalers, and returns, what the step function says under every fault. |
| Reconciler.WorkloadPolicyReconciler.ReconcileDeploymentHpas | internal/controller/workloadpolicy_controller.go:177-242 | The loop with early return computes the pass function the theorems speak about. |
| Reconciler.WorkloadPolicyReconciler.UpdateAvailableStatusIfChanged | internal/controller/reconcile_status_helper.go:12-40 | No write when the generation is already shown; otherwise one write whose success is reported, and the conditions are stored unless it was rejected. |
| Reconciler.WorkloadPolicyReconciler.Reconcile | internal/controller/workloadpolicy_controller.go:66-110 | For every cluster, request and API behaviour the resulting cluster and error are those of the specification; Deployments and policy specs are only read. |
| Status.ConditionList.SetStatusCondition | internal/controller/reconcile_status_helper.go:20-26 | The in-place update reports a change exactly when the first condition of the kind differed or was missing. |
| Status.WithConditionShows | internal/controller/reconcile_status_helper.go:20-29 | The set condition is shown, every other kind is shown as before, and setting is idle exactly when it was shown already. |
| Status.WithConditionInPlace | internal/controller/reconcile_status_helper.go:20-26 | The set condition takes the place of the first one of its kind, or else goes to the end; all others stay where they are. |
| Confluence.ReconcileIsOwnershipSafe | internal/controller/workloadpolicy_controller.go:66-110 | Foreign autoscalers survive every reconcile, however it ends. |
| Confluence.ReconcileStaysInItsNamespace | internal/controller/workloadpolicy_controller.go:192-195 | A reconcile changes no autoscaler outside its policy's namespace. |
| Confluence.ReconcilesAreConfluent | internal/controller/workloadpolicy_controller.go:66-110 | For any sequence of reconciles of the namespace's policies, with repeats, faults and any list orders: once one reconcile of the elected policy completes its pass, the map is, and stays, that of a single clean reconcile of the elected policy from the start. |
| Confluence.CalmReconcileReachesGoal | internal/controller/workloadpolicy_controller.go:76-109 | After any such sequence, one reconcile of the elected policy whose API calls work returns no error and leaves the map of a single clean reconcile from the start. |
| Confluence.SuccessMeansAvailable | internal/controller/workloadpolicy_controller.go:93-109 | A reconcile without error, of any stored policy, leaves it shown as Available at its present generation. |
| Confluence.SuccessInFields | internal/controller/reconcile_status_helper.go:20-26 | After such a reconcile the policy's first condition of type Available has status True, reason Reconciled, the message "WorkloadPolicy is available and being enforced" and the present generation. |
| Confluence.GonePolicyIsIgnored | internal/controller/workloadpolicy_controller.go:69-72 | A request for a policy that is gone returns no error and changes nothing; a failing Get returns its error and changes nothing. |
| Confluence.ReconcileSucceedsExactlyWhen | internal/controller/workloadpolicy_controller.go:66-110 | A reconcile of a stored policy returns no error exactly when the Get works, the List calls it needs work, its pass completes if it wins the election, and the status is shown already or written. |
| Confluence.SecondReconcileIsIdle | internal/controller/workloadpolicy_controller.go:66-110 | After a calm reconcile of the elected policy a second one, lists in any order, returns no error and changes nothing in the cluster, status included. |
| Enforcement.EnforcedExactlyWhenElected | internal/controller/workloadpolicy_controller.go:76-109 | With at least one Deployment and annotations that parse: every error-free reconcile of a policy, from every start map and under every API behaviour, settles all Deployments if and only if the policy is elected and no two Deployments clash. |
| Enforcement.LoserShownAvailable | internal/controller/workloadpolicy_controller.go:83-100 | Two policies and one Deployment where a calm reconcile of the election's loser succeeds, shows it Available, and leaves the Deployment without the autoscaler its block asks for. |
| AutoscalerOutcome.CalmReconcileHandles | internal/controller/workloadpolicy_controller.go:66-297 | After any run of reconciles one undisturbed reconcile of the elected policy leaves every Deployment of the namespace handled: wanted ones have an autoscaler with target apps/v1 Deployment of that name, the block's minimum, maximum and one Resource metric on cpu with target kind Utilization at the block's value (2, 10, 80 for zeros); new ones have one controlling owner, the policy; ones that scaled otherwise keep labels, owners and other annotations; ones already in order are unchanged; unwanted ones are gone if managed and untouched if not. |
| AutoscalerOutcome.PassHandles | internal/controller/workloadpolicy_controller.go:177-297 | The same for every successful pass without clashes, whatever faults its calls were exposed to. |
| AutoscalerOutcome.DriftedExactlyWhenScalesOtherwise | internal/controller/workloadpolicy_controller.go:244-297 | An existing autoscaler counts as drifted exactly when its target, minimum, maximum or single cpu metric is not what the block asks for. |
| AutoscalerOutcome.StepFailsExactlyWhen | internal/controller/workloadpolicy_controller.go:186-238 | Each error of a round has one cause: a bad annotation before all else, then a failed Get, then a wanted key that is taken by an unmanaged autoscaler, then a failed write where one is due; only a failed write can have changed anything. |
| AutoscalerOutcome.UnlabelledAreSafe | internal/controller/workloadpolicy_controller.go:197-238 | An autoscaler whose managed label is missing or not "true" is the same before and after any prefix of any pass, and none appears. |
| Runs.OperatorSpecsStayWellFormed | internal/controller/workloadpolicy_controller.go:215-238 | In every run of admitted policy edits, Deployment edits, foreign autoscaler edits and reconciles, every spec the operator wrote last is within bounds, scales on cpu Utilization alone and targets an apps/v1 Deployment with that managed name. |
| Runs.AtMostOneStatusWritePerGeneration | internal/controller/reconcile_status_helper.go:20-39 | In every run the status of a policy object is written at most once per generation, lost replies included. |
| Runs.AvailableIsEarned | internal/controller/workloadpolicy_controller.go:76-109 | If a policy shows Available at generation g, an earlier reconcile at g found no scaling block, or a lost election, or completed the pass and left every Deployment settled unless names clash. |
| Admission.PolicyObject.Default | internal/webhook/v1alpha1/workloadpolicy_webhook.go:52-68 | Defaulting in place keeps priority, labels, requests, limits, the presence of the block, enabledByDefault and every number that is not 0; zeros become 2, 10 and 80, which is how the reconciler's own defaulting would read the block. |
| Admission.ValidateSpec | internal/webhook/v1alpha1/workloadpolicy_webhook.go:97-135 | Under every iteration order the spec is accepted exactly when all quantities parse, no label key or value is blank and the scaling block is within bounds; a rejection names a real fault and everything checked earlier is in order. |
| Admission.AdmissionDischargesTheReconciler | internal/controller/workloadpolicy_controller.go:328-350 | An admitted spec is the submitted one with zeros in the block made 2, 10 and 80; it is stable under a second admission, its quantities parse, and the reconciler's defaulting leaves its block, which is within bounds, as it is. |
| Admission.SubmittedNumbersReachTheAutoscaler | internal/controller/workloadpolicy_controller.go:244-297 | The autoscaler of an admitted policy has the submitted minimum and maximum and one Resource metric, on cpu, with the submitted Utilization; 2, 10 and 80 for fields left at 0. |
| AutoscalerOutcome.AskedAsSubmitted | internal/webhook/v1alpha1/workloadpolicy_webhook.go:52-68 | A stored autoscaler scales as the admitted block asks exactly when it scales as the submitted block asks. |
| Admission.AdmittedExactlyWhen | internal/webhook/v1alpha1/workloadpolicy_webhook.go:52-135 | Defaulting then validation accepts a submission exactly when its quantities parse, its labels are not blank, and its numbers as submitted are 0 or in range and agree once 2 and 10 stand in for zero bounds. |
| Priorities.SortByPriority | internal/webhook/core/pod_mutating_webhook.go:104-114 | The array becomes a rearrangement of itself with non-increasing priorities; ties are left open. |
| PriorityMerge.SortThenFillIsPriorityMerge | internal/webhook/core/pod_mutating_webhook.go:150-164 | Filling missing keys in any sorted order gives, per key, the base's value, else a highest-priority definer's, else nothing. |
| PriorityMerge.MergeIsDeterminedExactlyWhenLeadersAgree | internal/webhook/core/pod_mutating_webhook.go:104-108 | The filled map is the same for all sorts and all bases if and only if highest-priority definers of each key agree. |
| Telemetry.ContainerHasEnvVar | internal/webhook/core/pod_mutating_webhook.go:216-223 | True exactly when an entry has the name. |
| Telemetry.ApplyTelemetry | internal/webhook/core/pod_mutating_webhook.go:116-148 | The nested loops append to each container the settings it lacks, endpoint first, as merged over all profiles; the flag is true exactly when the Pod changed. |
| Telemetry.InjectionFollowsPriority | internal/webhook/core/pod_mutating_webhook.go:67-148 | Under every sort the old environment stays a prefix, at most one entry per setting is added, and its value comes from a highest-priority active profile offering that setting, endpoint and sampler independently. |
| PodOutcome.AdmittedEnvironment | internal/webhook/core/pod_mutating_webhook.go:104-148 | On every path: a container lacking OTEL_EXPORTER_OTLP_ENDPOINT gets it exactly when some profile has injectEnvVars and a tracing endpoint, with the tracingEndpoint of one of highest priority among these; likewise OTEL_TRACES_SAMPLER_ARG with samplingRate among those whose rate is not empty; both at the end, the endpoint first. |
| Telemetry.InjectionKeepsNamesDistinct | internal/webhook/core/pod_mutating_webhook.go:124-139 | Distinct environment names stay distinct. |
| Resources.FillMissing | internal/webhook/core/pod_mutating_webhook.go:172-189 | Under every iteration order: completes exactly when each missing default parses, and then adds all of them; otherwise some of the parseable ones, never overwriting. |
| Resources.EveryPartialFillingHappens | internal/webhook/core/pod_mutating_webhook.go:172-189 | When a missing default does not parse, every such partial filling is what some iteration order produces. |
| Resources.ApplyPolicyResources | internal/webhook/core/pod_mutating_webhook.go:166-214 | Containers are complete up to the first on which the policy fails, partial there (limits only after complete requests), untouched after it; a failure reports no mutation. |
| Resources.NeverFailsExactlyWhenQuantitiesParse | internal/webhook/core/pod_mutating_webhook.go:178-208 | The error branch is unreachable for all Pods if and only if all the policy's quantities parse. |
| PodMutator.ApplyPolicyLabels | internal/webhook/core/pod_mutating_webhook.go:150-164 | Under every iteration order exactly the missing labels are added with the policy's values; the flag is true exactly when the labels changed. |
| PodMutator.Mutator.ApplyPolicy | internal/webhook/core/pod_mutating_webhook.go:75-90 | One round: labels, then resources; it is reported exactly when it changed the Pod and met no parse error. |
| PodMutator.Mutator.Handle | internal/webhook/core/pod_mutating_webhook.go:57-101 | The final Pod is that of a possible mutation (some sort of profiles and policies, rounds in that order), and the answer is a patch to it exactly when the flag is up. |
| MutatorTheorems.NothingIsOverwritten | internal/webhook/core/pod_mutating_webhook.go:59-90 | On every path, failing policies included, labels, environment entries, requests and limits of the incoming Pod keep their values; init containers, security contexts and the container list stay. |
| MutatorTheorems.RaisedFlagMeansChange | internal/webhook/core/pod_mutating_webhook.go:59-101 | If the flag is up the final Pod differs from the incoming one, on every path. |
| MutatorTheorems.SilenceIsHonestExactlyWhen | internal/webhook/core/pod_mutating_webhook.go:76-94 | For a pool of policies: "no mutations applied" implies an unchanged Pod for all lists over the pool, Pods and orders if and only if each policy of the pool parses completely or has nothing else to apply. |
| MutatorTheorems.LabelLostToBadQuantity | internal/webhook/core/pod_mutating_webhook.go:76-94 | A concrete policy and Pod where a label is in the Pod and the answer is "no mutations applied". |
| MutatorTheorems.AdmissionIsPriorityMerge | internal/webhook/core/pod_mutating_webhook.go:74-90 | When all quantities parse, every admission ends in the priority merge of the listed policies over the Pod, for labels and per container for requests and limits. |
| MutatorTheorems.AdmissionIsSourced | internal/webhook/core/pod_mutating_webhook.go:57-90 | On every path, failing policies included: labels are the priority merge of the listed policies, each environment is the old one with the profiles' settings injected, and every added request or limit is a parsed default of some listed policy. |
| PodOutcome.AdmittedLabels | internal/webhook/core/pod_mutating_webhook.go:150-164 | On every path a label is in the Pod exactly when the user set it, with the user's value, or some policy has a default for it, with that of a highest-priority policy among these. |
| PodOutcome.AdmittedResources | internal/webhook/core/pod_mutating_webhook.go:166-214 | When all quantities parse, the same for each container's requests against defaultRequests and limits against defaultLimits, the values being what the defaults parse to. |
| MutatorTheorems.MutationIsIdempotent | internal/webhook/core/pod_mutating_webhook.go:57-94 | When all quantities parse, admitting the result again with the same objects in any order reports no mutation and leaves the Pod equal. |
| Determinism.DeterminedExactlyWhenLeadersAgree | internal/webhook/core/pod_mutating_webhook.go:57-90 | Ties: when all quantities parse, the final Pod is the same under all listing orders, sorts and iteration orders, for every incoming Pod, if and only if the highest-priority definers of every label, request, limit and telemetry setting agree. |
| Determinism.TieMakesTwoPods | internal/webhook/core/pod_mutating_webhook.go:104-108 | Two policies of equal priority with different values for one label make two Pods. |
| Malformed.HalfMalformedMakesTwoPods | internal/webhook/core/pod_mutating_webhook.go:172-189 | A single policy with one good and one malformed request makes two Pods although no definers disagree. |
| OrderFree.DeterminedExactlyWhenTiesExchangeable | internal/webhook/core/pod_mutating_webhook.go:57-214 | Every list over a pool of policies, ties and malformed quantities included, makes one Pod of each incoming Pod under all listing orders, sorts and iteration orders if and only if highest-priority profiles agree on each setting, each policy has requests that parse wholly or not at all, likewise limits, and policies of equal priority agree on what they share and none of them fills what another fails on without offering all that the other then adds. |
| OrderFree.DeterminedExactlyWhenUniform | internal/webhook/core/pod_mutating_webhook.go:166-214 | Malformed quantities alone: every list without ties over a pool makes one Pod of each incoming Pod if and only if highest-priority profiles agree on each setting and each policy has requests that parse wholly or not at all, and likewise limits. |
| OrderFree.TieDecidesUnblocking | internal/webhook/core/pod_mutating_webhook.go:166-214 | A policy with a bad request and a limit, and one with a good value for that request: every list over the two makes one Pod of each incoming Pod if and only if their priorities differ. |
| Idempotence.IdempotentExactlyWhenIndependent | internal/webhook/core/pod_mutating_webhook.go:34-94 | A second admission changes nothing, for all lists over a pool, Pods, profiles and orders, if and only if each policy has requests that parse wholly or not at all, likewise limits, and none of the same or lower priority fills what another fails on without offering all that the other then adds. |
| Idempotence.HalfMalformedIsNotIdempotent | internal/webhook/core/pod_mutating_webhook.go:172-189 | A single policy with one good and one malformed request: a second admission can change the Pod. |
| Idempotence.PriorityDecidesIdempotence | internal/webhook/core/pod_mutating_webhook.go:166-214 | A policy with a bad request and a limit, and one with a good value for that request: second admissions change nothing on all lists over the two if and only if the good one has the greater priority. |
| PodValidator.Handle | internal/webhook/core/pod_webhook.go:58-89 | The nested loops with early return allow the Pod exactly when every baseline is satisfied or excludes the namespace, and otherwise deny with the first unmet baseline's message. |
| PodValidator.VerdictOnOneBaseline | internal/webhook/core/pod_webhook.go:59-86 | One baseline allows excluded namespaces; else it denies, in this order and with these messages, a Pod not set to run as non-root, a container and an init container without a read-only root file system, where the baseline asks for it. |
| PodValidator.DecisionComposes | internal/webhook/core/pod_webhook.go:58-89 | Over concatenated lists the first list's denial wins, else the second list decides. |
| PodValidator.DecisionIgnoresOrder | internal/webhook/core/pod_webhook.go:58-89 | Whether a Pod is allowed does not depend on the order of the baselines. |
| PodValidator.MutationDoesNotChangeTheVerdict | internal/webhook/core/pod_webhook.go:58-89 | The verdict on the mutated Pod, message included, is the verdict on the incoming one, on every path through the mutator. |
| Pipeline.ReachablePodAdmissionIsSound | internal/webhook/core/pod_mutating_webhook.go:52-101 | In every reachable state of a cluster whose policies went through admission, every Pod admission ends in the priority merge of the stored policies and answers with a patch exactly when the Pod changed. |

## Left out

- Events and log lines, and the texts of errors other than the validator's messages.
- Decoding of requests, JSON patches, and the error answers when decoding or a List call of a webhook fails.
- Other writers during a reconcile and stale caches: the code does not guard against them. With one reconcile as one step a
  Delete never finds its object gone, so the tolerance for that case is present in the code of the model but idle.
- The API server's validation of object names: the model's Create accepts every name. Where the managed name is not valid a real server
  refuses each Create, which is the fault "no effect"; `Hpa.ManagedNameValidExactlyWhen` says which names are concerned.
- A condition for one given list that holds malformed quantities: the exact conditions speak of a list when its quantities parse, and
  of all lists over a pool otherwise.
- Resource versions, and defaults the API server adds to a stored autoscaler. Drift ignores those outside the controlled fields.
- The value sources of environment entries: only names decide, so an entry is a name and a value.
- Removal of autoscalers whose Deployment is gone, and any claim that the owner references of an autoscaler name the current
  winner: the code does neither.
- Transition times of conditions, and status writers other than this reconciler.
- The watch that maps a Deployment event to requests for all policies of its namespace; the theorems take any sequence of requests.
- The webhooks and reconcilers of TelemetryProfile and SecurityBaseline, manager set-up, deep copies and manifests: single checks,
  copies of the status helper, or plumbing.
