/** Whole runs of the cluster: admitted policy edits, deployment edits and other people's autoscaler edits,
    interleaved with reconciles under any API behaviour. One reconcile is one step. */
module Runs {
  import opened Common
  import opened Types
  import opened Hpa
  import opened HpaPass
  import opened HpaTheorems
  import opened Election
  import opened Reconciler
  import opened Confluence
  import Admission
  import Status

  datatype Action =
    | SubmitPolicy(key: Key, uid: string, submitted: WorkloadPolicySpec)
    | DeletePolicy(key: Key)
    | ApplyDeployment(key: Key, annotations: map<string, string>)
    | DeleteDeployment(key: Key)
    | EditHpa(key: Key, hpa: Option<HPA>)
    | Reconcile(key: Key, api: ApiBehaviour)

  /** The cluster, and the object UIDs handed out so far. */
  datatype State = State(world: World, issued: set<string>)

  /** Policies pass admission, new objects get new UIDs, and an edit by somebody else that changes an autoscaler's
      spec is recorded as theirs. */
  ghost predicate Allowed(parse: QuantityParser, s: State, a: Action) {
    match a
    case SubmitPolicy(key, uid, submitted) =>
      Admission.Admit(parse, submitted).Some? && (key in s.world.policies || uid !in s.issued)
    case EditHpa(key, hpa) =>
      hpa.Some? ==>
        || hpa.value.specManager == OtherManager
        || (key in s.world.hpas && s.world.hpas[key].spec == hpa.value.spec
            && s.world.hpas[key].specManager == hpa.value.specManager)
    case Reconcile(key, api) => Answers(s.world, key.namespace, api)
    case _ => true
  }

  /** Storing an admitted spec: a new object starts at generation 1 without conditions, a changed spec raises the
      generation. */
  function Submitted(s: State, key: Key, uid: string, spec: WorkloadPolicySpec): State {
    if key in s.world.policies then
      var record := s.world.policies[key];
      var generation := if record.spec == spec then record.generation else record.generation + 1;
      s.(world := s.world.(policies := s.world.policies[key := record.(spec := spec, generation := generation)]))
    else
      State(s.world.(policies := s.world.policies[key := PolicyRecord(uid, 1, spec, [])]), s.issued + {uid})
  }

  ghost function Next(parse: QuantityParser, s: State, a: Action): State
    requires Allowed(parse, s, a)
  {
    match a
    case SubmitPolicy(key, uid, submitted) => Submitted(s, key, uid, Admission.Admit(parse, submitted).value)
    case DeletePolicy(key) => s.(world := s.world.(policies := s.world.policies - {key}))
    case ApplyDeployment(key, annotations) =>
      s.(world := s.world.(deployments := s.world.deployments[key := annotations]))
    case DeleteDeployment(key) => s.(world := s.world.(deployments := s.world.deployments - {key}))
    case EditHpa(key, hpa) => s.(world := s.world.(hpas := Store(s.world.hpas, key, hpa)))
    case Reconcile(key, api) => s.(world := ReconcileSpec(s.world, key, api).world)
  }

  /** A run starts before the operator is installed: no policies, and no autoscaler spec of the operator's. */
  ghost predicate Initial(s: State) {
    && s.world.policies == map[] && s.issued == {}
    && forall k | k in s.world.hpas :: s.world.hpas[k].specManager == OtherManager
  }

  ghost predicate Steps(parse: QuantityParser, s: State, a: Action, s': State) {
    Allowed(parse, s, a) && s' == Next(parse, s, a)
  }

  ghost predicate Run(parse: QuantityParser, states: seq<State>, actions: seq<Action>) {
    && |states| == |actions| + 1
    && Initial(states[0])
    && forall i | 0 <= i < |actions| :: Steps(parse, states[i], actions[i], states[i + 1])
  }

  // ---------- what every reachable state satisfies ----------

  ghost predicate PoliciesAdmitted(parse: QuantityParser, w: World) {
    forall k | k in w.policies :: Admission.ValidSpec(parse, w.policies[k].spec)
  }

  ghost predicate UidsIssued(s: State) {
    forall k | k in s.world.policies :: s.world.policies[k].uid in s.issued
  }

  ghost predicate Sound(parse: QuantityParser, s: State) {
    PoliciesAdmitted(parse, s.world) && OperatorSpecsWellFormed(s.world.hpas) && UidsIssued(s)
  }

  lemma ReconcileWritesWellFormedSpecs(parse: QuantityParser, w: World, key: Key, api: ApiBehaviour)
    requires Answers(w, key.namespace, api)
    requires PoliciesAdmitted(parse, w) && OperatorSpecsWellFormed(w.hpas)
    ensures OperatorSpecsWellFormed(ReconcileSpec(w, key, api).world.hpas)
  {
    hide HpaPhase, ReconcileSpec, Pass, IsHighest, PoliciesIn, OperatorSpecsWellFormed;
    HpasAfterReconcile(w, key, api);
    if key in w.policies {
      HpasAfterPhase(w, key, api);
      var policy := PolicyAt(w, key);
      if Contender(policy) {
        PassIsPassUpTo(policy, DeploymentsIn(w, api.deploymentOrder), api.steps, w.hpas);
        PassWritesWellFormedSpecs(policy, DeploymentsIn(w, api.deploymentOrder), api.steps, w.hpas, |api.steps|);
      }
    }
  }

  lemma StepKeepsSound(parse: QuantityParser, s: State, a: Action, s': State)
    requires Steps(parse, s, a, s') && Sound(parse, s)
    ensures Sound(parse, s')
  {
    hide ReconcileSpec, Admission.ValidSpec, WellFormed;
    match a
    case Reconcile(key, api) =>
      ReconcileWritesWellFormedSpecs(parse, s.world, key, api);
      ReconcileKeepsSpecs(s.world, key, api);
      assert forall k | k in s'.world.policies :: PolicyAt(s'.world, k) == PolicyAt(s.world, k);
    case _ =>
  }

  lemma InitialIsSound(parse: QuantityParser, s: State)
    requires Initial(s)
    ensures Sound(parse, s)
  {
  }

  /** In every reachable state each autoscaler whose spec the operator wrote last has 1 <= min <= max, a CPU target
      between 1 and 100, and a scale target whose managed name is the autoscaler's own name; and every stored policy
      is one that admission accepts. */
  lemma {:induction false} OperatorSpecsStayWellFormed(parse: QuantityParser, states: seq<State>, actions: seq<Action>,
        n: nat)
    requires Run(parse, states, actions) && n <= |actions|
    ensures Sound(parse, states[n])
  {
    hide Sound, Next, Allowed;
    if n > 0 {
      OperatorSpecsStayWellFormed(parse, states, actions, n - 1);
      StepKeepsSound(parse, states[n - 1], actions[n - 1], states[n]);
    } else {
      InitialIsSound(parse, states[0]);
    }
  }

  // ---------- status ----------

  function Conditions(s: State, k: Key): seq<Status.Condition>
    requires k in s.world.policies
  {
    s.world.policies[k].conditions
  }

  /** The step wrote the status of the policy with this UID at this generation. */
  ghost predicate WritesStatus(s: State, a: Action, s': State, uid: string, generation: int) {
    && a.Reconcile?
    && a.key in s.world.policies && a.key in s'.world.policies
    && s.world.policies[a.key].uid == uid && s.world.policies[a.key].generation == generation
    && Conditions(s', a.key) != Conditions(s, a.key)
  }

  /** The policy with this UID, while it exists, is past the generation or shows it as Available. */
  ghost predicate Recorded(s: State, uid: string, generation: int) {
    && uid in s.issued
    && forall k | k in s.world.policies && s.world.policies[k].uid == uid ::
         && s.world.policies[k].generation >= generation
         && (s.world.policies[k].generation == generation ==>
               Status.Shows(Conditions(s, k), Status.AvailableAt(generation)))
  }

  lemma ConditionsAfterStatusPhase(w: World, key: Key, fault: Fault, k: Key)
    requires key in w.policies && k in w.policies
    ensures var w' := StatusPhase(w, key, fault).world;
            var available := Status.AvailableAt(w.policies[k].generation);
            && k in w'.policies
            && (w'.policies[k] == w.policies[k]
                || (&& k == key && !Status.Shows(w.policies[k].conditions, available)
                    && w'.policies[k] ==
                       w.policies[k].(conditions := Status.WithCondition(w.policies[k].conditions, available))))
  {
    hide Status.Shows, Status.WithCondition;
  }

  /** What a reconcile does to one policy's conditions: nothing, or for the requested policy the one status update. */
  lemma ConditionsAfterReconcile(w: World, key: Key, api: ApiBehaviour, k: Key)
    requires Answers(w, key.namespace, api) && k in w.policies
    ensures var w' := ReconcileSpec(w, key, api).world;
            var available := Status.AvailableAt(w.policies[k].generation);
            && k in w'.policies
            && (w'.policies[k] == w.policies[k]
                || (&& k == key && api.getPolicy == Works && HpaPhase(w, key, api).error.None?
                    && !Status.Shows(w.policies[k].conditions, available)
                    && w'.policies[k] ==
                       w.policies[k].(conditions := Status.WithCondition(w.policies[k].conditions, available))))
  {
    hide HpaPhase, Answers, StatusPhase;
    if key in w.policies {
      ConditionsAfterStatusPhase(w.(hpas := HpaPhase(w, key, api).hpas), key, api.status, k);
    }
  }

  lemma RecordedPersists(parse: QuantityParser, s: State, a: Action, s': State, uid: string, generation: int)
    requires Steps(parse, s, a, s') && Recorded(s, uid, generation)
    ensures Recorded(s', uid, generation)
  {
    hide ReconcileSpec, Admission.Admit, Answers, HpaPhase, Status.Shows, Status.WithCondition;
    if a.Reconcile? {
      ReconcileKeepsSpecs(s.world, a.key, a.api);
      forall k | k in s'.world.policies && s'.world.policies[k].uid == uid
        ensures s'.world.policies[k].generation >= generation
        ensures s'.world.policies[k].generation == generation ==>
                  Status.Shows(Conditions(s', k), Status.AvailableAt(generation))
      {
        ConditionsAfterReconcile(s.world, a.key, a.api, k);
      }
    }
  }

  lemma WriteRecords(parse: QuantityParser, s: State, a: Action, s': State, uid: string, generation: int)
    requires Steps(parse, s, a, s') && UidsIssued(s) && WritesStatus(s, a, s', uid, generation)
    requires forall k | k in s.world.policies && s.world.policies[k].uid == uid :: k == a.key
    ensures Recorded(s', uid, generation)
  {
    hide ReconcileSpec, Answers, HpaPhase, Status.Shows, Status.WithCondition;
    ReconcileKeepsSpecs(s.world, a.key, a.api);
    ConditionsAfterReconcile(s.world, a.key, a.api, a.key);
    Status.WithConditionShows(Conditions(s, a.key), Status.AvailableAt(generation));
    assert forall k | k in s'.world.policies :: PolicyAt(s'.world, k) == PolicyAt(s.world, k);
  }

  /** A UID names at most one policy at a time. */
  ghost predicate UidsUnique(s: State) {
    && UidsIssued(s)
    && forall j, k | j in s.world.policies && k in s.world.policies
                     && s.world.policies[j].uid == s.world.policies[k].uid :: j == k
  }

  lemma {:induction false} UidsStayUnique(parse: QuantityParser, states: seq<State>, actions: seq<Action>, n: nat)
    requires Run(parse, states, actions) && n <= |actions|
    ensures UidsUnique(states[n])
  {
    hide ReconcileSpec, Answers, Admission.Admit;
    if n > 0 {
      UidsStayUnique(parse, states, actions, n - 1);
      assert Steps(parse, states[n - 1], actions[n - 1], states[n]);
      if actions[n - 1].Reconcile? {
        ReconcileKeepsSpecs(states[n - 1].world, actions[n - 1].key, actions[n - 1].api);
        assert forall k | k in states[n].world.policies ::
              PolicyAt(states[n].world, k) == PolicyAt(states[n - 1].world, k);
      }
    }
  }

  lemma {:induction false} RecordedStays(parse: QuantityParser, states: seq<State>, actions: seq<Action>, uid: string,
        generation: int, m: nat, n: nat)
    requires Run(parse, states, actions) && m <= n <= |actions|
    requires Recorded(states[m], uid, generation)
    ensures Recorded(states[n], uid, generation)
    decreases n
  {
    hide Recorded, Next, Allowed;
    if m < n {
      RecordedStays(parse, states, actions, uid, generation, m, n - 1);
      RecordedPersists(parse, states[n - 1], actions[n - 1], states[n], uid, generation);
    }
  }

  /** A policy's status is written at most once per generation: no later step of the run writes it again, lost replies
      and repeated requests included. */
  lemma AtMostOneStatusWritePerGeneration(parse: QuantityParser, states: seq<State>, actions: seq<Action>, uid: string,
        generation: int, i: nat, j: nat)
    requires Run(parse, states, actions) && i < j < |actions|
    requires WritesStatus(states[i], actions[i], states[i + 1], uid, generation)
    ensures !WritesStatus(states[j], actions[j], states[j + 1], uid, generation)
  {
    hide ReconcileSpec, Answers, Status.Shows, Status.WithCondition;
    UidsStayUnique(parse, states, actions, i);
    assert Steps(parse, states[i], actions[i], states[i + 1]);
    WriteRecords(parse, states[i], actions[i], states[i + 1], uid, generation);
    RecordedStays(parse, states, actions, uid, generation, i + 1, j);
    assert Steps(parse, states[j], actions[j], states[j + 1]);
    if actions[j].Reconcile? && actions[j].key in states[j].world.policies {
      ConditionsAfterReconcile(states[j].world, actions[j].key, actions[j].api, actions[j].key);
    }
  }

  /** The step reconciled the policy with this UID at this generation, and the policy had no scaling block, or was not
      elected, or its pass over the deployments completed, leaving them all settled unless names clash. */
  ghost predicate Justifies(s: State, a: Action, s': State, uid: string, generation: int) {
    && a.Reconcile? && a.key in s.world.policies && Answers(s.world, a.key.namespace, a.api)
    && s.world.policies[a.key].uid == uid && s.world.policies[a.key].generation == generation
    && var policy := PolicyAt(s.world, a.key);
       var deployments := DeploymentsIn(s.world, a.api.deploymentOrder);
       || !Contender(policy)
       || !IsHighest(PoliciesIn(s.world, a.api.policyOrder), policy)
       || (&& Pass(policy, deployments, a.api.steps, s.world.hpas).outcome.Done?
           && (NoClash(policy, deployments) ==> Converged(policy, deployments, s'.world.hpas)))
  }

  lemma WriteIsJustified(s: State, key: Key, api: ApiBehaviour)
    requires Answers(s.world, key.namespace, api) && key in s.world.policies
    requires api.getPolicy == Works && HpaPhase(s.world, key, api).error.None?
    ensures Justifies(s, Reconcile(key, api), s.(world := ReconcileSpec(s.world, key, api).world),
                      s.world.policies[key].uid, s.world.policies[key].generation)
  {
    hide ReconcileSpec, Pass, NoClash, Converged;
    HpasAfterReconcile(s.world, key, api);
    HpasAfterPhase(s.world, key, api);
    var policy, deployments := PolicyAt(s.world, key), DeploymentsIn(s.world, api.deploymentOrder);
    if Pass(policy, deployments, api.steps, s.world.hpas).outcome.Done? && NoClash(policy, deployments) {
      SuccessSettles(policy, deployments, api.steps, s.world.hpas);
    }
  }

  lemma OnlyReconcilesTouchConditions(parse: QuantityParser, s: State, a: Action, s': State, k: Key)
    requires Steps(parse, s, a, s') && !a.Reconcile? && k in s'.world.policies
    ensures || Conditions(s', k) == []
            || (k in s.world.policies && s.world.policies[k].uid == s'.world.policies[k].uid
                && Conditions(s, k) == Conditions(s', k))
  {
  }

  /** Available is earned: if a policy is shown Available at generation g, an earlier reconcile of it at g was
      justified. */
  lemma {:induction false} AvailableIsEarned(parse: QuantityParser, states: seq<State>, actions: seq<Action>, n: nat,
        k: Key, g: int)
    requires Run(parse, states, actions) && n <= |actions|
    requires k in states[n].world.policies && Status.Shows(Conditions(states[n], k), Status.AvailableAt(g))
    ensures exists i :: 0 <= i < n && Justifies(states[i], actions[i], states[i + 1], states[n].world.policies[k].uid,
          g)
  {
    hide ReconcileSpec, Answers, HpaPhase, Justifies, Admission.Admit;
    if n > 0 {
      var s, a, s' := states[n - 1], actions[n - 1], states[n];
      assert Steps(parse, s, a, s');
      if a.Reconcile? {
        ReconcileKeepsSpecs(s.world, a.key, a.api);
        ConditionsAfterReconcile(s.world, a.key, a.api, k);
        var available := Status.AvailableAt(s.world.policies[k].generation);
        if s'.world.policies[k] != s.world.policies[k] {
          Status.WithConditionShows(Conditions(s, k), available);
          WriteIsJustified(s, a.key, a.api);
          assert Justifies(states[n - 1], actions[n - 1], states[n], states[n].world.policies[k].uid, g);
        } else {
          AvailableIsEarned(parse, states, actions, n - 1, k, g);
        }
      } else {
        OnlyReconcilesTouchConditions(parse, s, a, s', k);
        AvailableIsEarned(parse, states, actions, n - 1, k, g);
      }
    }
  }
}
