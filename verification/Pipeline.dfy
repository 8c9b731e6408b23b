/** The two halves together: in a cluster whose policies went through admission, the Pod mutator works as intended. */
module Pipeline {
  import opened Types
  import opened Pods
  import opened Reconciler
  import opened PodMutator
  import opened MutatorTheorems
  import opened Telemetry
  import Priorities
  import opened Confluence
  import opened Runs

  lemma StoredPoliciesParse(parse: QuantityParser, w: World, order: seq<Key>)
    requires PoliciesAdmitted(parse, w) && forall k | k in order :: k in w.policies
    ensures AllPoliciesParse(parse, PoliciesIn(w, order))
  {
    forall p | p in PoliciesIn(w, order)
      ensures QuantitiesParse(parse, p.spec)
    {
      PoliciesListed(w, order, p);
    }
  }

  /** In every reachable state, whatever policies of a namespace are listed in whatever order: a Pod admission ends in
      the priority merge of the stored policies, and it answers with a patch exactly when the Pod changed. */
  lemma ReachablePodAdmissionIsSound(parse: QuantityParser, states: seq<State>, actions: seq<Action>, n: nat,
        order: seq<Key>, profiles: seq<TelemetryProfile>, v: PodValue, m: Mutation)
    requires Run(parse, states, actions) && n <= |actions|
    requires forall k | k in order :: k in states[n].world.policies
    requires Possible(parse, profiles, PoliciesIn(states[n].world, order), v, m)
    ensures PodMerged(parse, PoliciesIn(states[n].world, order), InjectedPod(v, Settings(m.profiles)), Final(m))
    ensures Flag(parse, v, m) <==> Final(m) != v
  {
    hide PolicyOutcome, PodMerged, QuantitiesParse, InjectedPod, Settings, PoliciesIn, Priorities.NonIncreasing;
    OperatorSpecsStayWellFormed(parse, states, actions, n);
    var policies := PoliciesIn(states[n].world, order);
    StoredPoliciesParse(parse, states[n].world, order);
    AdmissionIsPriorityMerge(parse, profiles, policies, v, m);
    SoundPoliciesAreHonest(parse, policies);
    if Flag(parse, v, m) {
      RaisedFlagMeansChange(parse, profiles, policies, v, m);
    }
  }
}
