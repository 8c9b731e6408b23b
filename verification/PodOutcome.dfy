/** What users find in an admitted pod, said in the fields of the API objects. */
module PodOutcome {
  import opened Common
  import opened Types
  import opened Pods
  import opened Priorities
  import opened PriorityMerge
  import opened Telemetry
  import opened PodMutator
  import opened MutatorTheorems

  // ---------- telemetry ----------

  /** The profile injects telemetry at all, that is, an endpoint. */
  predicate GivesEndpoint(p: TelemetryProfile) {
    p.injectEnvVars && p.tracingEndpoint != ""
  }

  /** The profile injects a sampling rate as well. */
  predicate GivesRate(p: TelemetryProfile) {
    p.injectEnvVars && p.tracingEndpoint != "" && p.samplingRate != ""
  }

  /** p gives the setting, and no profile that gives it has a higher priority. */
  ghost predicate GivesFirst(profiles: seq<TelemetryProfile>, gives: TelemetryProfile -> bool, p: TelemetryProfile) {
    p in profiles && gives(p) && forall q | q in profiles && gives(q) :: q.priority <= p.priority
  }

  /** The entry added under a name: none if the container has one or no profile gives the setting, else one with the
      value of a profile that gives it first. */
  ghost predicate AddedFor(name: string, env: seq<EnvVar>, added: seq<EnvVar>, profiles: seq<TelemetryProfile>,
        gives: TelemetryProfile -> bool, value: TelemetryProfile -> string) {
    if (exists e :: e in env && e.name == name) || forall p | p in profiles :: !gives(p)
    then added == []
    else exists p :: GivesFirst(profiles, gives, p) && added == [EnvVar(name, value(p))]
  }

  /** The environment grows at its end by an endpoint and a sampler argument, each chosen on its own. */
  ghost predicate EnvironmentGrows(profiles: seq<TelemetryProfile>, env: seq<EnvVar>, env': seq<EnvVar>) {
    exists e, s ::
      && env' == env + e + s
      && AddedFor("OTEL_EXPORTER_OTLP_ENDPOINT", env, e, profiles, (p: TelemetryProfile) => GivesEndpoint(p),
                  (p: TelemetryProfile) => p.tracingEndpoint)
      && AddedFor("OTEL_TRACES_SAMPLER_ARG", env, s, profiles, (p: TelemetryProfile) => GivesRate(p),
                  (p: TelemetryProfile) => p.samplingRate)
  }

  lemma NamesInEnv(env: seq<EnvVar>, name: string)
    ensures HasEnv(env, name) <==> exists e :: e in env && e.name == name
  {
    if e :| e in env && e.name == name {
      var i :| 0 <= i < |env| && env[i] == e;
    }
    if HasEnv(env, name) {
      var i :| 0 <= i < |env| && env[i].name == name;
      assert env[i] in env;
    }
  }

  lemma OffersInFields(p: TelemetryProfile)
    ensures ENDPOINT == "OTEL_EXPORTER_OTLP_ENDPOINT" && SAMPLER == "OTEL_TRACES_SAMPLER_ARG"
    ensures ENDPOINT in Offers(p) <==> GivesEndpoint(p)
    ensures ENDPOINT in Offers(p) ==> Offers(p)[ENDPOINT] == p.tracingEndpoint
    ensures SAMPLER in Offers(p) <==> GivesRate(p)
    ensures SAMPLER in Offers(p) ==> Offers(p)[SAMPLER] == p.samplingRate
    ensures Profiles().priority(p) == p.priority && Profiles().values(p) == Offers(p)
  {
    assert |ENDPOINT| != |SAMPLER|;
  }

  /** The injected entry of one setting, given what it means for a profile to offer it. */
  lemma EntryInFields(profiles: seq<TelemetryProfile>, sorted: seq<TelemetryProfile>, env: seq<EnvVar>, name: string,
        gives: TelemetryProfile -> bool, value: TelemetryProfile -> string)
    requires Sorts(Profiles().priority, profiles, sorted)
    requires forall p :: name in Offers(p) <==> gives(p)
    requires forall p | name in Offers(p) :: Offers(p)[name] == value(p)
    ensures AddedFor(name, env, Entry(env, Settings(sorted), name), profiles, gives, value)
  {
    hide Offers, Settings, Sorts, HasEnv;
    NamesInEnv(env, name);
    SettingsFollowPriority(profiles, sorted, name);
    if name in Settings(sorted) {
      var p :| Leads(Profiles(), profiles, p, name) && Offers(p)[name] == Settings(sorted)[name];
      forall q | q in profiles && gives(q)
        ensures q.priority <= p.priority
      {
        assert Defines(Profiles(), profiles, q, name);
      }
      assert GivesFirst(profiles, gives, p);
    }
  }

  lemma InjectionInFields(profiles: seq<TelemetryProfile>, sorted: seq<TelemetryProfile>, env: seq<EnvVar>)
    requires Sorts(Profiles().priority, profiles, sorted)
    ensures EnvironmentGrows(profiles, env, Injected(env, Settings(sorted)))
  {
    hide Offers, Settings, Sorts, HasEnv, AddedFor, Entry;
    forall p {
      OffersInFields(p);
    }
    OffersInFields(TelemetryProfile("", 0, false, "", ""));
    EntryInFields(profiles, sorted, env, ENDPOINT, (p: TelemetryProfile) => GivesEndpoint(p),
                  (p: TelemetryProfile) => p.tracingEndpoint);
    EntryInFields(profiles, sorted, env, SAMPLER, (p: TelemetryProfile) => GivesRate(p),
                  (p: TelemetryProfile) => p.samplingRate);
  }

  /** On every path through the mutator each container gets the endpoint and the sampling rate of the profiles that
      give them first. */
  lemma AdmittedEnvironment(parse: QuantityParser, profiles: seq<TelemetryProfile>, policies: seq<WorkloadPolicy>,
        v: PodValue, m: Mutation)
    requires Possible(parse, profiles, policies, v, m)
    ensures |Final(m).containers| == |v.containers|
    ensures forall i | 0 <= i < |v.containers| ::
              EnvironmentGrows(profiles, v.containers[i].env, Final(m).containers[i].env)
  {
    hide PolicyOutcome, Settings, Sorts, EnvironmentGrows, IsPriorityMerge, FromDefaults, Injected;
    AdmissionIsSourced(parse, profiles, policies, v, m);
    forall i | 0 <= i < |v.containers|
      ensures EnvironmentGrows(profiles, v.containers[i].env, Final(m).containers[i].env)
    {
      InjectionInFields(profiles, m.profiles, v.containers[i].env);
    }
  }

  // ---------- labels, requests and limits ----------

  /** p has a default for the key, and no policy that has one is of higher priority. */
  ghost predicate DefaultsFirst(policies: seq<WorkloadPolicy>, defaults: WorkloadPolicySpec -> map<string, string>,
        key: string, p: WorkloadPolicy) {
    && p in policies && key in defaults(p.spec)
    && forall q | q in policies && key in defaults(q.spec) :: q.spec.priority <= p.spec.priority
  }

  /** Key by key: the user's value, else that of a policy that has a default for the key first, else none. */
  ghost predicate FilledByPriority<V(!new)>(policies: seq<WorkloadPolicy>,
        defaults: WorkloadPolicySpec -> map<string, string>, read: string -> Option<V>, before: map<string, V>,
        after: map<string, V>) {
    && (forall key | key in before :: key in after && after[key] == before[key])
    && (forall key | key !in before ::
          key in after <==> exists p :: p in policies && key in defaults(p.spec))
    && (forall key | key in after && key !in before ::
          exists p :: DefaultsFirst(policies, defaults, key, p) && read(defaults(p.spec)[key]) == Some(after[key]))
  }

  /** Any merge whose items offer what the policies' defaults read as. */
  lemma MergeInFields<V(!new)>(src: Source<WorkloadPolicy, V>, policies: seq<WorkloadPolicy>,
        defaults: WorkloadPolicySpec -> map<string, string>, read: string -> Option<V>, before: map<string, V>,
        after: map<string, V>)
    requires IsPriorityMerge(src, policies, before, after)
    requires forall p | p in policies :: src.priority(p) == p.spec.priority
    requires forall p, key | p in policies && key in defaults(p.spec) ::
               key in src.values(p) && read(defaults(p.spec)[key]) == Some(src.values(p)[key])
    requires forall p, key | p in policies && key in src.values(p) :: key in defaults(p.spec)
    ensures FilledByPriority(policies, defaults, read, before, after)
  {
    forall key
      ensures key in before ==> key in after && after[key] == before[key]
      ensures key !in before ==> (key in after <==> exists p :: p in policies && key in defaults(p.spec))
    {
      assert MergedAt(src, policies, before, after, key);
    }
    forall key | key in after && key !in before
      ensures exists p :: DefaultsFirst(policies, defaults, key, p) && read(defaults(p.spec)[key]) == Some(after[key])
    {
      assert MergedAt(src, policies, before, after, key);
      var p :| Leads(src, policies, p, key) && src.values(p)[key] == after[key];
      forall q | q in policies && key in defaults(q.spec)
        ensures q.spec.priority <= p.spec.priority
      {
        assert Defines(src, policies, q, key);
      }
      assert DefaultsFirst(policies, defaults, key, p);
    }
  }

  /** On every path through the mutator, failing policies included: the labels. */
  lemma AdmittedLabels(parse: QuantityParser, profiles: seq<TelemetryProfile>, policies: seq<WorkloadPolicy>,
        v: PodValue, m: Mutation)
    requires Possible(parse, profiles, policies, v, m)
    ensures FilledByPriority(policies, (s: WorkloadPolicySpec) => s.mandatoryLabels, (x: string) => Some(x), v.labels,
                             Final(m).labels)
  {
    hide PolicyOutcome, Settings, Sorts, IsPriorityMerge, FromDefaults, Injected;
    AdmissionIsSourced(parse, profiles, policies, v, m);
    MergeInFields(Labels(), policies, (s: WorkloadPolicySpec) => s.mandatoryLabels, (x: string) => Some(x), v.labels,
                  Final(m).labels);
  }

  /** When all quantities parse: requests and limits of every container. */
  lemma AdmittedResources(parse: QuantityParser, profiles: seq<TelemetryProfile>, policies: seq<WorkloadPolicy>,
        v: PodValue, m: Mutation, i: nat)
    requires Possible(parse, profiles, policies, v, m) && i < |v.containers|
    requires forall p, r | p in policies && r in p.spec.defaultRequests :: parse(p.spec.defaultRequests[r]).Some?
    requires forall p, r | p in policies && r in p.spec.defaultLimits :: parse(p.spec.defaultLimits[r]).Some?
    ensures i < |Final(m).containers|
    ensures var c, c' := v.containers[i], Final(m).containers[i];
            && FilledByPriority(policies, (s: WorkloadPolicySpec) => s.defaultRequests, parse, c.requests, c'.requests)
            && FilledByPriority(policies, (s: WorkloadPolicySpec) => s.defaultLimits, parse, c.limits, c'.limits)
  {
    hide PolicyOutcome, Settings, Sorts, IsPriorityMerge, Injected, FilledByPriority;
    AdmissionIsPriorityMerge(parse, profiles, policies, v, m);
    var c, c' := v.containers[i], Final(m).containers[i];
    assert ContainerMerged(parse, policies, InjectedPod(v, Settings(m.profiles)).containers[i], c');
    MergeInFields(Requests(parse), policies, (s: WorkloadPolicySpec) => s.defaultRequests, parse, c.requests,
                  c'.requests);
    MergeInFields(Limits(parse), policies, (s: WorkloadPolicySpec) => s.defaultLimits, parse, c.limits, c'.limits);
  }
}
