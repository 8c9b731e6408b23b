/** Injection of OpenTelemetry settings into the containers of a Pod. */
module Telemetry {
  import opened Types
  import opened Pods
  import opened Priorities
  import opened PriorityMerge

  const ENDPOINT := "OTEL_EXPORTER_OTLP_ENDPOINT"
  const SAMPLER := "OTEL_TRACES_SAMPLER_ARG"

  predicate Active(p: TelemetryProfile) {
    p.injectEnvVars && p.tracingEndpoint != ""
  }

  /** What a profile offers to a container: nothing unless active, then the endpoint and perhaps a sampler
      argument. */
  function Offers(p: TelemetryProfile): map<string, string> {
    if !Active(p) then map[]
    else if p.samplingRate == "" then map[ENDPOINT := p.tracingEndpoint]
    else map[ENDPOINT := p.tracingEndpoint, SAMPLER := p.samplingRate]
  }

  function Profiles(): Source<TelemetryProfile, string> {
    Source((p: TelemetryProfile) => p.priority, (p: TelemetryProfile) => Offers(p))
  }

  function Entry(env: seq<EnvVar>, offers: map<string, string>, name: string): seq<EnvVar> {
    if name in offers && !HasEnv(env, name) then [EnvVar(name, offers[name])] else []
  }

  /** An environment with the offered settings it lacks at its end, the endpoint first. */
  function Injected(env: seq<EnvVar>, offers: map<string, string>): seq<EnvVar> {
    env + Entry(env, offers, ENDPOINT) + Entry(env, offers, SAMPLER)
  }

  function InjectedPod(v: PodValue, offers: map<string, string>): PodValue {
    v.(containers := seq(|v.containers|, i requires 0 <= i < |v.containers| =>
                         v.containers[i].(env := Injected(v.containers[i].env, offers))))
  }

  /** The settings a list of profiles offers together, in list order. */
  function Settings(profiles: seq<TelemetryProfile>): map<string, string> {
    FillAll(Profiles(), profiles, map[])
  }

  /** containerHasEnvVar */
  method ContainerHasEnvVar(envs: seq<EnvVar>, key: string) returns (found: bool)
    ensures found <==> HasEnv(envs, key)
  {
    for i := 0 to |envs|
      invariant forall j | 0 <= j < i :: envs[j].name != key
    {
      if envs[i].name == key {
        return true;
      }
    }
    return false;
  }

  lemma HasEnvAppend(env: seq<EnvVar>, more: seq<EnvVar>, name: string)
    ensures HasEnv(env + more, name) <==> HasEnv(env, name) || HasEnv(more, name)
  {
    forall i | 0 <= i < |more|
      ensures more[i] == (env + more)[|env| + i]
    {
    }
    if HasEnv(env, name) {
      var i :| 0 <= i < |env| && env[i].name == name;
      assert (env + more)[i].name == name;
    }
  }

  /** The body of the container loop for one active profile. */
  method InjectInto(pod: Pod, i: nat, profile: TelemetryProfile) returns (mutated: bool)
    requires i < |pod.containers| && Active(profile)
    modifies pod`containers
    ensures var c := old(pod.containers[i]);
            pod.containers == old(pod.containers)[i := c.(env := Injected(c.env, Offers(profile)))]
    ensures mutated <==> pod.containers[i] != old(pod.containers[i])
  {
    mutated := false;
    ghost var env := pod.containers[i].env;
    var hasEndpoint := ContainerHasEnvVar(pod.containers[i].env, ENDPOINT);
    if !hasEndpoint {
      var c := pod.containers[i];
      pod.containers := pod.containers[i := c.(env := c.env + [EnvVar(ENDPOINT, profile.tracingEndpoint)])];
      mutated := true;
    }
    HasEnvAppend(env, Entry(env, Offers(profile), ENDPOINT), SAMPLER);
    if profile.samplingRate != "" {
      var hasSampler := ContainerHasEnvVar(pod.containers[i].env, SAMPLER);
      if !hasSampler {
        var c := pod.containers[i];
        pod.containers := pod.containers[i := c.(env := c.env + [EnvVar(SAMPLER, profile.samplingRate)])];
        mutated := true;
      }
    }
    assert pod.containers[i].env == Injected(env, Offers(profile));
    assert mutated <==> |pod.containers[i].env| > |env|;
  }

  /** Whoever sets the sampler sets the endpoint. */
  predicate EndpointFirst(offers: map<string, string>) {
    SAMPLER in offers ==> ENDPOINT in offers
  }

  lemma InjectingTwice(env: seq<EnvVar>, first: map<string, string>, second: map<string, string>)
    requires EndpointFirst(first) && EndpointFirst(second)
    ensures Injected(Injected(env, first), second) == Injected(env, second + first)
  {
    var e, s := Entry(env, first, ENDPOINT), Entry(env, first, SAMPLER);
    assert Injected(env, first) == env + (e + s);
    forall name | name == ENDPOINT || name == SAMPLER
      ensures HasEnv(Injected(env, first), name) <==> HasEnv(env, name) || name in first
    {
      HasEnvAppend(env, e + s, name);
      HasEnvAppend(e, s, name);
      assert s != [] ==> s[0].name == SAMPLER;
      assert e != [] ==> e[0].name == ENDPOINT;
    }
  }

  /** The container loop for one active profile. */
  method InjectIntoAll(pod: Pod, profile: TelemetryProfile) returns (mutated: bool)
    requires Active(profile)
    modifies pod`containers
    ensures pod.Value() == InjectedPod(old(pod.Value()), Offers(profile))
    ensures mutated <==> pod.Value() != old(pod.Value())
  {
    ghost var before := pod.containers;
    mutated := false;
    for i := 0 to |pod.containers|
      invariant |pod.containers| == |before|
      invariant forall j | 0 <= j < i :: 
                  pod.containers[j] == before[j].(env := Injected(before[j].env, Offers(profile)))
      invariant forall j | i <= j < |before| :: pod.containers[j] == before[j]
      invariant mutated <==> pod.containers != before
    {
      var changed := InjectInto(pod, i, profile);
      if changed {
        mutated := true;
        assert pod.containers[i] != before[i];
      }
    }
  }

  lemma NothingInjected(v: PodValue)
    ensures InjectedPod(v, map[]) == v
  {
    forall i | 0 <= i < |v.containers|
      ensures Injected(v.containers[i].env, map[]) == v.containers[i].env
    {
    }
    assert InjectedPod(v, map[]).containers == v.containers;
  }

  lemma TwoRounds(v: PodValue, first: map<string, string>, second: map<string, string>)
    requires EndpointFirst(first) && EndpointFirst(second)
    ensures InjectedPod(InjectedPod(v, first), second) == InjectedPod(v, second + first)
  {
    forall i | 0 <= i < |v.containers|
      ensures Injected(Injected(v.containers[i].env, first), second) == Injected(v.containers[i].env, second + first)
    {
      InjectingTwice(v.containers[i].env, first, second);
    }
    assert InjectedPod(InjectedPod(v, first), second).containers == InjectedPod(v, second + first).containers;
  }

  lemma InjectedPodExtends(v: PodValue, offers: map<string, string>)
    ensures Extends(v, InjectedPod(v, offers))
  {
  }

  /** applyTelemetry: the containers end up with the settings of the whole list injected, and the flag is true exactly
      when one of them changed. */
  method ApplyTelemetry(pod: Pod, profiles: seq<TelemetryProfile>) returns (mutated: bool)
    modifies pod`containers
    ensures pod.Value() == InjectedPod(old(pod.Value()), Settings(profiles))
    ensures mutated <==> pod.Value() != old(pod.Value())
  {
    ghost var before := pod.Value();
    mutated := false;
    NothingInjected(before);
    for n := 0 to |profiles|
      invariant pod.Value() == InjectedPod(before, Settings(profiles[..n]))
      invariant EndpointFirst(Settings(profiles[..n]))
      invariant mutated <==> pod.Value() != before
    {
      var profile := profiles[n];
      assert profiles[..n + 1] == profiles[..n] + [profile];
      FillAllAppend(Profiles(), profiles[..n], profile, map[]);
      if !profile.injectEnvVars || profile.tracingEndpoint == "" {
        assert Offers(profile) + Settings(profiles[..n]) == Settings(profiles[..n]);
        continue;
      }
      ghost var round := pod.Value();
      var profileMutated := InjectIntoAll(pod, profile);
      TwoRounds(before, Settings(profiles[..n]), Offers(profile));
      if profileMutated {
        mutated := true;
        InjectedPodExtends(before, Settings(profiles[..n]));
        InjectedPodExtends(round, Offers(profile));
        if pod.Value() == before {
          ExtendsIsAntisymmetric(before, round);
        }
      }
    }
    assert profiles[..|profiles|] == profiles;
  }

  // ---------- what the settings are ----------

  lemma SettingsFollowPriority(profiles: seq<TelemetryProfile>, sorted: seq<TelemetryProfile>, name: string)
    requires Sorts(Profiles().priority, profiles, sorted)
    ensures if name in Settings(sorted)
            then exists p :: Leads(Profiles(), profiles, p, name) && Offers(p)[name] == Settings(sorted)[name]
            else forall p | p in profiles :: name !in Offers(p)
    ensures forall p | Leads(Profiles(), profiles, p, name) :: p in profiles && name in Offers(p)
  {
    SortThenFillIsPriorityMerge(Profiles(), profiles, sorted, map[]);
    assert MergedAt(Profiles(), profiles, map[], Settings(sorted), name);
  }

  ghost predicate DistinctEnvNames(env: seq<EnvVar>) {
    forall i, j | 0 <= i < j < |env| :: env[i].name != env[j].name
  }

  lemma EntryAtMostOne(env: seq<EnvVar>, offers: map<string, string>, name: string)
    ensures |Entry(env, offers, name)| <= 1 && forall e | e in Entry(env, offers, name) :: e.name == name
  {
  }

  lemma EntriesAppended(env: seq<EnvVar>, offers: map<string, string>)
    ensures var after := Injected(env, offers);
            && env <= after && DistinctEnvNames(after[|env|..])
            && (forall e | e in after[|env|..] :: e.name in {ENDPOINT, SAMPLER})
  {
    hide HasEnv, Entry;
    var e, s := Entry(env, offers, ENDPOINT), Entry(env, offers, SAMPLER);
    EntryAtMostOne(env, offers, ENDPOINT);
    EntryAtMostOne(env, offers, SAMPLER);
    assert |ENDPOINT| != |SAMPLER|;
    assert DistinctEnvNames(e + s) by {
      assert forall i | 0 <= i < |e| :: e[i] in e;
      assert forall i | 0 <= i < |s| :: s[i] in s;
    }
    assert Injected(env, offers) == env + (e + s) && Injected(env, offers)[|env|..] == e + s;
  }

  lemma EntryAdded(env: seq<EnvVar>, offers: map<string, string>, name: string)
    requires name == ENDPOINT || name == SAMPLER
    ensures var added := Injected(env, offers)[|env|..];
            if HasEnv(env, name) || name !in offers then forall e | e in added :: e.name != name
            else EnvVar(name, offers[name]) in added
  {
    hide HasEnv;
    var e, s := Entry(env, offers, ENDPOINT), Entry(env, offers, SAMPLER);
    assert Injected(env, offers) == env + (e + s) && Injected(env, offers)[|env|..] == e + s;
    if !HasEnv(env, name) && name in offers {
      assert EnvVar(name, offers[name]) == Entry(env, offers, name)[0];
      assert (e + s)[if name == ENDPOINT then 0 else |e|] == EnvVar(name, offers[name]);
    }
  }

  lemma EntriesAdded(env: seq<EnvVar>, offers: map<string, string>, name: string)
    requires name == ENDPOINT || name == SAMPLER
    ensures var after := Injected(env, offers);
            && env <= after && DistinctEnvNames(after[|env|..])
            && (forall e | e in after[|env|..] :: e.name in {ENDPOINT, SAMPLER})
            && if HasEnv(env, name) || name !in offers then forall e | e in after[|env|..] :: e.name != name
               else EnvVar(name, offers[name]) in after[|env|..]
  {
    hide HasEnv, Injected, DistinctEnvNames;
    EntriesAppended(env, offers);
    EntryAdded(env, offers, name);
  }

  /** The entry added for a setting, in any order a sort may produce: none if the container has the name or no profile
      offers it; else one whose value comes from a profile of highest priority among those offering it. Endpoint and
      sampler argument are chosen independently, so they may come from different profiles. */
  lemma InjectionFollowsPriority(profiles: seq<TelemetryProfile>, sorted: seq<TelemetryProfile>, env: seq<EnvVar>,
        name: string)
    requires Sorts(Profiles().priority, profiles, sorted) && (name == ENDPOINT || name == SAMPLER)
    ensures var after := Injected(env, Settings(sorted));
            && env <= after && DistinctEnvNames(after[|env|..])
            && (forall e | e in after[|env|..] :: e.name in {ENDPOINT, SAMPLER})
            && if HasEnv(env, name) || forall p | p in profiles :: name !in Offers(p)
               then forall e | e in after[|env|..] :: e.name != name
               else exists p :: Leads(Profiles(), profiles, p, name) && EnvVar(name, Offers(p)[name]) in after[|env|..]
  {
    hide Settings, Leads, Offers, Sorts;
    var settings := Settings(sorted);
    EntriesAdded(env, settings, name);
    SettingsFollowPriority(profiles, sorted, name);
  }

  /** Injection never duplicates a name. */
  lemma InjectionKeepsNamesDistinct(env: seq<EnvVar>, offers: map<string, string>)
    requires DistinctEnvNames(env)
    ensures DistinctEnvNames(Injected(env, offers))
  {
  }

  lemma SettingsOffered(profiles: seq<TelemetryProfile>, sorted: seq<TelemetryProfile>, name: string)
    requires Sorts(Profiles().priority, profiles, sorted)
    ensures name in Settings(sorted) <==> exists p :: p in profiles && name in Offers(p)
  {
    SortThenFillIsPriorityMerge(Profiles(), profiles, sorted, map[]);
    assert MergedAt(Profiles(), profiles, map[], Settings(sorted), name);
  }

  lemma {:induction false} SettingsCarryEndpoint(profiles: seq<TelemetryProfile>)
    ensures EndpointFirst(Settings(profiles))
  {
    if profiles != [] {
      var n := |profiles| - 1;
      SettingsCarryEndpoint(profiles[..n]);
      FillAllAppend(Profiles(), profiles[..n], profiles[n], map[]);
      assert profiles == profiles[..n] + [profiles[n]];
    }
  }

  /** Injecting again, after any other sort of the same profiles, adds nothing. */
  lemma InjectionIsIdempotent(profiles: seq<TelemetryProfile>, first: seq<TelemetryProfile>,
        second: seq<TelemetryProfile>, env: seq<EnvVar>)
    requires Sorts(Profiles().priority, profiles, first) && Sorts(Profiles().priority, profiles, second)
    ensures Injected(Injected(env, Settings(first)), Settings(second)) == Injected(env, Settings(first))
  {
    hide Settings, Sorts, Offers;
    SettingsCarryEndpoint(first);
    SettingsCarryEndpoint(second);
    InjectingTwice(env, Settings(first), Settings(second));
    SettingsOffered(profiles, first, ENDPOINT);
    SettingsOffered(profiles, first, SAMPLER);
    SettingsOffered(profiles, second, ENDPOINT);
    SettingsOffered(profiles, second, SAMPLER);
  }
}
