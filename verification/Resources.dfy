/** Filling in default resource requests and limits, which stops at a quantity that does not parse. */
module Resources {
  import opened Common
  import opened Types
  import opened Pods

  /** The defaults that parse. */
  function Parsed(parse: QuantityParser, defaults: map<string, string>): map<string, Quantity> {
    map r | r in defaults && parse(defaults[r]).Some? :: parse(defaults[r]).value
  }

  /** Every default that is still missing parses. */
  predicate Fillable(parse: QuantityParser, defaults: map<string, string>, current: map<string, Quantity>) {
    forall r | r in defaults && r !in current :: parse(defaults[r]).Some?
  }

  function Filled(parse: QuantityParser, defaults: map<string, string>,
        current: map<string, Quantity>): map<string, Quantity> {
    Parsed(parse, defaults) + current
  }

  /** Some of the missing defaults that parse have been added. */
  ghost predicate PartlyFilled(parse: QuantityParser, defaults: map<string, string>, before: map<string, Quantity>,
        after: map<string, Quantity>) {
    MapExtends(before, after) && MapExtends(after, Filled(parse, defaults, before))
  }

  /** One of the two loops over defaults: any iteration order, early exit on a parse error with earlier writes
      kept. */
  method FillMissing(parse: QuantityParser, defaults: map<string, string>, current: map<string, Quantity>)
    returns (after: map<string, Quantity>, mutated: bool, ok: bool)
    ensures ok <==> Fillable(parse, defaults, current)
    ensures ok ==> after == Filled(parse, defaults, current)
    ensures !ok ==> PartlyFilled(parse, defaults, current, after)
    ensures mutated <==> after != current
  {
    after, mutated := current, false;
    var remaining := defaults.Keys;
    while remaining != {}
      invariant remaining <= defaults.Keys
      invariant PartlyFilled(parse, defaults, current, after)
      invariant forall r | r in defaults && r !in remaining :: r in after && (r in current || parse(defaults[r]).Some?)
      invariant forall r | r in remaining && r in after :: r in current
      invariant mutated <==> after != current
    {
      var r :| r in remaining;
      remaining := remaining - {r};
      if r in after {
        continue;
      }
      var quantity := parse(defaults[r]);
      if quantity.None? {
        return after, mutated, false;
      }
      after := after[r := quantity.value];
      mutated := true;
      assert r !in current;
    }
    ok := true;
    assert after == Filled(parse, defaults, current);
  }

  // ---------- every partial outcome can happen ----------

  /** The loop as a function of the iteration order, from position n on. */
  function FillInOrder(parse: QuantityParser, defaults: map<string, string>, order: seq<string>,
        current: map<string, Quantity>): (r: (map<string, Quantity>, bool))
    requires forall r | r in order :: r in defaults
  {
    if order == [] then (current, true)
    else if order[0] in current then FillInOrder(parse, defaults, order[1..], current)
    else if parse(defaults[order[0]]).None? then (current, false)
    else FillInOrder(parse, defaults, order[1..], current[order[0] := parse(defaults[order[0]]).value])
  }

  /** The order visits exactly the keys of the map, each once. */
  ghost predicate IterationOrder(order: seq<string>, defaults: map<string, string>) {
    && (forall i, j | 0 <= i < j < |order| :: order[i] != order[j])
    && (forall r :: r in order <==> r in defaults)
  }

  lemma {:induction false} SetAsSequence(s: set<string>) returns (order: seq<string>)
    ensures forall i, j | 0 <= i < j < |order| :: order[i] != order[j]
    ensures forall r :: r in order <==> r in s
  {
    if s == {} {
      order := [];
    } else {
      var r :| r in s;
      var rest := SetAsSequence(s - {r});
      order := [r] + rest;
    }
  }

  lemma DistinctConcatenation(a: seq<string>, b: seq<string>)
    requires forall i, j | 0 <= i < j < |a| :: a[i] != a[j]
    requires forall i, j | 0 <= i < j < |b| :: b[i] != b[j]
    requires forall r | r in a :: r !in b
    ensures forall i, j | 0 <= i < j < |a + b| :: (a + b)[i] != (a + b)[j]
  {
    assert forall i | 0 <= i < |a| :: a[i] in a;
    assert forall j | 0 <= j < |b| :: b[j] in b;
  }

  lemma {:induction false} OrderedFillAdds(parse: QuantityParser, defaults: map<string, string>, first: seq<string>,
        rest: seq<string>, before: map<string, Quantity>, after: map<string, Quantity>)
    requires forall r | r in first + rest :: r in defaults
    requires forall r | r in first :: r in before || parse(defaults[r]).Some?
    requires MapExtends(before, after) && forall r :: r in after <==> r in before || r in first
    requires forall r | r in first && r !in before :: parse(defaults[r]).Some? && after[r] == parse(defaults[r]).value
    ensures FillInOrder(parse, defaults, first + rest, before) == FillInOrder(parse, defaults, rest, after)
  {
    if first == [] {
      assert first + rest == rest;
      MutualMapExtension(before, after);
    } else {
      assert (first + rest)[1..] == first[1..] + rest;
      var r := first[0];
      assert r in first + rest;
      var next := if r in before then before else before[r := parse(defaults[r]).value];
      assert forall q | q in first[1..] :: q in first;
      assert forall q | q in first :: q == r || q in first[1..];
      OrderedFillAdds(parse, defaults, first[1..], rest, next, after);
    }
  }

  /** When a missing default does not parse, each partial filling is the outcome of some iteration order. */
  lemma EveryPartialFillingHappens(parse: QuantityParser, defaults: map<string, string>, before: map<string, Quantity>,
        after: map<string, Quantity>)
    returns (order: seq<string>)
    requires !Fillable(parse, defaults, before) && PartlyFilled(parse, defaults, before, after)
    ensures IterationOrder(order, defaults)
    ensures FillInOrder(parse, defaults, order, before) == (after, false)
  {
    var added := after.Keys - before.Keys;
    var bad :| bad in defaults && bad !in before && parse(defaults[bad]).None?;
    forall r | r in added
      ensures r in defaults && parse(defaults[r]).Some? && after[r] == parse(defaults[r]).value
    {
      assert r in Filled(parse, defaults, before);
    }
    var first := SetAsSequence(added);
    var others := SetAsSequence(defaults.Keys - added - {bad});
    var rest := [bad] + others;
    order := first + rest;
    assert bad !in after;
    DistinctConcatenation([bad], others);
    DistinctConcatenation(first, rest);
    OrderedFillAdds(parse, defaults, first, rest, before, after);
  }

  // ---------- containers ----------

  predicate ContainerFails(parse: QuantityParser, spec: WorkloadPolicySpec, c: Container) {
    !Fillable(parse, spec.defaultRequests, c.requests) || !Fillable(parse, spec.defaultLimits, c.limits)
  }

  function ContainerFilled(parse: QuantityParser, spec: WorkloadPolicySpec, c: Container): Container {
    c.(requests := Filled(parse, spec.defaultRequests, c.requests),
       limits := Filled(parse, spec.defaultLimits, c.limits))
  }

  /** What a failing container may look like afterwards: requests come first, limits only once requests are
      complete. */
  ghost predicate ContainerPartlyFilled(parse: QuantityParser, spec: WorkloadPolicySpec, c: Container, c': Container) {
    if !Fillable(parse, spec.defaultRequests, c.requests) then
      c' == c.(requests := c'.requests) && PartlyFilled(parse, spec.defaultRequests, c.requests, c'.requests)
    else
      && c' == c.(requests := Filled(parse, spec.defaultRequests, c.requests), limits := c'.limits)
      && PartlyFilled(parse, spec.defaultLimits, c.limits, c'.limits)
  }

  /** The failing container when the iteration meets the malformed quantity first. */
  function FailedContainer(parse: QuantityParser, spec: WorkloadPolicySpec, c: Container): Container {
    if Fillable(parse, spec.defaultRequests, c.requests)
    then c.(requests := Filled(parse, spec.defaultRequests, c.requests))
    else c
  }

  lemma FailedContainerIsPossible(parse: QuantityParser, spec: WorkloadPolicySpec, c: Container)
    ensures ContainerPartlyFilled(parse, spec, c, FailedContainer(parse, spec, c))
  {
  }

  /** The first container on which the policy fails; the number of containers if there is none. */
  function FirstFailing(parse: QuantityParser, spec: WorkloadPolicySpec, cs: seq<Container>): (n: nat)
    ensures n <= |cs|
    ensures forall i | 0 <= i < n :: !ContainerFails(parse, spec, cs[i])
    ensures n < |cs| ==> ContainerFails(parse, spec, cs[n])
  {
    if cs == [] || ContainerFails(parse, spec, cs[0]) then 0 else 1 + FirstFailing(parse, spec, cs[1..])
  }

  /** All outcomes of applyPolicyResources on a list of containers: complete up to the first failing one, partial
      there, untouched after it. */
  ghost predicate ResourcesOutcome(parse: QuantityParser, spec: WorkloadPolicySpec, before: seq<Container>,
        after: seq<Container>) {
    var n := FirstFailing(parse, spec, before);
    && |after| == |before|
    && (forall i | 0 <= i < n :: after[i] == ContainerFilled(parse, spec, before[i]))
    && (n < |before| ==> ContainerPartlyFilled(parse, spec, before[n], after[n]))
    && (forall i | n < i < |before| :: after[i] == before[i])
  }

  predicate PolicyFails(parse: QuantityParser, spec: WorkloadPolicySpec, cs: seq<Container>) {
    FirstFailing(parse, spec, cs) < |cs|
  }

  /** The body of the container loop: requests, then limits, each written back even when a quantity does not parse. */
  method ApplyToContainer(parse: QuantityParser, pod: Pod, i: nat, policy: WorkloadPolicy)
    returns (mutated: bool, ok: bool)
    requires i < |pod.containers|
    modifies pod`containers
    ensures |pod.containers| == |old(pod.containers)|
    ensures pod.containers == old(pod.containers)[i := pod.containers[i]]
    ensures ok <==> !ContainerFails(parse, policy.spec, old(pod.containers[i]))
    ensures ok ==> pod.containers[i] == ContainerFilled(parse, policy.spec, old(pod.containers[i]))
    ensures !ok ==> ContainerPartlyFilled(parse, policy.spec, old(pod.containers[i]), pod.containers[i])
    ensures ok ==> (mutated <==> pod.containers[i] != old(pod.containers[i]))
  {
    var requests, requestsMutated, requestsOk := FillMissing(parse, policy.spec.defaultRequests,
          pod.containers[i].requests);
    pod.containers := pod.containers[i := pod.containers[i].(requests := requests)];
    if !requestsOk {
      return false, false;
    }
    var limits, limitsMutated, limitsOk := FillMissing(parse, policy.spec.defaultLimits, pod.containers[i].limits);
    pod.containers := pod.containers[i := pod.containers[i].(limits := limits)];
    if !limitsOk {
      return false, false;
    }
    return requestsMutated || limitsMutated, true;
  }

  /** applyPolicyResources. On failure it reports "not mutated", whatever it has written. */
  method ApplyPolicyResources(parse: QuantityParser, pod: Pod, policy: WorkloadPolicy) returns (mutated: bool, ok: bool)
    modifies pod`containers
    ensures ok <==> !PolicyFails(parse, policy.spec, old(pod.containers))
    ensures ResourcesOutcome(parse, policy.spec, old(pod.containers), pod.containers)
    ensures mutated <==> ok && pod.containers != old(pod.containers)
  {
    ghost var before := pod.containers;
    ghost var n := FirstFailing(parse, policy.spec, before);
    mutated := false;
    for i := 0 to |pod.containers|
      invariant |pod.containers| == |before|
      invariant i <= n
      invariant forall j | 0 <= j < i :: pod.containers[j] == ContainerFilled(parse, policy.spec, before[j])
      invariant forall j | i <= j < |before| :: pod.containers[j] == before[j]
      invariant mutated <==> pod.containers != before
    {
      var containerMutated, containerOk := ApplyToContainer(parse, pod, i, policy);
      if !containerOk {
        assert i == n;
        return false, false;
      }
      if containerMutated {
        mutated := true;
        assert pod.containers[i] != before[i];
      }
    }
    ok := true;
  }

  lemma ResourcesOutcomeExtends(parse: QuantityParser, spec: WorkloadPolicySpec, before: seq<Container>,
        after: seq<Container>)
    requires ResourcesOutcome(parse, spec, before, after)
    ensures |after| == |before| && forall i | 0 <= i < |before| :: ContainerExtends(before[i], after[i])
  {
  }

  /** A policy never reaches the error branch, whatever the pod, exactly when all its quantities parse. */
  lemma NeverFailsExactlyWhenQuantitiesParse(parse: QuantityParser, spec: WorkloadPolicySpec)
    ensures (forall cs :: !PolicyFails(parse, spec, cs))
            <==> QuantitiesParse(parse, spec)
  {
    var bare := Container("", [], map[], map[], None);
    if ContainerFails(parse, spec, bare) {
      assert PolicyFails(parse, spec, [bare]);
    }
  }
}
