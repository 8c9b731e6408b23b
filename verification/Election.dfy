/** Which policy of a namespace drives its autoscalers. */
module Election {
  import opened Common
  import opened Types

  predicate Contender(p: WorkloadPolicy) {
    p.spec.horizontalScaling.Some?
  }

  /** Higher priority first, then the smaller name. */
  predicate Beats(a: WorkloadPolicy, b: WorkloadPolicy) {
    a.spec.priority > b.spec.priority
    || (a.spec.priority == b.spec.priority && Less(a.key.name, b.key.name))
  }

  ghost predicate Unbeaten(policies: seq<WorkloadPolicy>, c: WorkloadPolicy) {
    c in policies && Contender(c) && forall q | q in policies && Contender(q) :: !Beats(q, c)
  }

  /** The answer of the election for one policy, stated without reference to the list's order. */
  ghost predicate IsHighest(policies: seq<WorkloadPolicy>, policy: WorkloadPolicy) {
    exists c :: Unbeaten(policies, c) && c.key.name == policy.key.name
  }

  ghost predicate DistinctNames(policies: seq<WorkloadPolicy>) {
    forall p, q | p in policies && q in policies && p.key.name == q.key.name :: p == q
  }

  lemma NotBeatenIsTransitive(a: WorkloadPolicy, b: WorkloadPolicy, c: WorkloadPolicy)
    requires !Beats(b, a) && !Beats(c, b)
    ensures !Beats(c, a)
  {
    LessIsTotal(a.key.name, b.key.name);
    LessIsTotal(b.key.name, c.key.name);
    if Less(a.key.name, b.key.name) && Less(b.key.name, c.key.name) {
      LessIsTransitive(a.key.name, b.key.name, c.key.name);
      LessIsAsymmetric(a.key.name, c.key.name);
    }
    if Less(c.key.name, a.key.name) && a.key.name != b.key.name && b.key.name != c.key.name {
      LessIsAsymmetric(c.key.name, a.key.name);
    }
    if Less(a.key.name, b.key.name) {
      LessIsAsymmetric(a.key.name, b.key.name);
    }
    if Less(b.key.name, c.key.name) {
      LessIsAsymmetric(b.key.name, c.key.name);
    }
  }

  lemma BeatsIsAsymmetric(a: WorkloadPolicy, b: WorkloadPolicy)
    ensures !(Beats(a, b) && Beats(b, a))
  {
    if Less(a.key.name, b.key.name) {
      LessIsAsymmetric(a.key.name, b.key.name);
    }
  }

  /** Two unbeaten policies have the same name and priority. */
  lemma UnbeatenAgree(policies: seq<WorkloadPolicy>, a: WorkloadPolicy, b: WorkloadPolicy)
    requires Unbeaten(policies, a) && Unbeaten(policies, b)
    ensures a.key.name == b.key.name
  {
    LessIsTotal(a.key.name, b.key.name);
  }

  lemma AllNotBeaten(policies: seq<WorkloadPolicy>, best: WorkloadPolicy, candidate: WorkloadPolicy)
    requires Unbeaten(policies, best) && Beats(candidate, best)
    ensures forall q | q in policies && Contender(q) :: !Beats(q, candidate)
  {
    BeatsIsAsymmetric(candidate, best);
    forall q | q in policies && Contender(q)
      ensures !Beats(q, candidate)
    {
      NotBeatenIsTransitive(candidate, best, q);
    }
  }

  /** isHighestPriorityPolicy, after the List call: one scan keeps the best contender so far. */
  method IsHighestPriorityPolicy(policies: seq<WorkloadPolicy>, policy: WorkloadPolicy) returns (r: bool)
    ensures r <==> IsHighest(policies, policy)
  {
    var highest: Option<WorkloadPolicy> := None;
    for i := 0 to |policies|
      invariant highest.None? ==> forall q | q in policies[..i] :: !Contender(q)
      invariant highest.Some? ==> Unbeaten(policies[..i], highest.value)
    {
      assert policies[..i + 1] == policies[..i] + [policies[i]];
      var candidate := policies[i];
      if candidate.spec.horizontalScaling.None? {
        continue;
      }
      BeatsIsAsymmetric(candidate, candidate);
      if highest.None? {
        highest := Some(candidate);
        continue;
      }
      if candidate.spec.priority > highest.value.spec.priority {
        AllNotBeaten(policies[..i], highest.value, candidate);
        highest := Some(candidate);
        continue;
      }
      if candidate.spec.priority == highest.value.spec.priority && Less(candidate.key.name, highest.value.key.name) {
        AllNotBeaten(policies[..i], highest.value, candidate);
        highest := Some(candidate);
      }
    }
    assert policies[..|policies|] == policies;
    if highest.None? {
      return false;
    }
    if IsHighest(policies, policy) {
      var c :| Unbeaten(policies, c) && c.key.name == policy.key.name;
      UnbeatenAgree(policies, c, highest.value);
    }
    return highest.value.key.name == policy.key.name;
  }

  lemma {:induction false} SomeUnbeaten(policies: seq<WorkloadPolicy>) returns (c: WorkloadPolicy)
    requires exists p :: p in policies && Contender(p)
    ensures Unbeaten(policies, c)
  {
    var n := |policies| - 1;
    var rest, last := policies[..n], policies[n];
    assert policies == rest + [last];
    BeatsIsAsymmetric(last, last);
    if exists p :: p in rest && Contender(p) {
      c := SomeUnbeaten(rest);
      if Contender(last) && Beats(last, c) {
        AllNotBeaten(rest, c, last);
        c := last;
      }
    } else {
      c := last;
    }
  }

  /** With distinct names, winning the election means beating every other contender. */
  lemma WinnerIsMaximum(policies: seq<WorkloadPolicy>, winner: WorkloadPolicy)
    requires DistinctNames(policies) && winner in policies
    ensures IsHighest(policies, winner)
            <==> Contender(winner) && forall q | q in policies && Contender(q) && q != winner :: Beats(winner, q)
  {
    BeatsIsAsymmetric(winner, winner);
    forall q | q in policies && Contender(q) && q != winner
      ensures Unbeaten(policies, winner) ==> Beats(winner, q)
      ensures Beats(winner, q) ==> !Beats(q, winner)
    {
      LessIsTotal(winner.key.name, q.key.name);
      BeatsIsAsymmetric(winner, q);
    }
    if Contender(winner) && forall q | q in policies && Contender(q) && q != winner :: Beats(winner, q) {
      assert Unbeaten(policies, winner);
    }
  }

  /** Among policies with distinct names, one wins exactly when it has a scaling block and every other policy that has
      one is of lower priority, or of the same priority and later in the order of a dictionary. */
  lemma WinnerInFields(policies: seq<WorkloadPolicy>, winner: WorkloadPolicy)
    requires DistinctNames(policies) && winner in policies
    ensures IsHighest(policies, winner) <==>
            && winner.spec.horizontalScaling.Some?
            && forall q | q in policies && q.spec.horizontalScaling.Some? && q != winner ::
                 || q.spec.priority < winner.spec.priority
                 || (q.spec.priority == winner.spec.priority && ComesFirst(winner.key.name, q.key.name))
  {
    hide Less, ComesFirst;
    WinnerIsMaximum(policies, winner);
    forall q | q in policies
      ensures Less(winner.key.name, q.key.name) <==> ComesFirst(winner.key.name, q.key.name)
    {
      LessExactlyWhenComesFirst(winner.key.name, q.key.name);
    }
  }

  /** For instance: of two contenders of equal priority named "a" and "b", "a" wins. */
  lemma TieGoesToTheSmallerName(a: WorkloadPolicy, b: WorkloadPolicy)
    requires a.key.name == "a" && b.key.name == "b" && a.spec.priority == b.spec.priority
    requires a.spec.horizontalScaling.Some? && b.spec.horizontalScaling.Some?
    ensures IsHighest([a, b], a) && !IsHighest([a, b], b)
  {
    assert a in [a, b] && b in [a, b];
    assert a.key.name[..0] == b.key.name[..0] && a.key.name[0] < b.key.name[0];
    assert b.key.name[0] > a.key.name[0] && !ComesFirst(b.key.name, a.key.name);
    WinnerInFields([a, b], a);
    WinnerInFields([a, b], b);
  }

  ghost predicate SoleWinner(policies: seq<WorkloadPolicy>, winner: WorkloadPolicy) {
    winner in policies && forall p | p in policies :: IsHighest(policies, p) <==> p == winner
  }

  /** With distinct names, exactly one policy of the namespace wins as soon as one of them scales at all. */
  lemma ExactlyOneWinner(policies: seq<WorkloadPolicy>)
    requires DistinctNames(policies)
    ensures (exists p :: p in policies && Contender(p)) <==> exists winner :: SoleWinner(policies, winner)
  {
    if exists p :: p in policies && Contender(p) {
      var winner := SomeUnbeaten(policies);
      forall p | p in policies && IsHighest(policies, p)
        ensures p == winner
      {
        var c :| Unbeaten(policies, c) && c.key.name == p.key.name;
        UnbeatenAgree(policies, c, winner);
      }
      assert SoleWinner(policies, winner);
    }
  }

  /** The election depends only on which contenders are listed: not on the order of the list, and not on policies
      without horizontal scaling. */
  lemma ElectionIgnoresOrderAndBystanders(ps: seq<WorkloadPolicy>, qs: seq<WorkloadPolicy>, policy: WorkloadPolicy)
    requires forall p | Contender(p) :: p in ps <==> p in qs
    ensures IsHighest(ps, policy) <==> IsHighest(qs, policy)
  {
    forall c
      ensures Unbeaten(ps, c) <==> Unbeaten(qs, c)
    {
    }
  }
}
