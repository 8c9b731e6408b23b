/** What every pass over the deployments keeps, and when it reaches its goal. */
module HpaTheorems {
  import opened Common
  import opened Types
  import opened Hpa
  import opened HpaPass

  // ---------- one step ----------

  /** The slot a step leaves is the old one or the target; it is the target when the step succeeds; an undisturbed
      step settles its deployment and would change nothing the second time. */
  lemma StepReachesTarget(policy: WorkloadPolicy, d: Deployment, slot: Option<HPA>, faults: StepFaults)
    ensures var (after, outcome) := StepOnSlot(policy, d, slot, faults);
            && (after == slot || after == Target(policy, d, slot))
            && (outcome.Done? ==> after == Target(policy, d, slot) && Settled(policy, d, after))
    ensures Target(policy, d, Target(policy, d, slot)) == Target(policy, d, slot)
  {
  }

  /** A slot holding a foreign autoscaler is left alone; any other slot never comes to hold one. */
  lemma StepRespectsForeignSlot(policy: WorkloadPolicy, d: Deployment, slot: Option<HPA>, faults: StepFaults)
    ensures var after := StepOnSlot(policy, d, slot, faults).0;
            if slot.Some? && !IsManaged(slot.value) then after == slot
            else after.Some? ==> IsManaged(after.value)
  {
  }

  lemma StoreKeepsForeign(hpas: HpaMap, k: Key, slot: Option<HPA>)
    requires if k in hpas && !IsManaged(hpas[k]) then slot == Some(hpas[k]) else slot.Some? ==> IsManaged(slot.value)
    ensures Foreign(Store(hpas, k, slot)) == Foreign(hpas)
  {
  }

  /** Foreign autoscalers survive every pass untouched, none is deleted or adopted, and no managed one is disowned:
      for any list (colliding names included), any faults, and also when the pass stops midway. */
  lemma {:induction false} OwnershipIsSafe(policy: WorkloadPolicy, deployments: seq<Deployment>,
        faults: seq<StepFaults>, hpas: HpaMap, n: nat)
    requires n <= |deployments| == |faults|
    ensures Foreign(PassUpTo(policy, deployments, faults, hpas, n).hpas) == Foreign(hpas)
  {
    if n > 0 {
      OwnershipIsSafe(policy, deployments, faults, hpas, n - 1);
      var before := PassUpTo(policy, deployments, faults, hpas, n - 1);
      if before.outcome.Done? {
        var k := HpaKey(deployments[n - 1]);
        StepRespectsForeignSlot(policy, deployments[n - 1], Lookup(before.hpas, k), faults[n - 1]);
        StoreKeepsForeign(before.hpas, k, StepOnSlot(policy, deployments[n - 1], Lookup(before.hpas, k),
              faults[n - 1]).0);
      }
    }
  }

  lemma ForeignAgree(a: HpaMap, b: HpaMap, k: Key)
    requires Foreign(a) == Foreign(b)
    ensures (k in a && !IsManaged(a[k])) <==> (k in b && !IsManaged(b[k]))
  {
    assert k in Foreign(a) <==> k in Foreign(b);
  }

  lemma StepSucceedsExactlyWhen(policy: WorkloadPolicy, d: Deployment, hpas: HpaMap, faults: StepFaults)
    ensures Step(policy, d, hpas, faults).outcome.Done? ==> Acceptable(policy, d, hpas)
    ensures Step(policy, d, hpas, NO_FAULTS).outcome.Done? <==> Acceptable(policy, d, hpas)
  {
  }

  lemma AcceptableWhileForeignKept(policy: WorkloadPolicy, d: Deployment, a: HpaMap, b: HpaMap)
    requires Foreign(a) == Foreign(b)
    ensures Acceptable(policy, d, a) <==> Acceptable(policy, d, b)
  {
    ForeignAgree(a, b, HpaKey(d));
  }

  /** With a working API a pass succeeds exactly when every deployment is acceptable at the start; the order of the
      list, colliding names and the writes of the pass itself play no part. */
  lemma {:induction false} PassSucceedsExactlyWhen(policy: WorkloadPolicy, deployments: seq<Deployment>,
        faults: seq<StepFaults>, hpas: HpaMap, n: nat)
    requires n <= |deployments| == |faults| && FaultFree(faults)
    ensures PassUpTo(policy, deployments, faults, hpas, n).outcome.Done?
            <==> forall i | 0 <= i < n :: Acceptable(policy, deployments[i], hpas)
  {
    hide StepOnSlot;
    if n > 0 {
      PassSucceedsExactlyWhen(policy, deployments, faults, hpas, n - 1);
      OwnershipIsSafe(policy, deployments, faults, hpas, n - 1);
      AcceptableWhileForeignKept(policy, deployments[n - 1], PassUpTo(policy, deployments, faults, hpas, n - 1).hpas,
            hpas);
      StepSucceedsExactlyWhen(policy, deployments[n - 1], PassUpTo(policy, deployments, faults, hpas, n - 1).hpas,
            faults[n - 1]);
    }
  }

  lemma FailedStepWritesAtMostItsTarget(policy: WorkloadPolicy, d: Deployment, hpas: HpaMap, faults: StepFaults)
    ensures var r := Step(policy, d, hpas, faults);
            && (r.hpas == hpas || r.hpas == Step(policy, d, hpas, NO_FAULTS).hpas)
            && (r.outcome.Failed? && r.outcome.error != WriteFailed ==> r.hpas == hpas)
  {
    StoreOwnLookup(hpas, HpaKey(d));
    StepReachesTarget(policy, d, Lookup(hpas, HpaKey(d)), faults);
  }

  lemma {:induction false} PassOfPrefix(policy: WorkloadPolicy, deployments: seq<Deployment>, faults: seq<StepFaults>,
        hpas: HpaMap, i: nat, n: nat)
    requires n <= i <= |deployments| == |faults|
    ensures PassUpTo(policy, deployments[..i], faults[..i], hpas, n) == PassUpTo(policy, deployments, faults, hpas, n)
  {
    hide StepOnSlot;
    if n > 0 {
      PassOfPrefix(policy, deployments, faults, hpas, i, n - 1);
    }
  }

  /** A pass that aborts other than on a write leaves exactly what a successful pass over the deployments before the
      failing one leaves; an aborted write adds at most that one write. */
  lemma {:induction false} AbortCommitsPrefix(policy: WorkloadPolicy, deployments: seq<Deployment>,
        faults: seq<StepFaults>, hpas: HpaMap, n: nat)
    returns (i: nat)
    requires n <= |deployments| == |faults|
    requires PassUpTo(policy, deployments, faults, hpas, n).outcome.Failed?
    ensures i < n
    ensures PassUpTo(policy, deployments, faults, hpas, i).outcome.Done?
    ensures var (stopped, done) := (PassUpTo(policy, deployments, faults, hpas, n), PassUpTo(policy, deployments,
          faults, hpas, i));
            && PassUpTo(policy, deployments[..i], faults[..i], hpas, i) == done
            && (stopped.outcome.error != WriteFailed ==> stopped.hpas == done.hpas)
            && (stopped.hpas == done.hpas || stopped.hpas == Step(policy, deployments[i], done.hpas, NO_FAULTS).hpas)
  {
    if PassUpTo(policy, deployments, faults, hpas, n - 1).outcome.Failed? {
      i := AbortCommitsPrefix(policy, deployments, faults, hpas, n - 1);
    } else {
      i := n - 1;
      PassOfPrefix(policy, deployments, faults, hpas, i, i);
      FailedStepWritesAtMostItsTarget(policy, deployments[i], PassUpTo(policy, deployments, faults, hpas, i).hpas,
            faults[i]);
    }
  }

  // ---------- where a pass leads ----------

  ghost predicate Unmoved(d: Deployment, before: HpaMap, after: HpaMap) {
    Lookup(after, HpaKey(d)) == Lookup(before, HpaKey(d))
  }

  ghost predicate Moved(policy: WorkloadPolicy, d: Deployment, before: HpaMap, after: HpaMap) {
    Lookup(after, HpaKey(d)) == Target(policy, d, Lookup(before, HpaKey(d)))
  }

  ghost predicate Concerns(deployments: seq<Deployment>, k: Key) {
    exists d :: d in deployments && HpaKey(d) == k
  }

  ghost predicate OthersKept(deployments: seq<Deployment>, before: HpaMap, after: HpaMap) {
    forall k | !Concerns(deployments, k) :: Lookup(after, k) == Lookup(before, k)
  }

  /** The slots after a pass: each deployment's slot is as before or at its target, every other key is as before. */
  ghost predicate OnTheWay(policy: WorkloadPolicy, deployments: seq<Deployment>, before: HpaMap, after: HpaMap) {
    && (forall d | d in deployments :: Unmoved(d, before, after) || Moved(policy, d, before, after))
    && OthersKept(deployments, before, after)
  }

  /** All the way: this determines the map `after`. */
  ghost predicate Arrived(policy: WorkloadPolicy, deployments: seq<Deployment>, before: HpaMap, after: HpaMap) {
    && (forall d | d in deployments :: Moved(policy, d, before, after))
    && OthersKept(deployments, before, after)
  }

  lemma ClashingTargetsAgree(policy: WorkloadPolicy, deployments: seq<Deployment>, d: Deployment, e: Deployment,
        slot: Option<HPA>)
    requires NoClash(policy, deployments) && d in deployments && e in deployments
    requires HpaKey(d) == HpaKey(e)
    ensures Target(policy, d, slot) == Target(policy, e, slot)
  {
  }

  lemma StepTouchesOneSlot(policy: WorkloadPolicy, e: Deployment, hpas: HpaMap, faults: StepFaults)
    ensures var r := Step(policy, e, hpas, faults);
            && Lookup(r.hpas, HpaKey(e)) == StepOnSlot(policy, e, Lookup(hpas, HpaKey(e)), faults).0
            && forall k | k != HpaKey(e) :: Lookup(r.hpas, k) == Lookup(hpas, k)
  {
  }

  lemma StepMovesItsSlot(policy: WorkloadPolicy, e: Deployment, faults: StepFaults, start: HpaMap, hpas: HpaMap)
    requires Unmoved(e, start, hpas) || Moved(policy, e, start, hpas)
    ensures var r := Step(policy, e, hpas, faults);
            && (Unmoved(e, start, r.hpas) || Moved(policy, e, start, r.hpas))
            && (r.outcome.Done? || Moved(policy, e, start, hpas) ==> Moved(policy, e, start, r.hpas))
  {
    StepTouchesOneSlot(policy, e, hpas, faults);
    StepReachesTarget(policy, e, Lookup(hpas, HpaKey(e)), faults);
    StepReachesTarget(policy, e, Lookup(start, HpaKey(e)), faults);
  }

  lemma StepLeads(policy: WorkloadPolicy, deployments: seq<Deployment>, faults: StepFaults, start: HpaMap, hpas: HpaMap,
        e: Deployment)
    requires NoClash(policy, deployments) && e in deployments
    requires OnTheWay(policy, deployments, start, hpas)
    ensures var r := Step(policy, e, hpas, faults);
            && OnTheWay(policy, deployments, start, r.hpas)
            && (forall d | d in deployments && Moved(policy, d, start, hpas) :: Moved(policy, d, start, r.hpas))
            && (r.outcome.Done? ==> Moved(policy, e, start, r.hpas))
  {
    var r := Step(policy, e, hpas, faults);
    StepTouchesOneSlot(policy, e, hpas, faults);
    StepMovesItsSlot(policy, e, faults, start, hpas);
    forall d | d in deployments
      ensures Unmoved(d, start, r.hpas) || Moved(policy, d, start, r.hpas)
      ensures Moved(policy, d, start, hpas) ==> Moved(policy, d, start, r.hpas)
    {
      if HpaKey(d) == HpaKey(e) {
        ClashingTargetsAgree(policy, deployments, d, e, Lookup(start, HpaKey(e)));
      }
    }
  }

  /** Whatever the faults, a pass moves each slot to its target or not at all, and no other key; a pass that reports
      success has moved all of them. */
  lemma {:induction false} PassLeads(policy: WorkloadPolicy, deployments: seq<Deployment>, faults: seq<StepFaults>,
        hpas: HpaMap, n: nat)
    requires n <= |deployments| == |faults|
    requires NoClash(policy, deployments)
    ensures var r := PassUpTo(policy, deployments, faults, hpas, n);
            && OnTheWay(policy, deployments, hpas, r.hpas)
            && (r.outcome.Done? ==> forall i | 0 <= i < n :: Moved(policy, deployments[i], hpas, r.hpas))
  {
    hide StepOnSlot;
    if n > 0 {
      PassLeads(policy, deployments, faults, hpas, n - 1);
      var before := PassUpTo(policy, deployments, faults, hpas, n - 1);
      if before.outcome.Done? {
        StepLeads(policy, deployments, faults[n - 1], hpas, before.hpas, deployments[n - 1]);
      }
    }
  }

  /** Even with clashes, a pass touches no key but those of its deployments. */
  lemma {:induction false} PassKeepsOtherKeys(policy: WorkloadPolicy, deployments: seq<Deployment>,
        faults: seq<StepFaults>, hpas: HpaMap, n: nat)
    requires n <= |deployments| == |faults|
    ensures OthersKept(deployments, hpas, PassUpTo(policy, deployments, faults, hpas, n).hpas)
  {
    hide StepOnSlot;
    if n > 0 {
      PassKeepsOtherKeys(policy, deployments, faults, hpas, n - 1);
      var before := PassUpTo(policy, deployments, faults, hpas, n - 1);
      StepTouchesOneSlot(policy, deployments[n - 1], before.hpas, faults[n - 1]);
      assert Concerns(deployments, HpaKey(deployments[n - 1]));
    }
  }

  lemma ArrivalIsUnique(policy: WorkloadPolicy, ds: seq<Deployment>, es: seq<Deployment>, before: HpaMap, a: HpaMap,
        b: HpaMap)
    requires SameDeployments(ds, es)
    requires Arrived(policy, ds, before, a) && Arrived(policy, es, before, b)
    ensures a == b
  {
    forall k
      ensures Lookup(a, k) == Lookup(b, k)
    {
      if Concerns(ds, k) {
        var d :| d in ds && HpaKey(d) == k;
        assert Moved(policy, d, before, a) && Moved(policy, d, before, b);
      } else {
        assert !Concerns(es, k);
      }
    }
    forall k
      ensures k in a <==> k in b
      ensures k in a ==> a[k] == b[k]
    {
      assert Lookup(a, k) == Lookup(b, k);
    }
  }

  /** A pass that reports success has arrived. */
  lemma SuccessArrives(policy: WorkloadPolicy, deployments: seq<Deployment>, faults: seq<StepFaults>, hpas: HpaMap)
    requires |deployments| == |faults| && NoClash(policy, deployments)
    requires Pass(policy, deployments, faults, hpas).outcome.Done?
    ensures Arrived(policy, deployments, hpas, Pass(policy, deployments, faults, hpas).hpas)
  {
    PassLeads(policy, deployments, faults, hpas, |deployments|);
  }

  lemma {:induction false} SuccessMeansAcceptable(policy: WorkloadPolicy, deployments: seq<Deployment>,
        faults: seq<StepFaults>, hpas: HpaMap, n: nat)
    requires n <= |deployments| == |faults|
    requires PassUpTo(policy, deployments, faults, hpas, n).outcome.Done?
    ensures forall i | 0 <= i < n :: Acceptable(policy, deployments[i], hpas)
  {
    hide StepOnSlot;
    if n > 0 {
      SuccessMeansAcceptable(policy, deployments, faults, hpas, n - 1);
      OwnershipIsSafe(policy, deployments, faults, hpas, n - 1);
      AcceptableWhileForeignKept(policy, deployments[n - 1], PassUpTo(policy, deployments, faults, hpas, n - 1).hpas,
            hpas);
      StepSucceedsExactlyWhen(policy, deployments[n - 1], PassUpTo(policy, deployments, faults, hpas, n - 1).hpas,
            faults[n - 1]);
    }
  }

  lemma NoConflictOnSuccess(policy: WorkloadPolicy, deployments: seq<Deployment>, faults: seq<StepFaults>, hpas: HpaMap,
        n: nat, d: Deployment)
    requires n == |deployments| == |faults| && d in deployments
    requires PassUpTo(policy, deployments, faults, hpas, n).outcome.Done?
    ensures StepOnSlot(policy, d, Lookup(hpas, HpaKey(d)), NO_FAULTS).1 == Done
  {
    SuccessMeansAcceptable(policy, deployments, faults, hpas, n);
    var i :| 0 <= i < n && deployments[i] == d;
    assert Acceptable(policy, deployments[i], hpas);
  }

  lemma SuccessSettles(policy: WorkloadPolicy, deployments: seq<Deployment>, faults: seq<StepFaults>, hpas: HpaMap)
    requires |deployments| == |faults| && NoClash(policy, deployments)
    requires Pass(policy, deployments, faults, hpas).outcome.Done?
    ensures Converged(policy, deployments, Pass(policy, deployments, faults, hpas).hpas)
  {
    SuccessArrives(policy, deployments, faults, hpas);
    var after := Pass(policy, deployments, faults, hpas).hpas;
    forall d | d in deployments
      ensures Settled(policy, d, Lookup(after, HpaKey(d)))
    {
      assert Moved(policy, d, hpas, after);
      NoConflictOnSuccess(policy, deployments, faults, hpas, |deployments|, d);
      StepReachesTarget(policy, d, Lookup(hpas, HpaKey(d)), NO_FAULTS);
    }
  }

  /** No autoscaler settles two clashing deployments at once. */
  lemma ClashCannotSettle(policy: WorkloadPolicy, d: Deployment, e: Deployment, slot: Option<HPA>)
    requires d.key != e.key && HpaKey(d) == HpaKey(e)
    requires AnnotationParses(policy, d) && AnnotationParses(policy, e)
    requires !(Unwanted(policy, d) && Unwanted(policy, e))
    ensures !(Settled(policy, d, slot) && Settled(policy, e, slot))
  {
  }

  /** When a pass is wanted to converge on every start: for deployments with distinct keys whose annotations parse,
      every successful pass from every start (faults or not) leaves every deployment settled if and only if no two
      deployments clash over a managed name. */
  lemma ConvergesExactlyWhenNoClash(policy: WorkloadPolicy, deployments: seq<Deployment>)
    requires DistinctKeys(deployments)
    requires forall d | d in deployments :: AnnotationParses(policy, d)
    ensures (forall hpas: HpaMap, faults: seq<StepFaults> |
               |faults| == |deployments| && Pass(policy, deployments, faults, hpas).outcome.Done? ::
               Converged(policy, deployments, Pass(policy, deployments, faults, hpas).hpas))
            <==> NoClash(policy, deployments)
  {
    if NoClash(policy, deployments) {
      forall hpas: HpaMap, faults: seq<StepFaults> |
        |faults| == |deployments| && Pass(policy, deployments, faults, hpas).outcome.Done?
        ensures Converged(policy, deployments, Pass(policy, deployments, faults, hpas).hpas)
      {
        SuccessSettles(policy, deployments, faults, hpas);
      }
    } else {
      var d, e :| d in deployments && e in deployments && d != e && HpaKey(d) == HpaKey(e)
                  && !(Unwanted(policy, d) && Unwanted(policy, e));
      var faults := seq(|deployments|, _ => NO_FAULTS);
      PassSucceedsExactlyWhen(policy, deployments, faults, map[], |deployments|);
      var after := Pass(policy, deployments, faults, map[]).hpas;
      assert d.key != e.key;
      ClashCannotSettle(policy, d, e, Lookup(after, HpaKey(d)));
    }
  }

  lemma CleanPassSucceedsExactlyWhen(policy: WorkloadPolicy, deployments: seq<Deployment>, hpas: HpaMap)
    ensures CleanPass(policy, deployments, hpas).outcome.Done?
          <==> forall d | d in deployments :: Acceptable(policy, d, hpas)
  {
    PassSucceedsExactlyWhen(policy, deployments, seq(|deployments|, _ => NO_FAULTS), hpas, |deployments|);
  }

  /** The bound is sharp: two deployments whose names differ only in the 56th character share a managed name, and when
      both want an autoscaler a pass reports success and leaves one of them unsettled. */
  lemma LongNamesClash(policy: WorkloadPolicy, namespace: string, base: string)
    requires |base| == MAX_BASE && Effective(policy.spec.horizontalScaling).enabledByDefault
    ensures var d := Deployment(Key(namespace, base + "x"), map[]);
            var e := Deployment(Key(namespace, base + "y"), map[]);
            && HpaKey(d) == HpaKey(e)
            && CleanPass(policy, [d, e], map[]).outcome.Done?
            && !Converged(policy, [d, e], CleanPass(policy, [d, e], map[]).hpas)
  {
    var d := Deployment(Key(namespace, base + "x"), map[]);
    var e := Deployment(Key(namespace, base + "y"), map[]);
    assert (base + "x")[..MAX_BASE] == base == (base + "y")[..MAX_BASE];
    assert d.key.name[MAX_BASE] != e.key.name[MAX_BASE];
    CleanPassSucceedsExactlyWhen(policy, [d, e], map[]);
    var after := CleanPass(policy, [d, e], map[]).hpas;
    ClashCannotSettle(policy, d, e, Lookup(after, HpaKey(d)));
    assert d in [d, e] && e in [d, e];
  }

  /** Names of at most 55 characters never clash within a namespace. */
  lemma ShortNamesDoNotClash(policy: WorkloadPolicy, deployments: seq<Deployment>)
    requires DistinctKeys(deployments)
    requires forall d | d in deployments :: |d.key.name| <= MAX_BASE
    ensures NoClash(policy, deployments)
  {
    forall d, e | d in deployments && e in deployments && d != e
      ensures HpaKey(d) != HpaKey(e)
    {
      ManagedNameCollision(d.key.name, e.key.name);
      assert d.key != e.key;
      if |d.key.name| == MAX_BASE {
        assert d.key.name[..MAX_BASE] == d.key.name;
      }
      if |e.key.name| == MAX_BASE {
        assert e.key.name[..MAX_BASE] == e.key.name;
      }
    }
  }

  /** The two orders of the list agree on whether a clean pass succeeds and, if it does, on the map it leaves. */
  ghost predicate SamePass(policy: WorkloadPolicy, ds: seq<Deployment>, es: seq<Deployment>, hpas: HpaMap) {
    && (CleanPass(policy, ds, hpas).outcome.Done? <==> CleanPass(policy, es, hpas).outcome.Done?)
    && (CleanPass(policy, ds, hpas).outcome.Done? ==>
          CleanPass(policy, ds, hpas).hpas == CleanPass(policy, es, hpas).hpas)
  }

  lemma OrderIsIrrelevantWithoutClash(policy: WorkloadPolicy, ds: seq<Deployment>, es: seq<Deployment>, hpas: HpaMap)
    requires SameDeployments(ds, es) && NoClash(policy, ds)
    ensures SamePass(policy, ds, es, hpas)
  {
    hide StepOnSlot, PassUpTo;
    CleanPassSucceedsExactlyWhen(policy, ds, hpas);
    CleanPassSucceedsExactlyWhen(policy, es, hpas);
    if CleanPass(policy, ds, hpas).outcome.Done? {
      SuccessArrives(policy, ds, seq(|ds|, _ => NO_FAULTS), hpas);
      SuccessArrives(policy, es, seq(|es|, _ => NO_FAULTS), hpas);
      ArrivalIsUnique(policy, ds, es, hpas, CleanPass(policy, ds, hpas).hpas, CleanPass(policy, es, hpas).hpas);
    }
  }

  /** The list with one deployment put last. */
  function WithLast(ds: seq<Deployment>, i: nat): seq<Deployment>
    requires i < |ds|
  {
    ds[..i] + ds[i + 1..] + [ds[i]]
  }

  /** From an empty map a pass over deployments whose annotations parse succeeds and settles the last one. */
  lemma LastIsSettled(policy: WorkloadPolicy, ds: seq<Deployment>, i: nat)
    requires i < |ds| && forall d | d in ds :: AnnotationParses(policy, d)
    ensures multiset(WithLast(ds, i)) == multiset(ds)
    ensures var r := CleanPass(policy, WithLast(ds, i), map[]);
            r.outcome.Done? && Settled(policy, ds[i], Lookup(r.hpas, HpaKey(ds[i])))
  {
    hide StepOnSlot, Settled;
    var es := WithLast(ds, i);
    assert ds == ds[..i] + [ds[i]] + ds[i + 1..];
    CleanPassSucceedsExactlyWhen(policy, es, map[]);
    var faults := seq(|es|, _ => NO_FAULTS);
    var before := PassUpTo(policy, es, faults, map[], |es| - 1);
    StepTouchesOneSlot(policy, ds[i], before.hpas, NO_FAULTS);
    StepReachesTarget(policy, ds[i], Lookup(before.hpas, HpaKey(ds[i])), NO_FAULTS);
  }

  lemma SameListed(ds: seq<Deployment>, es: seq<Deployment>)
    requires multiset(ds) == multiset(es)
    ensures SameDeployments(ds, es)
  {
    forall d
      ensures d in ds <==> d in es
    {
      assert d in ds <==> d in multiset(ds);
      assert d in es <==> d in multiset(es);
    }
  }

  lemma DifferentMapsDifferFromOne(policy: WorkloadPolicy, ds: seq<Deployment>, es: seq<Deployment>,
        fs: seq<Deployment>)
    requires CleanPass(policy, es, map[]).outcome.Done? && CleanPass(policy, fs, map[]).outcome.Done?
    requires CleanPass(policy, es, map[]).hpas != CleanPass(policy, fs, map[]).hpas
    ensures !SamePass(policy, ds, es, map[]) || !SamePass(policy, ds, fs, map[])
  {
    hide CleanPass;
  }

  /** For deployments with distinct keys whose annotations parse, the order of the list is irrelevant, from every
      start, if and only if no two of them clash. */
  lemma ListOrderIsIrrelevantExactlyWhenNoClash(policy: WorkloadPolicy, ds: seq<Deployment>)
    requires DistinctKeys(ds) && forall d | d in ds :: AnnotationParses(policy, d)
    ensures (forall es, hpas | multiset(es) == multiset(ds) :: SamePass(policy, ds, es, hpas)) <==> NoClash(policy, ds)
  {
    hide SamePass, CleanPass, Settled;
    if NoClash(policy, ds) {
      forall es, hpas | multiset(es) == multiset(ds)
        ensures SamePass(policy, ds, es, hpas)
      {
        SameListed(ds, es);
        OrderIsIrrelevantWithoutClash(policy, ds, es, hpas);
      }
    } else {
      var d, e :| d in ds && e in ds && d != e && HpaKey(d) == HpaKey(e) && !(Unwanted(policy, d)
            && Unwanted(policy, e));
      var i :| 0 <= i < |ds| && ds[i] == d;
      var j :| 0 <= j < |ds| && ds[j] == e;
      LastIsSettled(policy, ds, i);
      LastIsSettled(policy, ds, j);
      ClashCannotSettle(policy, d, e, Lookup(CleanPass(policy, WithLast(ds, i), map[]).hpas, HpaKey(d)));
      DifferentMapsDifferFromOne(policy, ds, WithLast(ds, i), WithLast(ds, j));
    }
  }

  lemma ArrivalAbsorbs(policy: WorkloadPolicy, deployments: seq<Deployment>, start: HpaMap, middle: HpaMap, end: HpaMap)
    requires OnTheWay(policy, deployments, start, middle) && Arrived(policy, deployments, middle, end)
    ensures Arrived(policy, deployments, start, end)
  {
    forall d | d in deployments
      ensures Moved(policy, d, start, end)
    {
      assert Moved(policy, d, middle, end);
      StepReachesTarget(policy, d, Lookup(start, HpaKey(d)), NO_FAULTS);
    }
  }

  /** Crash recovery: from wherever a faulty pass (over any order of the list) left the autoscalers, one clean pass
      ends in the map a clean pass would have reached from the start. With no faults: a second pass changes
      nothing. */
  lemma CleanPassAbsorbsFaultyOne(policy: WorkloadPolicy, ds: seq<Deployment>, es: seq<Deployment>,
        faults: seq<StepFaults>, hpas: HpaMap)
    requires SameDeployments(ds, es) && NoClash(policy, ds)
    requires |es| == |faults|
    requires CleanPass(policy, ds, hpas).outcome.Done?
    ensures CleanPass(policy, ds, Pass(policy, es, faults, hpas).hpas) == CleanPass(policy, ds, hpas)
  {
    var middle := Pass(policy, es, faults, hpas).hpas;
    PassLeads(policy, es, faults, hpas, |es|);
    CleanPassSucceedsExactlyWhen(policy, ds, hpas);
    OwnershipIsSafe(policy, es, faults, hpas, |es|);
    forall d | d in ds
      ensures Acceptable(policy, d, middle)
    {
      AcceptableWhileForeignKept(policy, d, middle, hpas);
    }
    CleanPassSucceedsExactlyWhen(policy, ds, middle);
    SuccessArrives(policy, ds, seq(|ds|, _ => NO_FAULTS), middle);
    SuccessArrives(policy, ds, seq(|ds|, _ => NO_FAULTS), hpas);
    ArrivalAbsorbs(policy, ds, hpas, middle, CleanPass(policy, ds, middle).hpas);
    ArrivalIsUnique(policy, ds, ds, hpas, CleanPass(policy, ds, middle).hpas, CleanPass(policy, ds, hpas).hpas);
  }

  // ---------- what the operator writes ----------

  /** A spec the operator may have written under key k. */
  predicate WellFormed(k: Key, spec: HpaSpec) {
    && spec.scaleTargetRef.apiVersion == "apps/v1" && spec.scaleTargetRef.kind == "Deployment"
    && ManagedName(spec.scaleTargetRef.name) == k.name
    && spec.minReplicas.Some?
    && 1 <= spec.minReplicas.value <= spec.maxReplicas
    && |spec.metrics| == 1
    && spec.metrics[0].kind == "Resource"
    && spec.metrics[0].resource.Some?
    && spec.metrics[0].resource.value.name == "cpu"
    && spec.metrics[0].resource.value.target.kind == "Utilization"
    && spec.metrics[0].resource.value.target.averageUtilization.Some?
    && 1 <= spec.metrics[0].resource.value.target.averageUtilization.value <= 100
  }

  /** Every spec the operator wrote last is well formed. */
  ghost predicate OperatorSpecsWellFormed(hpas: HpaMap) {
    forall k | k in hpas && hpas[k].specManager == Operator :: WellFormed(k, hpas[k].spec)
  }

  lemma StepWritesWellFormedSpec(policy: WorkloadPolicy, d: Deployment, slot: Option<HPA>, faults: StepFaults)
    requires InBounds(Effective(policy.spec.horizontalScaling))
    ensures var after := StepOnSlot(policy, d, slot, faults).0;
            after == slot || after.None? || WellFormed(HpaKey(d), after.value.spec)
  {
  }

  lemma {:induction false} PassWritesWellFormedSpecs(policy: WorkloadPolicy, deployments: seq<Deployment>,
        faults: seq<StepFaults>, hpas: HpaMap, n: nat)
    requires n <= |deployments| == |faults|
    requires InBounds(Effective(policy.spec.horizontalScaling))
    requires OperatorSpecsWellFormed(hpas)
    ensures OperatorSpecsWellFormed(PassUpTo(policy, deployments, faults, hpas, n).hpas)
  {
    if n > 0 {
      PassWritesWellFormedSpecs(policy, deployments, faults, hpas, n - 1);
      var before := PassUpTo(policy, deployments, faults, hpas, n - 1);
      if before.outcome.Done? {
        StepWritesWellFormedSpec(policy, deployments[n - 1], Lookup(before.hpas, HpaKey(deployments[n - 1])),
              faults[n - 1]);
      }
    }
  }

  // ---------- whose autoscaler it is ----------

  /** An autoscaler the pass has written: managed, naming the policy, its spec the operator's, owned by the policy or
      by the owners it had. */
  predicate Stamped(policy: WorkloadPolicy, before: HpaMap, k: Key, hpa: HPA) {
    && IsManaged(hpa) && hpa.specManager == Operator
    && POLICY_ANNOTATION in hpa.annotations && hpa.annotations[POLICY_ANNOTATION] == policy.key.name
    && (hpa.ownerReferences == [OwnerOf(policy)] || (k in before && hpa.ownerReferences == before[k].ownerReferences))
  }

  ghost predicate WritesStamped(policy: WorkloadPolicy, before: HpaMap, after: HpaMap) {
    forall k | k in after :: Stamped(policy, before, k, after[k]) || (k in before && after[k] == before[k])
  }

  lemma StepStampsItsWrite(policy: WorkloadPolicy, d: Deployment, start: HpaMap, slot: Option<HPA>, faults: StepFaults)
    requires var k := HpaKey(d);
             slot.Some? ==> Stamped(policy, start, k, slot.value) || (k in start && slot.value == start[k])
    ensures var k := HpaKey(d);
            var after := StepOnSlot(policy, d, slot, faults).0;
            after.Some? ==> Stamped(policy, start, k, after.value) || (k in start && after.value == start[k])
  {
  }

  /** Every autoscaler a pass leaves behind is the old one or carries the stamp of the policy, whatever the faults. */
  lemma {:induction false} PassStampsItsWrites(policy: WorkloadPolicy, deployments: seq<Deployment>,
        faults: seq<StepFaults>, hpas: HpaMap, n: nat)
    requires n <= |deployments| == |faults|
    ensures WritesStamped(policy, hpas, PassUpTo(policy, deployments, faults, hpas, n).hpas)
  {
    hide StepOnSlot;
    if n > 0 {
      PassStampsItsWrites(policy, deployments, faults, hpas, n - 1);
      var before := PassUpTo(policy, deployments, faults, hpas, n - 1);
      var d := deployments[n - 1];
      StepTouchesOneSlot(policy, d, before.hpas, faults[n - 1]);
      StepStampsItsWrite(policy, d, hpas, Lookup(before.hpas, HpaKey(d)), faults[n - 1]);
      var after := Step(policy, d, before.hpas, faults[n - 1]).hpas;
      forall k | k in after
        ensures Stamped(policy, hpas, k, after[k]) || (k in hpas && after[k] == hpas[k])
      {
        assert Lookup(after, k) == Some(after[k]);
        if k != HpaKey(d) {
          assert Lookup(before.hpas, k) == Lookup(after, k);
        }
      }
    }
  }

  lemma TargetKeepsOwners(policy: WorkloadPolicy, d: Deployment, slot: Option<HPA>)
    ensures var target := Target(policy, d, slot);
            target.Some? ==>
              target.value.ownerReferences == if slot.Some? then slot.value.ownerReferences else [OwnerOf(policy)]
  {
  }

  /** Without clashes an autoscaler that was there before, updated or not, has the owners it had. */
  lemma PassKeepsOwners(policy: WorkloadPolicy, deployments: seq<Deployment>, faults: seq<StepFaults>, hpas: HpaMap,
        n: nat)
    requires n <= |deployments| == |faults| && NoClash(policy, deployments)
    ensures var after := PassUpTo(policy, deployments, faults, hpas, n).hpas;
            forall k | k in after ::
              after[k].ownerReferences == if k in hpas then hpas[k].ownerReferences else [OwnerOf(policy)]
  {
    hide StepOnSlot, PassUpTo, NoClash;
    PassLeads(policy, deployments, faults, hpas, n);
    var after := PassUpTo(policy, deployments, faults, hpas, n).hpas;
    forall k | k in after
      ensures after[k].ownerReferences == if k in hpas then hpas[k].ownerReferences else [OwnerOf(policy)]
    {
      assert Lookup(after, k) == Some(after[k]);
      if Concerns(deployments, k) {
        var d :| d in deployments && HpaKey(d) == k;
        TargetKeepsOwners(policy, d, Lookup(hpas, k));
        assert Unmoved(d, hpas, after) || Moved(policy, d, hpas, after);
      } else {
        assert Lookup(after, k) == Lookup(hpas, k);
      }
    }
  }
}
