/** Status conditions and the helper that marks an object Available. */
module Status {
  import opened Common

  datatype ConditionStatus = True | False | Unknown

  /** metav1.Condition without its transition time. */
  datatype Condition = Condition(
    kind: string,
    status: ConditionStatus,
    reason: string,
    message: string,
    observedGeneration: int)

  function AvailableAt(generation: int): Condition {
    Condition("Available", True, "Reconciled", "WorkloadPolicy is available and being enforced", generation)
  }

  /** meta.FindStatusCondition */
  function FirstOfKind(conditions: seq<Condition>, kind: string): Option<Condition> {
    if conditions == [] then None
    else if conditions[0].kind == kind then Some(conditions[0])
    else FirstOfKind(conditions[1..], kind)
  }

  predicate Shows(conditions: seq<Condition>, c: Condition) {
    FirstOfKind(conditions, c.kind) == Some(c)
  }

  /** The conditions after setting c: it replaces the first condition of its kind or goes to the end. */
  function WithCondition(conditions: seq<Condition>, c: Condition): seq<Condition> {
    if conditions == [] then [c]
    else if conditions[0].kind == c.kind then [c] + conditions[1..]
    else [conditions[0]] + WithCondition(conditions[1..], c)
  }

  /** Position i holds the first condition of the kind. */
  ghost predicate IsFirst(conditions: seq<Condition>, i: int, kind: string) {
    0 <= i < |conditions| && conditions[i].kind == kind && forall j | 0 <= j < i :: conditions[j].kind != kind
  }

  lemma {:induction false} FirstAt(conditions: seq<Condition>, i: int, c: Condition)
    requires IsFirst(conditions, i, c.kind)
    ensures FirstOfKind(conditions, c.kind) == Some(conditions[i])
    ensures WithCondition(conditions, c) == conditions[i := c]
  {
    if i > 0 {
      FirstAt(conditions[1..], i - 1, c);
    }
  }

  lemma {:induction false} NoneOfKind(conditions: seq<Condition>, c: Condition)
    requires forall j | 0 <= j < |conditions| :: conditions[j].kind != c.kind
    ensures FirstOfKind(conditions, c.kind) == None
    ensures WithCondition(conditions, c) == conditions + [c]
  {
    if conditions != [] {
      NoneOfKind(conditions[1..], c);
    }
  }

  /** The conditions field, which a reconciler updates in place. */
  class ConditionList {
    var conditions: seq<Condition>

    constructor (conditions: seq<Condition>)
      ensures this.conditions == conditions
    {
      this.conditions := conditions;
    }

    /** meta.SetStatusCondition: reports a change exactly when the condition was not already shown. */
    method SetStatusCondition(c: Condition) returns (changed: bool)
      modifies this
      ensures changed <==> !Shows(old(conditions), c)
      ensures conditions == WithCondition(old(conditions), c)
    {
      for i := 0 to |conditions|
        invariant conditions == old(conditions)
        invariant forall j | 0 <= j < i :: conditions[j].kind != c.kind
      {
        if conditions[i].kind == c.kind {
          FirstAt(conditions, i, c);
          changed := conditions[i] != c;
          conditions := conditions[i := c];
          return;
        }
      }
      NoneOfKind(conditions, c);
      conditions := conditions + [c];
      return true;
    }
  }

  /** What is shown is the first condition of its kind. */
  lemma {:induction false} ShownIsFirst(conditions: seq<Condition>, c: Condition)
    requires Shows(conditions, c)
    ensures exists i :: IsFirst(conditions, i, c.kind) && conditions[i] == c
  {
    if conditions[0].kind == c.kind {
      assert IsFirst(conditions, 0, c.kind);
    } else {
      ShownIsFirst(conditions[1..], c);
      var i :| IsFirst(conditions[1..], i, c.kind) && conditions[1..][i] == c;
      assert IsFirst(conditions, i + 1, c.kind) && conditions[i + 1] == c;
    }
  }

  /** Setting a condition makes it the one shown, leaves every other kind as shown before, and is idle exactly when
      the condition was shown already. */
  lemma {:induction false} WithConditionShows(conditions: seq<Condition>, c: Condition)
    ensures Shows(WithCondition(conditions, c), c)
    ensures WithCondition(conditions, c) == conditions <==> Shows(conditions, c)
    ensures forall kind | kind != c.kind ::
              FirstOfKind(WithCondition(conditions, c), kind) == FirstOfKind(conditions, kind)
  {
    if conditions != [] && conditions[0].kind != c.kind {
      WithConditionShows(conditions[1..], c);
      assert WithCondition(conditions, c)[1..] == WithCondition(conditions[1..], c);
      assert conditions == [conditions[0]] + conditions[1..];
    }
  }

  /** Setting a condition replaces the first one of its kind in its place, or goes to the end. */
  lemma WithConditionInPlace(conditions: seq<Condition>, c: Condition)
    ensures (forall i | 0 <= i < |conditions| :: conditions[i].kind != c.kind) ==>
              WithCondition(conditions, c) == conditions + [c]
    ensures forall i | IsFirst(conditions, i, c.kind) :: WithCondition(conditions, c) == conditions[i := c]
  {
    forall i | IsFirst(conditions, i, c.kind)
      ensures WithCondition(conditions, c) == conditions[i := c]
    {
      FirstAt(conditions, i, c);
    }
    if forall i | 0 <= i < |conditions| :: conditions[i].kind != c.kind {
      NoneOfKind(conditions, c);
    }
  }
}
