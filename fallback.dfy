/** Fallback chains: try alternative actions in order until one succeeds. */
module Fallback {
  import opened Outcomes

  /** One entry of the `actions` array. `id` stands for the delegate itself:
      two entries with the same `id` are equal delegates. `outcome` is what
      invoking this entry does. */
  datatype Action<+E> = Action(id: int, outcome: Outcome<E>)

  /** The loop ends at entry `i` as written: the entry succeeded, or it failed
      while being equal to the last delegate of the array. */
  predicate Stops<E>(actions: seq<Action<E>>, i: nat)
    requires i < |actions|
  {
    actions[i].outcome.Succeeded? || actions[i].id == actions[|actions| - 1].id
  }

  /** The first entry at or after `i` where the loop as written ends. There
      always is one, since the last entry is equal to itself. */
  function FirstStopFrom<E>(actions: seq<Action<E>>, i: nat): (k: nat)
    requires i < |actions|
    ensures i <= k < |actions|
    ensures Stops(actions, k)
    ensures forall j :: i <= j < k ==> !Stops(actions, j)
    decreases |actions| - i
  {
    if Stops(actions, i) then i else FirstStopFrom(actions, i + 1)
  }

  /** Runs the actions in array order and returns after the first success. A
      failure is swallowed unless the failing delegate equals the last one, in
      which case it is rethrown. Returns the completion and the number of
      actions invoked. */
  method Run<E>(actions: seq<Action<E>>) returns (result: Completion<E>, invoked: nat)
    ensures actions == [] ==> result == Returned && invoked == 0
    ensures actions != [] ==> invoked == FirstStopFrom(actions, 0) + 1
    ensures actions != [] ==> result == PassThrough(actions[invoked - 1].outcome)
  {
    invoked := 0;
    for i := 0 to |actions|
      invariant invoked == i
      invariant forall j :: 0 <= j < i ==> !Stops(actions, j)
    {
      var action := actions[i];
      invoked := invoked + 1;
      match action.outcome {
        case Succeeded =>
          assert Stops(actions, i);
          return Returned, invoked;
        case Failed(e) =>
          if action.id == actions[|actions| - 1].id {
            assert Stops(actions, i);
            return Threw(e), invoked;
          }
      }
    }
    result := Returned;
  }

  /** The first entry at or after `i` that succeeds, or the last entry when
      none does: where a chain that rethrows by position ends. */
  function FirstEndFrom<E>(actions: seq<Action<E>>, i: nat): (k: nat)
    requires i < |actions|
    ensures i <= k < |actions|
    ensures actions[k].outcome.Succeeded? || k == |actions| - 1
    ensures forall j :: i <= j < k ==> actions[j].outcome.Failed?
    decreases |actions| - i
  {
    if actions[i].outcome.Succeeded? || i == |actions| - 1 then i else FirstEndFrom(actions, i + 1)
  }

  /** The chain with the rethrow decided by position: only the failure of the
      action in the last position propagates. */
  method RunInOrder<E>(actions: seq<Action<E>>) returns (result: Completion<E>, invoked: nat)
    ensures actions == [] ==> result == Returned && invoked == 0
    ensures actions != [] ==> invoked == FirstEndFrom(actions, 0) + 1
    ensures actions != [] ==> result == PassThrough(actions[invoked - 1].outcome)
    // A failure propagates exactly when every action failed, and then every
    // action was tried once.
    ensures result.Threw? <==> actions != [] && forall j :: 0 <= j < |actions| ==> actions[j].outcome.Failed?
    ensures result.Threw? ==> invoked == |actions|
  {
    invoked := 0;
    for i := 0 to |actions|
      invariant invoked == i
      invariant forall j :: 0 <= j < i ==> actions[j].outcome.Failed?
      invariant i < |actions| || actions == []
    {
      invoked := invoked + 1;
      match actions[i].outcome {
        case Succeeded =>
          return Returned, invoked;
        case Failed(e) =>
          if i == |actions| - 1 {
            return Threw(e), invoked;
          }
      }
    }
    result := Returned;
  }

  /** When the last delegate occurs nowhere else in the array, comparing
      delegates and comparing positions end the chain at the same entry. */
  lemma {:induction false} SameEndWhenLastIsUnique<E>(actions: seq<Action<E>>, i: nat)
    requires i < |actions|
    requires forall j :: 0 <= j < |actions| - 1 ==> actions[j].id != actions[|actions| - 1].id
    ensures FirstStopFrom(actions, i) == FirstEndFrom(actions, i)
    decreases |actions| - i
  {
    if !Stops(actions, i) {
      SameEndWhenLastIsUnique(actions, i + 1);
    }
  }

  /** Run(A, B, A) where A fails and B succeeds: comparing delegates ends the
      chain at the first A and rethrows its failure, although B, never tried,
      would have succeeded. */
  lemma RepeatedLastDelegateEndsEarly<E>(e: E)
    ensures var actions := [Action(1, Failed(e)), Action(2, Succeeded), Action(1, Failed(e))];
      && FirstStopFrom(actions, 0) == 0
      && PassThrough(actions[0].outcome) == Threw(e)
      && FirstEndFrom(actions, 0) == 1
      && PassThrough(actions[1].outcome) == Returned
  {
  }

  /** The fallback scenarios: no actions, the first works, the second works,
      none works. */
  method FallbackScenarios()
  {
    var r, n := Run<string>([]);
    assert r == Returned && n == 0;

    var works := [Action(1, Succeeded), Action(2, Succeeded), Action(3, Succeeded)];
    r, n := Run(works);
    assert Stops(works, 0);
    assert r == Returned && n == 1;

    var second := [Action(1, Failed("not supported")), Action(2, Succeeded), Action(3, Succeeded)];
    r, n := Run(second);
    assert !Stops(second, 0) && Stops(second, 1);
    assert r == Returned && n == 2;

    var none := [Action(1, Failed("first")), Action(2, Failed("second")), Action(3, Failed("third"))];
    r, n := Run(none);
    assert !Stops(none, 0) && !Stops(none, 1);
    assert r == Threw("third") && n == 3;
  }
}
