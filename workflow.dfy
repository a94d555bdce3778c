/**
 * Workflow definitions (the `WorkflowStep` shape both runners accept) and the
 * duplicate-return pre-pass `checkDuplicateReturns`, which both runners run
 * once before the first step and which only warns.
 */
module Workflow {
  import opened JsValues

  /** The shared context as a value: property name to value. */
  type Context = map<string, Value>

  /** A step's `params`: a function of the context, or a value used as is
      (a missing `params` is `Static(Undefined)`). */
  datatype Params =
    | Static(value: Value)
    | Computed(fn: Context -> Value)

  /** A step's `returns`: absent, one key, or a list of keys. */
  datatype Returns =
    | NoReturns
    | Single(key: string)
    | Many(keys: seq<string>)

  /** A step's `returnsAlias`: absent (or falsy), an object given by its entries
      in enumeration order `[from, to]`, or a truthy value that is not an
      object (which the runners ignore). */
  datatype Alias =
    | NoAlias
    | AliasEntries(entries: seq<(string, string)>)
    | AliasNotObject

  /** A workflow step, by its `type`. A parallel step whose `commands` is
      missing is its own case; a step of any other `type` is `Unknown`. */
  datatype Step =
    | Series(command: string, params: Params, ret: Returns, alias: Alias)
    | Parallel(commands: seq<Step>, ret: Returns, alias: Alias)
    | ParallelNoCommands(ret: Returns, alias: Alias)
    | Unknown(typeName: string)

  /** `if (returns)`: a declared `returns` other than the empty string. */
  predicate ReturnsDeclared(r: Returns)
  {
    r.Many? || (r.Single? && r.key != "")
  }

  /** The keys a declared `returns` names: `Array.isArray(r) ? r : [r]`. */
  function ReturnKeys(r: Returns): (ks: seq<string>)
    ensures !ReturnsDeclared(r) ==> ks == []
    ensures r.Many? ==> ks == r.keys
    ensures r.Single? && r.key != "" ==> ks == [r.key]
  {
    match r
    case NoReturns => []
    case Single(k) => if k == "" then [] else [k]
    case Many(ks) => ks
  }

  /** The `returns` keys of series steps, in traversal order: what the checker
      visits. Parallel steps contribute their children's keys only. */
  function StepKeys(step: Step): seq<string>
    decreases step
  {
    match step
    case Series(_, _, r, _) => ReturnKeys(r)
    case Parallel(cs, _, _) => SeriesKeys(cs)
    case ParallelNoCommands(_, _) => []
    case Unknown(_) => []
  }

  function SeriesKeys(steps: seq<Step>): seq<string>
    decreases steps
  {
    if steps == [] then [] else StepKeys(steps[0]) + SeriesKeys(steps[1..])
  }

  /** The duplicates a walk over `keys` collects: a key is added when it
      comes again after an earlier occurrence. */
  function Duplicates(keys: seq<string>): set<string>
    decreases |keys|
  {
    if keys == [] then {}
    else
      var front, last := keys[..|keys| - 1], keys[|keys| - 1];
      Duplicates(front) + (if last in front then {last} else {})
  }

  /** The keys a walk over `keys` has seen. */
  function Seen(keys: seq<string>): set<string>
    decreases |keys|
  {
    if keys == [] then {} else Seen(keys[..|keys| - 1]) + {keys[|keys| - 1]}
  }

  lemma DuplicatesSnoc(keys: seq<string>, k: string)
    ensures Duplicates(keys + [k]) == Duplicates(keys) + (if k in keys then {k} else {})
  {
    assert (keys + [k])[..|keys|] == keys;
  }

  lemma SeenSnoc(keys: seq<string>, k: string)
    ensures Seen(keys + [k]) == Seen(keys) + {k}
  {
    assert (keys + [k])[..|keys|] == keys;
  }

  /** The walk's duplicates are exactly the keys that occur more than once. */
  lemma {:induction false} DuplicatesSpec(keys: seq<string>)
    ensures forall k :: k in Duplicates(keys) <==> multiset(keys)[k] > 1
    decreases |keys|
  {
    if keys != [] {
      var front, last := keys[..|keys| - 1], keys[|keys| - 1];
      DuplicatesSpec(front);
      assert keys == front + [last];
      assert multiset(keys) == multiset(front) + multiset{last};
      assert last in front <==> multiset(front)[last] > 0;
    }
  }

  /** The walk has seen exactly the keys that occur. */
  lemma {:induction false} SeenSpec(keys: seq<string>)
    ensures forall k :: k in Seen(keys) <==> k in keys
    decreases |keys|
  {
    if keys != [] {
      var front, last := keys[..|keys| - 1], keys[|keys| - 1];
      SeenSpec(front);
      assert keys == front + [last];
    }
  }

  lemma SeriesKeysAppend(a: seq<Step>, b: seq<Step>)
    ensures SeriesKeys(a + b) == SeriesKeys(a) + SeriesKeys(b)
    decreases a
  {
    if a == [] {
      assert a + b == b;
    } else {
      assert (a + b)[1..] == a[1..] + b;
      SeriesKeysAppend(a[1..], b);
    }
  }

  lemma SeriesKeysSnoc(a: seq<Step>, s: Step)
    ensures SeriesKeys(a + [s]) == SeriesKeys(a) + StepKeys(s)
  {
    SeriesKeysAppend(a, [s]);
    assert SeriesKeys([s]) == StepKeys(s) + SeriesKeys([]);
  }

  lemma SeriesKeysPrefix(cs: seq<Step>, i: nat)
    requires i < |cs|
    ensures SeriesKeys(cs[..i + 1]) == SeriesKeys(cs[..i]) + StepKeys(cs[i])
  {
    assert cs[..i + 1] == cs[..i] + [cs[i]];
    SeriesKeysSnoc(cs[..i], cs[i]);
  }

  /** The two sets the checker's closures share. `Visited` is the list of keys
      seen so far, in order. */
  class DuplicateChecker {
    var seen: set<string>
    var duplicates: set<string>
    ghost var Visited: seq<string>

    ghost predicate Valid()
      reads this
    {
      && seen == Seen(Visited)
      && duplicates == Duplicates(Visited)
    }

    constructor ()
      ensures Valid() && Visited == []
    {
      seen, duplicates := {}, {};
      Visited := [];
    }

    /** `checkSeries`: every key of a declared `returns`, in order. */
    method CheckSeries(step: Step)
      requires Valid() && step.Series?
      modifies this
      ensures Valid() && Visited == old(Visited) + StepKeys(step)
    {
      if !ReturnsDeclared(step.ret) {
        assert StepKeys(step) == [];
        assert Visited == old(Visited) + [];
        return;
      }
      var keys := ReturnKeys(step.ret);
      for i := 0 to |keys|
        invariant Valid()
        invariant Visited == old(Visited) + keys[..i]
      {
        Visit(keys[i]);
        assert keys[..i + 1] == keys[..i] + [keys[i]];
      }
      assert keys[..|keys|] == keys;
    }

    /** One key of `checkSeries`: a key already seen is a duplicate; either
        way it is seen from now on. */
    method Visit(key: string)
      requires Valid()
      modifies this
      ensures Valid() && Visited == old(Visited) + [key]
    {
      DuplicatesSnoc(Visited, key);
      SeenSnoc(Visited, key);
      SeenSpec(Visited);
      if key in seen {
        duplicates := duplicates + {key};
      }
      seen := seen + {key};
      Visited := Visited + [key];
    }

    /** `checkParallel`: series children are checked, parallel children are
        walked recursively, and everything else is skipped. */
    method CheckParallel(step: Step)
      requires Valid() && (step.Parallel? || step.ParallelNoCommands?)
      modifies this
      ensures Valid() && Visited == old(Visited) + StepKeys(step)
      decreases step, 1
    {
      if step.ParallelNoCommands? {
        assert Visited == old(Visited) + [];
        return;
      }
      var cs := step.commands;
      for i := 0 to |cs|
        invariant Valid()
        invariant Visited == old(Visited) + SeriesKeys(cs[..i])
      {
        CheckStep(cs[i]);
        SeriesKeysPrefix(cs, i);
        assert Visited == old(Visited) + (SeriesKeys(cs[..i]) + StepKeys(cs[i]));
      }
      assert cs[..|cs|] == cs;
    }

    /** The dispatch on `type` that the top-level loop and `checkParallel`
        both perform: series and parallel steps are checked, any other step
        is skipped. */
    method CheckStep(step: Step)
      requires Valid()
      modifies this
      ensures Valid() && Visited == old(Visited) + StepKeys(step)
      decreases step, 2
    {
      if step.Series? {
        CheckSeries(step);
      } else if step.Parallel? || step.ParallelNoCommands? {
        CheckParallel(step);
      } else {
        assert Visited == old(Visited) + [];
      }
    }
  }

  /** `checkDuplicateReturns`: the keys the warning names are exactly those
      that occur more than once among the series `returns` of the whole tree,
      each named once. It never fails. */
  method CheckDuplicateReturns(workflow: seq<Step>) returns (duplicates: set<string>)
    ensures duplicates == Duplicates(SeriesKeys(workflow))
    ensures forall k :: k in duplicates <==> multiset(SeriesKeys(workflow))[k] > 1
  {
    var checker := new DuplicateChecker();
    for i := 0 to |workflow|
      invariant checker.Valid() && checker.Visited == SeriesKeys(workflow[..i])
    {
      checker.CheckStep(workflow[i]);
      SeriesKeysPrefix(workflow, i);
    }
    assert workflow[..|workflow|] == workflow;
    duplicates := checker.duplicates;
    DuplicatesSpec(SeriesKeys(workflow));
  }
}
