/**
 * What the runner's merge rules, step evaluation and step sequencing
 * promise, stated over the specification functions of `Runner`.
 */
module RunnerProperties {
  import opened JsValues
  import opened Workflow
  import opened Runner

  // ---------------------------------------------------------------------
  // Merge rules
  // ---------------------------------------------------------------------

  /** An object `returnsAlias` is applied alone, whatever `returns` says and
      in both runners: every alias target, and nothing else, is written with
      `result[from]` (the last entry naming a target wins). It fails only by
      reading a property of a null or undefined result. */
  lemma AliasTakesPrecedence(variant: Variant, ret: Returns, entries: seq<(string, string)>, result: Value)
    ensures MergeWrites(variant, ret, AliasEntries(entries), result).Ok? <==> !Nullish(result) || entries == []
    ensures MergeWrites(variant, ret, AliasEntries(entries), result).Err? ==>
      MergeWrites(variant, ret, AliasEntries(entries), result).error == TypeError
    ensures MergeWrites(variant, ret, AliasEntries(entries), result).Ok? ==>
      MergeWrites(variant, ret, AliasEntries(entries), result).value.Keys == set i | 0 <= i < |entries| :: entries[i].1
    ensures MergeWrites(variant, ret, AliasEntries(entries), result).Ok? ==>
      forall i :: 0 <= i < |entries| && (forall j :: i < j < |entries| ==> entries[j].1 != entries[i].1) ==>
        MergeWrites(variant, ret, AliasEntries(entries), result).value[entries[i].1] == Prop(result, entries[i].0)
  {
    var plan := AliasPlan(entries);
    ApplyPlanErr(plan, result);
    if !Nullish(result) || entries == [] {
      if entries != [] {
        assert !plan[0].source.Whole?;
      }
      ApplyPlanKeys(plan, result);
      assert Targets(plan) == set i | 0 <= i < |entries| :: entries[i].1 by {
        forall t | t in set i | 0 <= i < |entries| :: entries[i].1 ensures t in Targets(plan) {
          var i :| 0 <= i < |entries| && entries[i].1 == t;
          assert plan[i].target == t;
        }
      }
      forall i | 0 <= i < |entries| && (forall j :: i < j < |entries| ==> entries[j].1 != entries[i].1)
        ensures ApplyPlan(plan, result).value[entries[i].1] == Prop(result, entries[i].0)
      {
        assert LastFor(plan, i);
        ApplyPlanValues(plan, result, i);
      }
    } else {
      assert !plan[0].source.Whole?;
    }
  }

  /** `runner.js`, array `returns`: each key gets `result[key]`, or
      `result[i]` when that is null or undefined; every key, and nothing else,
      is written. A null or undefined result fails with a TypeError unless the
      list is empty. */
  lemma JsArrayReturns(keys: seq<string>, alias: Alias, result: Value)
    requires !alias.AliasEntries?
    ensures MergeWrites(Js, Many(keys), alias, result).Ok? <==> !Nullish(result) || keys == []
    ensures MergeWrites(Js, Many(keys), alias, result).Err? ==>
      MergeWrites(Js, Many(keys), alias, result).error == TypeError
    ensures MergeWrites(Js, Many(keys), alias, result).Ok? ==>
      MergeWrites(Js, Many(keys), alias, result).value.Keys == set i | 0 <= i < |keys| :: keys[i]
    ensures MergeWrites(Js, Many(keys), alias, result).Ok? ==>
      forall i :: 0 <= i < |keys| && (forall j :: i < j < |keys| ==> keys[j] != keys[i]) ==>
        MergeWrites(Js, Many(keys), alias, result).value[keys[i]] ==
          Coalesce(Prop(result, keys[i]), GetIndex(result, i).value)
  {
    var plan := FallbackPlan(keys);
    assert Plan(Js, Many(keys), alias) == plan;
    ApplyPlanErr(plan, result);
    if !Nullish(result) || keys == [] {
      if keys != [] {
        assert !plan[0].source.Whole?;
      }
      ApplyPlanKeys(plan, result);
      assert Targets(plan) == set i | 0 <= i < |keys| :: keys[i] by {
        forall t | t in set i | 0 <= i < |keys| :: keys[i] ensures t in Targets(plan) {
          var i :| 0 <= i < |keys| && keys[i] == t;
          assert plan[i].target == t;
        }
      }
      forall i | 0 <= i < |keys| && (forall j :: i < j < |keys| ==> keys[j] != keys[i])
        ensures ApplyPlan(plan, result).value[keys[i]] == Coalesce(Prop(result, keys[i]), GetIndex(result, i).value)
      {
        assert LastFor(plan, i);
        ApplyPlanValues(plan, result, i);
      }
    } else {
      assert !plan[0].source.Whole?;
    }
  }

  /** The positional fallback on an array result: a key the array does not
      have as a property takes the element at the key's position, or
      `undefined` past the end. */
  lemma JsArrayReturnsPositional(keys: seq<string>, alias: Alias, es: seq<Value>, i: nat)
    requires !alias.AliasEntries?
    requires i < |keys| && forall j :: i < j < |keys| ==> keys[j] != keys[i]
    requires keys[i] !in OwnProps(Arr(es)) && keys[i] != "length"
    ensures MergeWrites(Js, Many(keys), alias, Arr(es)).Ok?
    ensures keys[i] in MergeWrites(Js, Many(keys), alias, Arr(es)).value
    ensures MergeWrites(Js, Many(keys), alias, Arr(es)).value[keys[i]] ==
      if i < |es| then es[i] else Undefined
  {
    JsArrayReturns(keys, alias, Arr(es));
    assert keys[i] in set j | 0 <= j < |keys| :: keys[j];
    GetIndexSpec(Arr(es), i);
  }

  /** `runner.js`, string `returns`: the whole result is stored under that one
      key, even a null or undefined result, and nothing else is written. */
  lemma JsStringReturns(key: string, alias: Alias, result: Value)
    requires key != "" && !alias.AliasEntries?
    ensures MergeWrites(Js, Single(key), alias, result) == Ok(map[key := result])
  {
    var plan := [Write(key, Whole)];
    assert Plan(Js, Single(key), alias) == plan;
    ApplyPlanStep(plan, 0, result);
    assert plan[..0] == [] && plan[..1] == plan;
  }

  /** `runner.ts`: any declared `returns` is a key list and each key gets the
      field `result[key]` (a string `returns` stores a field, not the whole
      result); there is no positional fallback. */
  lemma TsReturns(ret: Returns, alias: Alias, result: Value)
    requires ReturnsDeclared(ret) && !alias.AliasEntries?
    ensures MergeWrites(Ts, ret, alias, result).Ok? <==> !Nullish(result) || ReturnKeys(ret) == []
    ensures MergeWrites(Ts, ret, alias, result).Err? ==> MergeWrites(Ts, ret, alias, result).error == TypeError
    ensures MergeWrites(Ts, ret, alias, result).Ok? ==>
      MergeWrites(Ts, ret, alias, result).value.Keys == set k | k in ReturnKeys(ret)
    ensures MergeWrites(Ts, ret, alias, result).Ok? ==>
      forall k :: k in ReturnKeys(ret) ==> MergeWrites(Ts, ret, alias, result).value[k] == Prop(result, k)
  {
    var keys := ReturnKeys(ret);
    var plan := FieldPlan(keys);
    assert Plan(Ts, ret, alias) == plan;
    ApplyPlanErr(plan, result);
    if !Nullish(result) || keys == [] {
      if keys != [] {
        assert !plan[0].source.Whole?;
      }
      ApplyPlanKeys(plan, result);
      assert Targets(plan) == set k | k in keys by {
        forall t | t in keys ensures t in Targets(plan) {
          var i :| 0 <= i < |keys| && keys[i] == t;
          assert plan[i].target == t;
        }
      }
      forall k | k in keys ensures ApplyPlan(plan, result).value[k] == Prop(result, k) {
        var i := LastIndexOf(keys, k);
        assert LastFor(plan, i);
        ApplyPlanValues(plan, result, i);
      }
    } else {
      assert !plan[0].source.Whole?;
    }
  }

  /** The position of the last occurrence of `k` in `keys`. */
  function LastIndexOf(keys: seq<string>, k: string): (i: nat)
    requires k in keys
    ensures i < |keys| && keys[i] == k
    ensures forall j :: i < j < |keys| ==> keys[j] != k
  {
    if keys[|keys| - 1] == k then |keys| - 1 else LastIndexOf(keys[..|keys| - 1], k)
  }

  /** Neither an object alias nor a declared `returns`: nothing is written. */
  lemma NoDeclarationNoWrites(variant: Variant, ret: Returns, alias: Alias, result: Value)
    requires !ReturnsDeclared(ret) && !alias.AliasEntries?
    ensures MergeWrites(variant, ret, alias, result) == Ok(map[])
  {
  }

  // ---------------------------------------------------------------------
  // Which keys a step writes
  // ---------------------------------------------------------------------

  /** The context keys a step writes when it succeeds: its own merge targets
      and, for a parallel step, those of all its descendants. */
  function WrittenKeys(variant: Variant, step: Step): set<string>
    decreases step, 1
  {
    match step
    case Series(_, _, ret, alias) => Targets(Plan(variant, ret, alias))
    case Parallel(cs, ret, alias) => GroupKeys(variant, cs) + Targets(Plan(variant, ret, alias))
    case ParallelNoCommands(ret, alias) => Targets(Plan(variant, ret, alias))
    case Unknown(_) => {}
  }

  function GroupKeys(variant: Variant, cs: seq<Step>): set<string>
    decreases cs, 2
  {
    if cs == [] then {} else GroupKeys(variant, cs[..|cs| - 1]) + WrittenKeys(variant, cs[|cs| - 1])
  }

  /** A successful step writes exactly `WrittenKeys`: keys it does not name
      are never modified, whatever its command returns. */
  lemma {:induction false} EvalWrites(variant: Variant, step: Step, snapshot: Context, cmd: CommandFn)
    requires Eval(variant, step, snapshot, cmd).Ok?
    ensures Eval(variant, step, snapshot, cmd).value.writes.Keys == WrittenKeys(variant, step)
    decreases step, 1
  {
    match step
    case Series(_, _, ret, alias) =>
      var v := SeriesValue(variant, step, snapshot, cmd).value;
      ApplyPlanKeys(Plan(variant, ret, alias), v);
    case Parallel(cs, ret, alias) =>
      var p := EvalParallel(variant, step, snapshot, cmd).value;
      EvalGroupWrites(variant, cs, snapshot, cmd);
      ApplyPlanKeys(Plan(variant, ret, alias), p.value);
    case ParallelNoCommands(ret, alias) =>
      var p := EvalParallel(variant, step, snapshot, cmd).value;
      ApplyPlanKeys(Plan(variant, ret, alias), p.value);
    case Unknown(_) =>
  }

  lemma {:induction false} EvalGroupWrites(variant: Variant, cs: seq<Step>, snapshot: Context, cmd: CommandFn)
    requires EvalGroup(variant, cs, snapshot, cmd).Ok?
    ensures EvalGroup(variant, cs, snapshot, cmd).value.writes.Keys == GroupKeys(variant, cs)
    decreases cs, 2
  {
    if cs != [] {
      EvalGroupWrites(variant, cs[..|cs| - 1], snapshot, cmd);
      EvalWrites(variant, cs[|cs| - 1], snapshot, cmd);
    }
  }

  // ---------------------------------------------------------------------
  // Parallel groups
  // ---------------------------------------------------------------------

  /** `results.flat()` of two lists is the two flattened lists joined. */
  lemma {:induction false} FlattenAppend(a: seq<Value>, b: seq<Value>)
    ensures Flatten(a + b) == Flatten(a) + Flatten(b)
    decreases |a|
  {
    if a == [] {
      assert a + b == b;
    } else {
      assert (a + b)[0] == a[0];
      assert (a + b)[1..] == a[1..] + b;
      FlattenAppend(a[1..], b);
    }
  }

  /** Children that return non-arrays contribute their results as they are. */
  lemma {:induction false} FlattenNoArrays(vs: seq<Value>)
    requires forall i :: 0 <= i < |vs| ==> !vs[i].Arr?
    ensures Flatten(vs) == vs
    decreases |vs|
  {
    if vs != [] {
      FlattenNoArrays(vs[1..]);
    }
  }

  /** Children that return arrays have their elements spliced in, in child
      order. */
  lemma FlattenArrays(a: seq<Value>, b: seq<Value>)
    ensures Flatten([Arr(a), Arr(b)]) == a + b
  {
    assert [Arr(a), Arr(b)][1..] == [Arr(b)];
    assert [Arr(b)][1..] == [];
    assert Flatten([Arr(b)]) == b + Flatten([]);
    assert b + [] == b;
  }

  /** A successful group is a successful prefix followed by a successful last
      child. */
  lemma EvalGroupSnocOk(variant: Variant, cs: seq<Step>, snapshot: Context, cmd: CommandFn)
    requires cs != [] && EvalGroup(variant, cs, snapshot, cmd).Ok?
    ensures EvalGroup(variant, cs[..|cs| - 1], snapshot, cmd).Ok?
    ensures Eval(variant, cs[|cs| - 1], snapshot, cmd).Ok?
    ensures EvalGroup(variant, cs, snapshot, cmd).value.values ==
      EvalGroup(variant, cs[..|cs| - 1], snapshot, cmd).value.values + [Eval(variant, cs[|cs| - 1], snapshot, cmd).value.value]
    ensures EvalGroup(variant, cs, snapshot, cmd).value.writes ==
      EvalGroup(variant, cs[..|cs| - 1], snapshot, cmd).value.writes + Eval(variant, cs[|cs| - 1], snapshot, cmd).value.writes
  {
  }

  /** A successful group has one value per child. */
  lemma {:induction false} EvalGroupLength(variant: Variant, cs: seq<Step>, snapshot: Context, cmd: CommandFn)
    requires EvalGroup(variant, cs, snapshot, cmd).Ok?
    ensures |EvalGroup(variant, cs, snapshot, cmd).value.values| == |cs|
    decreases |cs|
  {
    if cs != [] {
      EvalGroupSnocOk(variant, cs, snapshot, cmd);
      EvalGroupLength(variant, cs[..|cs| - 1], snapshot, cmd);
    }
  }

  /** Child `i` succeeds and the group's value at `i` is that child's value. */
  predicate ChildValueKept(variant: Variant, cs: seq<Step>, snapshot: Context, cmd: CommandFn, i: int)
    requires EvalGroup(variant, cs, snapshot, cmd).Ok? && 0 <= i < |cs|
    requires |EvalGroup(variant, cs, snapshot, cmd).value.values| == |cs|
  {
    Eval(variant, cs[i], snapshot, cmd).Ok? &&
    EvalGroup(variant, cs, snapshot, cmd).value.values[i] == Eval(variant, cs[i], snapshot, cmd).value.value
  }

  /** One child of `EvalGroupValues`. */
  lemma {:induction false} EvalGroupValueAt(variant: Variant, cs: seq<Step>, snapshot: Context, cmd: CommandFn, i: int)
    requires EvalGroup(variant, cs, snapshot, cmd).Ok? && 0 <= i < |cs|
    ensures |EvalGroup(variant, cs, snapshot, cmd).value.values| == |cs|
    ensures Eval(variant, cs[i], snapshot, cmd).Ok?
    ensures EvalGroup(variant, cs, snapshot, cmd).value.values[i] == Eval(variant, cs[i], snapshot, cmd).value.value
    decreases |cs|
  {
    var n := |cs| - 1;
    if i == n {
      EvalGroupValueLast(variant, cs, snapshot, cmd);
    } else {
      var front := cs[..n];
      EvalGroupSnocOk(variant, cs, snapshot, cmd);
      EvalGroupLength(variant, front, snapshot, cmd);
      var g := EvalGroup(variant, front, snapshot, cmd).value;
      var o := Eval(variant, cs[n], snapshot, cmd).value;
      assert front[i] == cs[i];
      EvalGroupValueAt(variant, front, snapshot, cmd, i);
      assert (g.values + [o.value])[i] == g.values[i];
    }
  }

  /** The last child's value closes the group's values. */
  lemma EvalGroupValueLast(variant: Variant, cs: seq<Step>, snapshot: Context, cmd: CommandFn)
    requires EvalGroup(variant, cs, snapshot, cmd).Ok? && cs != []
    ensures |EvalGroup(variant, cs, snapshot, cmd).value.values| == |cs|
    ensures Eval(variant, cs[|cs| - 1], snapshot, cmd).Ok?
    ensures EvalGroup(variant, cs, snapshot, cmd).value.values[|cs| - 1] == Eval(variant, cs[|cs| - 1], snapshot, cmd).value.value
  {
    EvalGroupSnocOk(variant, cs, snapshot, cmd);
    EvalGroupLength(variant, cs[..|cs| - 1], snapshot, cmd);
  }

  /** The children's values, in child order, when each child succeeds. */
  lemma EvalGroupValues(variant: Variant, cs: seq<Step>, snapshot: Context, cmd: CommandFn)
    requires EvalGroup(variant, cs, snapshot, cmd).Ok?
    ensures |EvalGroup(variant, cs, snapshot, cmd).value.values| == |cs|
    ensures forall i :: 0 <= i < |cs| ==> ChildValueKept(variant, cs, snapshot, cmd, i)
  {
    EvalGroupLength(variant, cs, snapshot, cmd);
    forall i | 0 <= i < |cs| ensures ChildValueKept(variant, cs, snapshot, cmd, i) {
      EvalGroupValueAt(variant, cs, snapshot, cmd, i);
    }
  }

  /** Children that name pairwise distinct keys: the order in which their
      writes land does not matter. */
  predicate DisjointChildren(variant: Variant, cs: seq<Step>)
  {
    forall i, j :: 0 <= i < j < |cs| ==> WrittenKeys(variant, cs[i]) !! WrittenKeys(variant, cs[j])
  }

  /** Dropping the last child keeps the keys pairwise distinct. */
  lemma DisjointChildrenPrefix(variant: Variant, cs: seq<Step>)
    requires cs != [] && DisjointChildren(variant, cs)
    ensures DisjointChildren(variant, cs[..|cs| - 1])
  {
    var front := cs[..|cs| - 1];
    assert forall i :: 0 <= i < |front| ==> front[i] == cs[i];
  }

  /** Child `i` succeeds and writes key `k`, and the group's writes hold
      that child's value under `k`. */
  predicate ChildWriteKept(variant: Variant, cs: seq<Step>, snapshot: Context, cmd: CommandFn, i: int, k: string)
    requires EvalGroup(variant, cs, snapshot, cmd).Ok? && 0 <= i < |cs|
  {
    Eval(variant, cs[i], snapshot, cmd).Ok? &&
    k in Eval(variant, cs[i], snapshot, cmd).value.writes &&
    k in EvalGroup(variant, cs, snapshot, cmd).value.writes &&
    EvalGroup(variant, cs, snapshot, cmd).value.writes[k] == Eval(variant, cs[i], snapshot, cmd).value.writes[k]
  }

  /** One child and one key of `DisjointGroupWrites`. */
  lemma {:induction false} DisjointGroupWriteAt(variant: Variant, cs: seq<Step>, snapshot: Context, cmd: CommandFn, i: int, k: string)
    requires EvalGroup(variant, cs, snapshot, cmd).Ok? && DisjointChildren(variant, cs)
    requires 0 <= i < |cs| && k in WrittenKeys(variant, cs[i])
    ensures ChildWriteKept(variant, cs, snapshot, cmd, i, k)
    decreases |cs|
  {
    var n := |cs| - 1;
    var front := cs[..n];
    EvalGroupSnocOk(variant, cs, snapshot, cmd);
    EvalWrites(variant, cs[n], snapshot, cmd);
    if i < n {
      DisjointChildrenPrefix(variant, cs);
      assert front[i] == cs[i];
      DisjointGroupWriteAt(variant, front, snapshot, cmd, i, k);
      assert k !in WrittenKeys(variant, cs[n]);
    }
  }

  /** With pairwise distinct keys, every key of the group's writes holds the
      value its one writing child gave it: the group's effect does not depend
      on the order in which the children complete. */
  lemma DisjointGroupWrites(variant: Variant, cs: seq<Step>, snapshot: Context, cmd: CommandFn)
    requires EvalGroup(variant, cs, snapshot, cmd).Ok? && DisjointChildren(variant, cs)
    ensures forall i, k :: 0 <= i < |cs| && k in WrittenKeys(variant, cs[i]) ==>
      ChildWriteKept(variant, cs, snapshot, cmd, i, k)
  {
    forall i, k | 0 <= i < |cs| && k in WrittenKeys(variant, cs[i]) {
      DisjointGroupWriteAt(variant, cs, snapshot, cmd, i, k);
    }
  }

  // ---------------------------------------------------------------------
  // Series steps and the step sequence
  // ---------------------------------------------------------------------

  /** `runner.ts` rejects malformed params before it loads the command: the
      outcome is the shape error whatever the command would do. */
  lemma TsParamsCheckedFirst(step: Step, snapshot: Context, cmd: CommandFn)
    requires step.Series? && !ParamsShapeOk(Resolve(step.params, snapshot))
    ensures Eval(Ts, step, snapshot, cmd) == Err(Thrown(ParamsShapeMessage))
  {
  }

  /** Params of the right shape reach the command unchanged, in both
      runners; `runner.js` passes any params through. */
  lemma ParamsReachCommand(variant: Variant, step: Step, snapshot: Context, cmd: CommandFn)
    requires step.Series?
    requires variant == Js || ParamsShapeOk(Resolve(step.params, snapshot))
    ensures SeriesValue(variant, step, snapshot, cmd) == cmd(step.command, Resolve(step.params, snapshot))
  {
  }

  /** Running `a` then `b` is running `a + b`. */
  lemma {:induction false} RunStepsAppend(variant: Variant, a: seq<Step>, b: seq<Step>, ctx: Context, cmd: CommandFn)
    ensures RunSteps(variant, a + b, ctx, cmd) ==
      match RunSteps(variant, a, ctx, cmd)
      case Err(e) => Err(e)
      case Ok(c) => RunSteps(variant, b, c, cmd)
    decreases |b|
  {
    if b == [] {
      assert a + b == a;
    } else {
      var n := |b| - 1;
      assert a + b == (a + b[..n]) + [b[n]];
      assert b == b[..n] + [b[n]];
      RunStepsSnoc(variant, a + b[..n], b[n], ctx, cmd);
      RunStepsSnoc(variant, b[..n], b[n], Peek(RunSteps(variant, a, ctx, cmd), ctx), cmd);
      RunStepsAppend(variant, a, b[..n], ctx, cmd);
    }
  }

  /** The context a run produced, or `fallback` when it failed. */
  function Peek(r: Result<Context>, fallback: Context): Context
  {
    if r.Ok? then r.value else fallback
  }

  /** Each step sees the context its predecessors left: running one more
      step is running the earlier ones, then that step on the context they
      produced, its writes applied over that context; a failure stops the
      run. */
  lemma RunStepsSnoc(variant: Variant, steps: seq<Step>, s: Step, ctx: Context, cmd: CommandFn)
    ensures RunSteps(variant, steps + [s], ctx, cmd) ==
      match RunSteps(variant, steps, ctx, cmd)
      case Err(e) => Err(e)
      case Ok(c) =>
        match Eval(variant, s, c, cmd)
        case Err(e) => Err(e)
        case Ok(o) => Ok(c + o.writes)
  {
    assert (steps + [s])[..|steps|] == steps;
  }

  /** A step of unknown type stops the run with `Unknown step type: <type>`
      once the steps before it have succeeded; no later step runs. */
  lemma UnknownStepStopsRun(variant: Variant, steps: seq<Step>, i: nat, ctx: Context, cmd: CommandFn)
    requires i < |steps| && steps[i].Unknown?
    requires RunSteps(variant, steps[..i], ctx, cmd).Ok?
    ensures RunSteps(variant, steps, ctx, cmd) == Err(Thrown("Unknown step type: " + steps[i].typeName))
  {
    assert steps[..i + 1][..i] == steps[..i];
    assert steps[..i + 1][i] == steps[i];
    RunStepsPrefixErr(variant, steps, i + 1, ctx, cmd);
  }
}
