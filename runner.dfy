/**
 * The workflow runner (`runner.js` and its TypeScript variant `runner.ts`).
 *
 * The specification functions give, for every step, its value (what `runStep`
 * returns) and the writes it makes into the shared context. A step's params
 * are resolved against a snapshot: the context as it stood when the step was
 * started. At top level that is the live context; inside a parallel group
 * every child, at any depth, is started synchronously before the first
 * `await`, so all of them see the context as it stood on entry to the group.
 * The children's writes are applied in child order.
 *
 * The methods do what the source does, writing into one shared `JsObject`
 * key by key, and are proved to end in the state the functions describe.
 */
module Runner {
  import opened JsValues
  import opened Workflow

  /** Which runner: `runner.js` or `runner.ts`. */
  datatype Variant = Js | Ts

  /** Command resolution and invocation (`require`/`import` of
      `commands/<name>.run.*` and a call of its function), as an oracle from
      command name and resolved params to the command's result or rejection. */
  type CommandFn = (string, Value) -> Result<Value>

  /** `typeof params === "function" ? params(context) : params` */
  function Resolve(p: Params, ctx: Context): Value
  {
    match p
    case Static(v) => v
    case Computed(f) => f(ctx)
  }

  const ParamsShapeMessage := "Command params must be in the form { id, services, params }"

  /** `key in v` for an object `v`. */
  predicate HasProperty(v: Value, key: string)
  {
    key in OwnProps(v) || (v.Arr? && key == "length")
  }

  /** The shape `runner.ts` demands of resolved params before it loads the
      command: a truthy object with both an `id` and a `params` property. */
  predicate ParamsShapeOk(p: Value)
  {
    Truthy(p) && TypeOf(p) == "object" && HasProperty(p, "id") && HasProperty(p, "params")
  }

  /** `runSeries`: resolve the params, check their shape (TypeScript only),
      then run the command. */
  function SeriesValue(variant: Variant, step: Step, snapshot: Context, cmd: CommandFn): Result<Value>
    requires step.Series?
  {
    var params := Resolve(step.params, snapshot);
    if variant == Ts && !ParamsShapeOk(params) then Err(Thrown(ParamsShapeMessage))
    else cmd(step.command, params)
  }

  // ---------------------------------------------------------------------
  // Merging a result into the context
  // ---------------------------------------------------------------------

  /** Where a context write takes its value from. */
  datatype Source =
    | Field(name: string)                  // result[name]
    | FieldOrIndex(name: string, index: nat) // result[name] ?? result[index]
    | Whole                                // result

  /** One assignment `context[target] = <source>`. */
  datatype Write = Write(target: string, source: Source)

  function ReadSource(src: Source, result: Value): (r: Result<Value>)
    ensures r.Err? <==> !src.Whole? && Nullish(result)
    ensures r.Err? ==> r.error == TypeError
  {
    match src
    case Whole => Ok(result)
    case Field(name) => Get(result, name)
    case FieldOrIndex(name, i) =>
      var v :- Get(result, name);
      if Nullish(v) then GetIndex(result, i) else Ok(v)
  }

  /** `context[to] = result[from]` for each alias entry. */
  function AliasPlan(entries: seq<(string, string)>): (p: seq<Write>)
    ensures |p| == |entries|
    ensures forall i :: 0 <= i < |p| ==> p[i] == Write(entries[i].1, Field(entries[i].0))
  {
    seq(|entries|, i requires 0 <= i < |entries| => Write(entries[i].1, Field(entries[i].0)))
  }

  /** `context[key] = result[key]` for each key. */
  function FieldPlan(keys: seq<string>): (p: seq<Write>)
    ensures |p| == |keys|
    ensures forall i :: 0 <= i < |p| ==> p[i] == Write(keys[i], Field(keys[i]))
  {
    seq(|keys|, i requires 0 <= i < |keys| => Write(keys[i], Field(keys[i])))
  }

  /** `context[key] = result[key] ?? result[i]` for each key at position `i`. */
  function FallbackPlan(keys: seq<string>): (p: seq<Write>)
    ensures |p| == |keys|
    ensures forall i :: 0 <= i < |p| ==> p[i] == Write(keys[i], FieldOrIndex(keys[i], i))
  {
    seq(|keys|, i requires 0 <= i < |keys| => Write(keys[i], FieldOrIndex(keys[i], i)))
  }

  /** The assignments `runStep` performs after a step, in order. An object
      `returnsAlias` wins over `returns`; the two runners differ on `returns`. */
  function Plan(variant: Variant, ret: Returns, alias: Alias): seq<Write>
  {
    if alias.AliasEntries? then AliasPlan(alias.entries)
    else if !ReturnsDeclared(ret) then []
    else if variant == Ts then FieldPlan(ReturnKeys(ret))
    else if ret.Many? then FallbackPlan(ret.keys)
    else [Write(ret.key, Whole)]
  }

  /** The writes a plan makes, later assignments overriding earlier ones. */
  function ApplyPlan(plan: seq<Write>, result: Value): Result<Context>
    decreases |plan|
  {
    if plan == [] then Ok(map[])
    else
      var w :- ApplyPlan(plan[..|plan| - 1], result);
      var last := plan[|plan| - 1];
      var v :- ReadSource(last.source, result);
      Ok(w[last.target := v])
  }

  function MergeWrites(variant: Variant, ret: Returns, alias: Alias, result: Value): Result<Context>
  {
    ApplyPlan(Plan(variant, ret, alias), result)
  }

  function Targets(plan: seq<Write>): set<string>
  {
    set i | 0 <= i < |plan| :: plan[i].target
  }

  /** An assignment that no later assignment in the plan overrides. */
  predicate LastFor(plan: seq<Write>, i: int)
    requires 0 <= i < |plan|
  {
    forall j :: i < j < |plan| ==> plan[j].target != plan[i].target
  }

  /** A plan fails exactly when it reads a property of a null or undefined
      result, and then with a TypeError. */
  lemma {:induction false} ApplyPlanErr(plan: seq<Write>, result: Value)
    ensures ApplyPlan(plan, result).Err? <==>
      Nullish(result) && exists i :: 0 <= i < |plan| && !plan[i].source.Whole?
    ensures ApplyPlan(plan, result).Err? ==> ApplyPlan(plan, result).error == TypeError
    decreases |plan|
  {
    if plan != [] {
      var n := |plan| - 1;
      ApplyPlanErr(plan[..n], result);
      assert forall i :: 0 <= i < n ==> plan[..n][i] == plan[i];
    }
  }

  /** A plan that succeeds writes exactly its targets. */
  lemma {:induction false} ApplyPlanKeys(plan: seq<Write>, result: Value)
    requires ApplyPlan(plan, result).Ok?
    ensures ApplyPlan(plan, result).value.Keys == Targets(plan)
    decreases |plan|
  {
    if plan != [] {
      var n := |plan| - 1;
      var front := plan[..n];
      ApplyPlanKeys(front, result);
      forall t | t in Targets(plan) ensures t in Targets(front) + {plan[n].target} {
        var i :| 0 <= i < |plan| && plan[i].target == t;
        if i < n { assert front[i].target == t; }
      }
      forall t | t in Targets(front) ensures t in Targets(plan) {
        var i :| 0 <= i < n && front[i].target == t;
        assert plan[i].target == t;
      }
    }
  }

  /** A plan that succeeds gives every target the value its last assignment
      reads. */
  lemma {:induction false} ApplyPlanValues(plan: seq<Write>, result: Value, i: nat)
    requires ApplyPlan(plan, result).Ok?
    requires i < |plan| && LastFor(plan, i)
    ensures ReadSource(plan[i].source, result).Ok?
    ensures plan[i].target in ApplyPlan(plan, result).value
    ensures ApplyPlan(plan, result).value[plan[i].target] == ReadSource(plan[i].source, result).value
    decreases |plan|
  {
    ApplyPlanErr(plan, result);
    var n := |plan| - 1;
    if i < n {
      var front := plan[..n];
      assert front[i] == plan[i];
      assert LastFor(front, i);
      ApplyPlanValues(front, result, i);
    }
  }

  /** One more assignment of a plan, read off the plan's prefixes. */
  lemma ApplyPlanStep(plan: seq<Write>, i: nat, result: Value)
    requires i < |plan|
    ensures ApplyPlan(plan[..i + 1], result) ==
      match ApplyPlan(plan[..i], result)
      case Err(e) => Err(e)
      case Ok(w) =>
        match ReadSource(plan[i].source, result)
        case Err(e) => Err(e)
        case Ok(v) => Ok(w[plan[i].target := v])
  {
    assert plan[..i + 1][..i] == plan[..i];
  }

  /** An error in a prefix of a plan is the plan's error. */
  lemma {:induction false} ApplyPlanPrefixErr(plan: seq<Write>, i: nat, result: Value)
    requires i <= |plan| && ApplyPlan(plan[..i], result).Err?
    ensures ApplyPlan(plan, result) == ApplyPlan(plan[..i], result)
    decreases |plan| - i
  {
    if i < |plan| {
      assert plan[..i + 1][..i] == plan[..i];
      ApplyPlanPrefixErr(plan, i + 1, result);
    } else {
      assert plan[..i] == plan;
    }
  }

  // ---------------------------------------------------------------------
  // Evaluating steps
  // ---------------------------------------------------------------------

  /** What a step yields: its value and the context writes it made. */
  datatype StepOutcome = StepOutcome(value: Value, writes: Context)

  /** What a list of sibling steps yields: their values, in order, and their
      writes applied in order. */
  datatype GroupOutcome = GroupOutcome(values: seq<Value>, writes: Context)

  /** `results.flat()`: arrays are spliced in, other values appended. */
  function Flatten(vs: seq<Value>): seq<Value>
    decreases |vs|
  {
    if vs == [] then []
    else (match vs[0] case Arr(es) => es case _ => [vs[0]]) + Flatten(vs[1..])
  }

  /** `runStep` */
  function Eval(variant: Variant, step: Step, snapshot: Context, cmd: CommandFn): Result<StepOutcome>
    decreases step, 1
  {
    match step
    case Series(_, _, ret, alias) =>
      var v :- SeriesValue(variant, step, snapshot, cmd);
      var w :- MergeWrites(variant, ret, alias, v);
      Ok(StepOutcome(v, w))
    case Parallel(_, ret, alias) =>
      var p :- EvalParallel(variant, step, snapshot, cmd);
      var w :- MergeWrites(variant, ret, alias, p.value);
      Ok(StepOutcome(p.value, p.writes + w))
    case ParallelNoCommands(ret, alias) =>
      var p :- EvalParallel(variant, step, snapshot, cmd);
      var w :- MergeWrites(variant, ret, alias, p.value);
      Ok(StepOutcome(p.value, p.writes + w))
    case Unknown(t) => Err(Thrown("Unknown step type: " + t))
  }

  /** `runParallel`: the children's values flattened one level. A missing
      `commands` is a TypeError in `runner.js` and an empty group in `runner.ts`. */
  function EvalParallel(variant: Variant, step: Step, snapshot: Context, cmd: CommandFn): Result<StepOutcome>
    requires step.Parallel? || step.ParallelNoCommands?
    decreases step, 0
  {
    if step.ParallelNoCommands? then
      if variant == Js then Err(TypeError) else Ok(StepOutcome(Arr([]), map[]))
    else
      var g :- EvalGroup(variant, step.commands, snapshot, cmd);
      Ok(StepOutcome(Arr(Flatten(g.values)), g.writes))
  }

  /** The children of one parallel group, all started against `snapshot`. */
  function EvalGroup(variant: Variant, cs: seq<Step>, snapshot: Context, cmd: CommandFn): Result<GroupOutcome>
    decreases cs, 2
  {
    if cs == [] then Ok(GroupOutcome([], map[]))
    else
      var g :- EvalGroup(variant, cs[..|cs| - 1], snapshot, cmd);
      var o :- Eval(variant, cs[|cs| - 1], snapshot, cmd);
      Ok(GroupOutcome(g.values + [o.value], g.writes + o.writes))
  }

  /** The steps of a workflow run one after another on a context. */
  function RunSteps(variant: Variant, steps: seq<Step>, ctx: Context, cmd: CommandFn): Result<Context>
    decreases |steps|
  {
    if steps == [] then Ok(ctx)
    else
      var c :- RunSteps(variant, steps[..|steps| - 1], ctx, cmd);
      var o :- Eval(variant, steps[|steps| - 1], c, cmd);
      Ok(c + o.writes)
  }

  // ---------------------------------------------------------------------
  // The runner as the source writes it: one shared context object
  // ---------------------------------------------------------------------

  /** Writing a key after a batch of writes is the batch with that write. */
  lemma UpdateAfterWrites(base: Context, w: Context, k: string, v: Value)
    ensures (base + w)[k := v] == base + w[k := v]
  {
  }

  /** Two batches of writes applied one after the other are one batch. */
  lemma WritesAssoc(base: Context, w1: Context, w2: Context)
    ensures (base + w1) + w2 == base + (w1 + w2)
  {
  }

  /** Evaluates one assignment's right-hand side. */
  method Read(src: Source, result: Value) returns (v: Result<Value>)
    ensures v == ReadSource(src, result)
  {
    v := ReadSource(src, result);
  }

  /** `for (const [from, to] of Object.entries(returnsAlias)) context[to] = result[from];` */
  method AssignAliases(entries: seq<(string, string)>, result: Value, ctx: JsObject)
    returns (failure: Option<Error>)
    modifies ctx
    ensures match ApplyPlan(AliasPlan(entries), result)
      case Ok(w) => failure == None && ctx.props == old(ctx.props) + w
      case Err(e) => failure == Some(e) && ctx.props == old(ctx.props)
  {
    ghost var plan := AliasPlan(entries);
    ghost var w: Context := map[];
    for i := 0 to |entries|
      invariant ApplyPlan(plan[..i], result) == Ok(w)
      invariant ctx.props == old(ctx.props) + w
      invariant Nullish(result) ==> w == map[]
    {
      var (from, to) := entries[i];
      var v := Read(Field(from), result);
      ApplyPlanStep(plan, i, result);
      if v.Err? {
        ApplyPlanPrefixErr(plan, i + 1, result);
        assert old(ctx.props) + map[] == old(ctx.props);
        return Some(v.error);
      }
      UpdateAfterWrites(old(ctx.props), w, to, v.value);
      ctx.Set(to, v.value);
      w := w[to := v.value];
    }
    assert plan[..|plan|] == plan;
    return None;
  }

  /** `returns.forEach((key, i) => { context[key] = result[key] ?? result[i]; });` */
  method AssignWithFallback(keys: seq<string>, result: Value, ctx: JsObject)
    returns (failure: Option<Error>)
    modifies ctx
    ensures match ApplyPlan(FallbackPlan(keys), result)
      case Ok(w) => failure == None && ctx.props == old(ctx.props) + w
      case Err(e) => failure == Some(e) && ctx.props == old(ctx.props)
  {
    ghost var plan := FallbackPlan(keys);
    ghost var w: Context := map[];
    for i := 0 to |keys|
      invariant ApplyPlan(plan[..i], result) == Ok(w)
      invariant ctx.props == old(ctx.props) + w
      invariant Nullish(result) ==> w == map[]
    {
      var key := keys[i];
      ApplyPlanStep(plan, i, result);
      var v := Read(FieldOrIndex(key, i), result);   // result[key] ?? result[i]
      if v.Err? {
        ApplyPlanPrefixErr(plan, i + 1, result);
        assert old(ctx.props) + map[] == old(ctx.props);
        return Some(v.error);
      }
      UpdateAfterWrites(old(ctx.props), w, key, v.value);
      ctx.Set(key, v.value);
      w := w[key := v.value];
    }
    assert plan[..|plan|] == plan;
    return None;
  }

  /** `for (const key of keys) context[key] = result[key];` */
  method AssignFields(keys: seq<string>, result: Value, ctx: JsObject)
    returns (failure: Option<Error>)
    modifies ctx
    ensures match ApplyPlan(FieldPlan(keys), result)
      case Ok(w) => failure == None && ctx.props == old(ctx.props) + w
      case Err(e) => failure == Some(e) && ctx.props == old(ctx.props)
  {
    ghost var plan := FieldPlan(keys);
    ghost var w: Context := map[];
    for i := 0 to |keys|
      invariant ApplyPlan(plan[..i], result) == Ok(w)
      invariant ctx.props == old(ctx.props) + w
      invariant Nullish(result) ==> w == map[]
    {
      var key := keys[i];
      ApplyPlanStep(plan, i, result);
      var v := Read(Field(key), result);
      if v.Err? {
        ApplyPlanPrefixErr(plan, i + 1, result);
        assert old(ctx.props) + map[] == old(ctx.props);
        return Some(v.error);
      }
      UpdateAfterWrites(old(ctx.props), w, key, v.value);
      ctx.Set(key, v.value);
      w := w[key := v.value];
    }
    assert plan[..|plan|] == plan;
    return None;
  }

  /** The merge at the end of `runStep`. Returns the error that stopped it, if
      any. */
  method ApplyMerge(variant: Variant, ret: Returns, alias: Alias, result: Value, ctx: JsObject)
    returns (failure: Option<Error>)
    modifies ctx
    ensures match MergeWrites(variant, ret, alias, result)
      case Ok(w) => failure == None && ctx.props == old(ctx.props) + w
      case Err(e) => failure == Some(e) && ctx.props == old(ctx.props)
  {
    if alias.AliasEntries? {
      assert Plan(variant, ret, alias) == AliasPlan(alias.entries);
      failure := AssignAliases(alias.entries, result, ctx);
    } else if ReturnsDeclared(ret) {
      if variant == Ts {
        assert Plan(variant, ret, alias) == FieldPlan(ReturnKeys(ret));
        failure := AssignFields(ReturnKeys(ret), result, ctx);
      } else if ret.Many? {
        assert Plan(variant, ret, alias) == FallbackPlan(ret.keys);
        failure := AssignWithFallback(ret.keys, result, ctx);
      } else {
        ctx.Set(ret.key, result);        // context[returns] = result;
        failure := None;
        ApplyPlanStep([Write(ret.key, Whole)], 0, result);
        assert [Write(ret.key, Whole)][..1] == [Write(ret.key, Whole)];
        assert MergeWrites(variant, ret, alias, result) == Ok(map[ret.key := result]);
      }
    } else {
      failure := None;
      assert ctx.props == old(ctx.props) + map[];
    }
  }

  /** One more child of a group, read off the group's prefixes. */
  lemma EvalGroupStep(variant: Variant, cs: seq<Step>, i: nat, snapshot: Context, cmd: CommandFn)
    requires i < |cs|
    ensures EvalGroup(variant, cs[..i + 1], snapshot, cmd) ==
      match EvalGroup(variant, cs[..i], snapshot, cmd)
      case Err(e) => Err(e)
      case Ok(g) =>
        match Eval(variant, cs[i], snapshot, cmd)
        case Err(e) => Err(e)
        case Ok(o) => Ok(GroupOutcome(g.values + [o.value], g.writes + o.writes))
  {
    assert cs[..i + 1][..i] == cs[..i];
  }

  /** An error in some child is the group's error (the first failing child in
      list order). */
  lemma {:induction false} EvalGroupPrefixErr(variant: Variant, cs: seq<Step>, i: nat, snapshot: Context, cmd: CommandFn)
    requires i <= |cs| && EvalGroup(variant, cs[..i], snapshot, cmd).Err?
    ensures EvalGroup(variant, cs, snapshot, cmd) == EvalGroup(variant, cs[..i], snapshot, cmd)
    decreases |cs| - i
  {
    if i < |cs| {
      assert cs[..i + 1][..i] == cs[..i];
      EvalGroupPrefixErr(variant, cs, i + 1, snapshot, cmd);
    } else {
      assert cs[..i] == cs;
    }
  }

  /** `runStep`: run the step, then fold its result into the context. */
  method RunStep(variant: Variant, step: Step, snapshot: Context, ctx: JsObject, cmd: CommandFn)
    returns (r: Result<Value>)
    modifies ctx
    ensures match Eval(variant, step, snapshot, cmd)
      case Ok(o) => r == Ok(o.value) && ctx.props == old(ctx.props) + o.writes
      case Err(e) => r == Err(e) && (!step.Parallel? ==> ctx.props == old(ctx.props))
    decreases step, 1
  {
    var result: Value;
    ghost var pw: Context := map[];   // the writes of a parallel group's children
    if step.Series? {
      var s := SeriesValue(variant, step, snapshot, cmd);
      if s.Err? {
        return Err(s.error);
      }
      result := s.value;
    } else if step.Parallel? || step.ParallelNoCommands? {
      var p := RunParallel(variant, step, snapshot, ctx, cmd);
      if p.Err? {
        return Err(p.error);
      }
      result := p.value;
      pw := EvalParallel(variant, step, snapshot, cmd).value.writes;
    } else {
      return Err(Thrown("Unknown step type: " + step.typeName));
    }
    var failure := ApplyMerge(variant, step.ret, step.alias, result, ctx);
    if failure.Some? {
      return Err(failure.value);
    }
    WritesAssoc(old(ctx.props), pw, MergeWrites(variant, step.ret, step.alias, result).value);
    return Ok(result);
  }

  /** `runParallel`: every child is started against the context as it stood on
      entry; their writes land in the shared context in child order. */
  method RunParallel(variant: Variant, step: Step, snapshot: Context, ctx: JsObject, cmd: CommandFn)
    returns (r: Result<Value>)
    requires step.Parallel? || step.ParallelNoCommands?
    modifies ctx
    ensures match EvalParallel(variant, step, snapshot, cmd)
      case Ok(o) => r == Ok(o.value) && ctx.props == old(ctx.props) + o.writes
      case Err(e) => r == Err(e) && (step.ParallelNoCommands? ==> ctx.props == old(ctx.props))
    decreases step, 0
  {
    if step.ParallelNoCommands? {
      if variant == Js {
        return Err(TypeError);       // step.commands.map of undefined
      }
      assert ctx.props == old(ctx.props) + map[];
      return Ok(Arr([]));            // (step.commands || []).map(...)
    }
    var cs := step.commands;
    var results: seq<Value> := [];
    ghost var writes: Context := map[];
    for i := 0 to |cs|
      invariant EvalGroup(variant, cs[..i], snapshot, cmd) == Ok(GroupOutcome(results, writes))
      invariant ctx.props == old(ctx.props) + writes
    {
      EvalGroupStep(variant, cs, i, snapshot, cmd);
      ghost var o := Eval(variant, cs[i], snapshot, cmd);
      var c := RunStep(variant, cs[i], snapshot, ctx, cmd);
      if c.Err? {
        EvalGroupPrefixErr(variant, cs, i + 1, snapshot, cmd);
        return Err(c.error);
      }
      WritesAssoc(old(ctx.props), writes, o.value.writes);
      writes := writes + o.value.writes;
      results := results + [c.value];
    }
    assert cs[..|cs|] == cs;
    return Ok(Arr(Flatten(results)));
  }

  lemma {:induction false} RunStepsPrefixErr(variant: Variant, steps: seq<Step>, i: nat, ctx: Context, cmd: CommandFn)
    requires i <= |steps| && RunSteps(variant, steps[..i], ctx, cmd).Err?
    ensures RunSteps(variant, steps, ctx, cmd) == RunSteps(variant, steps[..i], ctx, cmd)
    decreases |steps| - i
  {
    if i < |steps| {
      assert steps[..i + 1][..i] == steps[..i];
      RunStepsPrefixErr(variant, steps, i + 1, ctx, cmd);
    } else {
      assert steps[..i] == steps;
    }
  }

  /** `runWorkflow`: warn about duplicate returns, copy the initial context,
      run the steps in order on the copy and return it. The caller's object is
      never written (this method modifies nothing it did not allocate); the
      duplicate check does not influence the run. */
  method RunWorkflow(variant: Variant, workflow: seq<Step>, initial: JsObject, cmd: CommandFn)
    returns (duplicates: set<string>, r: Result<JsObject>)
    ensures duplicates == Duplicates(SeriesKeys(workflow))
    ensures match RunSteps(variant, workflow, initial.props, cmd)
      case Ok(c) => r.Ok? && fresh(r.value) && r.value.props == c
      case Err(e) => r == Err(e)
  {
    duplicates := CheckDuplicateReturns(workflow);
    var context := new JsObject(initial.props);
    for i := 0 to |workflow|
      invariant RunSteps(variant, workflow[..i], initial.props, cmd) == Ok(context.props)
    {
      assert workflow[..i + 1][..i] == workflow[..i];
      var s := RunStep(variant, workflow[i], context.props, context, cmd);
      if s.Err? {
        RunStepsPrefixErr(variant, workflow, i + 1, initial.props, cmd);
        return duplicates, Err(s.error);
      }
    }
    assert workflow[..|workflow|] == workflow;
    return duplicates, Ok(context);
  }
}
