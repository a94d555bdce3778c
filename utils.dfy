/**
 * The two helpers of `services/utils.service.js` and
 * `services/utils.service.ts`: `filterUndefined`, which copies an object
 * without its `undefined` entries, and `getLoaderExtension`, which picks the
 * file extension the service loaders import.
 */
module Utils {
  import opened JsValues

  /** `Object.fromEntries(Object.entries(obj).filter(([_, v]) => v !== undefined))`.
      `Object.entries` of null or undefined throws. The result is a new plain
      object; the argument, a value, is never changed. */
  function FilterUndefined(obj: Value): (r: Result<Value>)
    ensures r.Err? <==> Nullish(obj)
    ensures r.Err? ==> r.error == TypeError
    ensures r.Ok? ==> r.value.Obj?
  {
    if Nullish(obj) then Err(TypeError)
    else
      var entries := OwnProps(obj);
      Ok(Obj(map k | k in entries && entries[k] != Undefined :: entries[k]))
  }

  /** The result holds exactly the entries of the argument whose value is not
      `undefined`, with their values. */
  lemma FilterUndefinedEntries(obj: Value)
    requires !Nullish(obj)
    ensures forall k :: k in FilterUndefined(obj).value.props <==>
      k in OwnProps(obj) && OwnProps(obj)[k] != Undefined
    ensures forall k :: k in FilterUndefined(obj).value.props ==>
      FilterUndefined(obj).value.props[k] == OwnProps(obj)[k]
  {
  }

  /** The test is strict (`!== undefined`): `null`, `0`, `""` and `false`
      are kept. */
  lemma FalsyValuesKept(obj: Value, k: string)
    requires !Nullish(obj) && k in OwnProps(obj)
    requires OwnProps(obj)[k] in {Null, Num(0), Str(""), Bool(false)}
    ensures k in FilterUndefined(obj).value.props
    ensures FilterUndefined(obj).value.props[k] == OwnProps(obj)[k]
    ensures !Truthy(FilterUndefined(obj).value.props[k])
  {
  }

  /** Filtering an object with no `undefined` entry copies it unchanged, and
      an object with one is changed. */
  lemma FilterUndefinedFixedPoints(m: map<string, Value>)
    ensures FilterUndefined(Obj(m)) == Ok(Obj(m)) <==> forall k :: k in m ==> m[k] != Undefined
  {
    if forall k :: k in m ==> m[k] != Undefined {
      assert FilterUndefined(Obj(m)).value.props == m;
    } else {
      var k :| k in m && m[k] == Undefined;
      assert k !in FilterUndefined(Obj(m)).value.props;
    }
  }

  /** Filtering twice is filtering once. */
  lemma FilterUndefinedIdempotent(obj: Value)
    requires !Nullish(obj)
    ensures FilterUndefined(FilterUndefined(obj).value) == FilterUndefined(obj)
  {
    var m := FilterUndefined(obj).value.props;
    FilterUndefinedFixedPoints(m);
  }

  /** `process.env`: variable name to value. */
  type Env = map<string, string>

  /** `process.env.TS_NODE || process.env.NODE_ENV === "development" ? "ts" : "js"`:
      an unset or empty `TS_NODE` is falsy. */
  function LoaderExtension(env: Env): (ext: string)
    ensures ext == "ts" || ext == "js"
  {
    if ("TS_NODE" in env && env["TS_NODE"] != "") || ("NODE_ENV" in env && env["NODE_ENV"] == "development")
    then "ts"
    else "js"
  }

  /** The value a variable reads as: `undefined` when unset. */
  function EnvValue(env: Env, name: string): Value
  {
    if name in env then Str(env[name]) else Undefined
  }

  /** `"ts"` exactly when `TS_NODE` is truthy or `NODE_ENV` is
      `"development"`; `"js"` in every other case. Only those two variables
      matter. */
  lemma LoaderExtensionSpec(env: Env)
    ensures LoaderExtension(env) == "ts" <==>
      Truthy(EnvValue(env, "TS_NODE")) || EnvValue(env, "NODE_ENV") == Str("development")
    ensures LoaderExtension(env) == "js" <==>
      !Truthy(EnvValue(env, "TS_NODE")) && EnvValue(env, "NODE_ENV") != Str("development")
  {
  }

  /** Two environments that agree on `TS_NODE` and `NODE_ENV` pick the same
      extension. */
  lemma LoaderExtensionOnlyTwoVariables(env1: Env, env2: Env)
    requires EnvValue(env1, "TS_NODE") == EnvValue(env2, "TS_NODE")
    requires EnvValue(env1, "NODE_ENV") == EnvValue(env2, "NODE_ENV")
    ensures LoaderExtension(env1) == LoaderExtension(env2)
  {
    LoaderExtensionSpec(env1);
    LoaderExtensionSpec(env2);
  }
}
