/**
 * The configuration merge of `config.js` and `config.ts`: `deepMerge` walks
 * the source's keys with `for...in` and, per key, either merges two nested
 * objects recursively or overwrites the target's property with the source's
 * value. The module's export is the base configuration overlaid by the local
 * overrides.
 *
 * `MergeInto` and `MergeValue` state what a merge produces; `DeepMerge` is
 * the in-place walk, proved to end in that state.
 */
module Config {
  import opened JsValues

  /** `target[key]` on a plain object: a missing property reads as
      `undefined`. */
  function Lookup(t: map<string, Value>, k: string): (v: Value)
    ensures k in t ==> v == t[k]
    ensures k !in t ==> v == Undefined
  {
    if k in t then t[k] else Undefined
  }

  /** `typeof target[key] === "object" && !Array.isArray(target[key])`:
      an object or, because `typeof null` is `"object"`, null. */
  predicate Mergeable(tv: Value)
  {
    TypeOf(tv) == "object" && !tv.Arr?
  }

  /** What `target[key]` holds after the merge step for `key`, given its
      value `tv` before and the source's value `sv`. */
  function MergeValue(tv: Value, sv: Value): (r: Result<Value>)
    ensures r.Err? ==> r.error == TypeError
    decreases sv, 2
  {
    if Mergeable(tv) && TypeOf(sv) == "object" then
      if tv.Null? then
        // deepMerge(null, sv) reads null[key] for the first key of sv
        if OwnProps(sv) == map[] then Ok(Null) else Err(TypeError)
      else
        var m :- MergeInto(tv.props, sv);
        Ok(Obj(m))
    else Ok(sv)
  }

  /** The properties of an object `t` after `deepMerge(t, source)`. */
  function MergeInto(t: map<string, Value>, source: Value): (r: Result<map<string, Value>>)
    ensures r.Err? ==> r.error == TypeError
    decreases source, 1
  {
    match source
    case Obj(m) =>
      if exists k :: k in m && MergeValue(Lookup(t, k), m[k]).Err? then Err(TypeError)
      else Ok(map k | k in t.Keys + m.Keys :: if k in m then MergeValue(Lookup(t, k), m[k]).value else t[k])
    case Arr(es) =>
      if exists i :: 0 <= i < |es| && MergeValue(Lookup(t, NatToString(i)), es[i]).Err? then Err(TypeError)
      else Ok(t + MergeIndexed(t, es))
    case Str(cs) => Ok(t + IndexProps(cs, (c: char) => Str([c])))
    case _ => Ok(t)
  }

  /** The merged values of an array source's elements, under their index
      keys. */
  function MergeIndexed(t: map<string, Value>, es: seq<Value>): (r: map<string, Value>)
    requires forall i :: 0 <= i < |es| ==> MergeValue(Lookup(t, NatToString(i)), es[i]).Ok?
    ensures forall i :: 0 <= i < |es| ==>
      NatToString(i) in r && r[NatToString(i)] == MergeValue(Lookup(t, NatToString(i)), es[i]).value
    ensures forall k :: k in r ==> exists i :: 0 <= i < |es| && k == NatToString(i)
    decreases Arr(es), 0
  {
    NatToStringInjective();
    map i | 0 <= i < |es| :: NatToString(i) := MergeValue(Lookup(t, NatToString(i)), es[i]).value
  }

  /** The properties of `t` once the keys in `done` of the source's
      properties `s` have been merged. */
  function Overlay(t: map<string, Value>, s: map<string, Value>, done: set<string>): map<string, Value>
    requires done <= s.Keys
    requires forall k :: k in done ==> MergeValue(Lookup(t, k), s[k]).Ok?
  {
    map k | k in t.Keys + done :: if k in done then MergeValue(Lookup(t, k), s[k]).value else t[k]
  }

  /** A merge fails exactly when some key's step fails, and otherwise every
      enumerable key of the source has been merged and nothing else changed. */
  lemma MergeIntoSpec(t: map<string, Value>, source: Value)
    ensures MergeInto(t, source).Ok? <==>
      forall k :: k in OwnProps(source) ==> MergeValue(Lookup(t, k), OwnProps(source)[k]).Ok?
    ensures MergeInto(t, source).Ok? ==>
      MergeInto(t, source).value == Overlay(t, OwnProps(source), OwnProps(source).Keys)
  {
    match source
    case Obj(m) =>
    case Arr(es) => MergeIntoSpecArr(t, es);
    case Str(cs) => MergeIntoSpecStr(t, cs);
    case _ =>
      assert MergeInto(t, source) == Ok(t);
      assert OwnProps(source) == map[];
  }

  lemma MergeIntoSpecArr(t: map<string, Value>, es: seq<Value>)
    ensures MergeInto(t, Arr(es)).Ok? <==>
      forall k :: k in OwnProps(Arr(es)) ==> MergeValue(Lookup(t, k), OwnProps(Arr(es))[k]).Ok?
    ensures MergeInto(t, Arr(es)).Ok? ==>
      MergeInto(t, Arr(es)).value == Overlay(t, OwnProps(Arr(es)), OwnProps(Arr(es)).Keys)
  {
    if forall i :: 0 <= i < |es| ==> MergeValue(Lookup(t, NatToString(i)), es[i]).Ok? {
      MergeIndexedOverlay(t, es);
    } else {
      var i :| 0 <= i < |es| && MergeValue(Lookup(t, NatToString(i)), es[i]).Err?;
      assert MergeInto(t, Arr(es)).Err?;
      ArrProps(es);
      var k := NatToString(i);
      assert k in OwnProps(Arr(es)) && MergeValue(Lookup(t, k), OwnProps(Arr(es))[k]).Err?;
    }
  }

  lemma MergeIndexedOverlay(t: map<string, Value>, es: seq<Value>)
    requires forall i :: 0 <= i < |es| ==> MergeValue(Lookup(t, NatToString(i)), es[i]).Ok?
    ensures forall k :: k in OwnProps(Arr(es)) ==> MergeValue(Lookup(t, k), OwnProps(Arr(es))[k]).Ok?
    ensures MergeInto(t, Arr(es)) == Ok(Overlay(t, OwnProps(Arr(es)), OwnProps(Arr(es)).Keys))
  {
    var s := OwnProps(Arr(es));
    var r2 := MergeIndexed(t, es);
    MergeIndexedSlots(t, es);
    OverlayUnion(t, s, r2);
    assert MergeInto(t, Arr(es)) == Ok(t + r2);
  }

  /** The index-keyed merge holds, under each of the array's keys, that key's
      merged value. */
  lemma MergeIndexedSlots(t: map<string, Value>, es: seq<Value>)
    requires forall i :: 0 <= i < |es| ==> MergeValue(Lookup(t, NatToString(i)), es[i]).Ok?
    ensures MergeIndexed(t, es).Keys == OwnProps(Arr(es)).Keys
    ensures forall k :: k in OwnProps(Arr(es)) ==>
      MergeValue(Lookup(t, k), OwnProps(Arr(es))[k]) == Ok(MergeIndexed(t, es)[k])
  {
    var s := OwnProps(Arr(es));
    var r2 := MergeIndexed(t, es);
    ArrProps(es);
    forall k | k in s ensures k in r2 && MergeValue(Lookup(t, k), s[k]) == Ok(r2[k]) {
      var i :| 0 <= i < |es| && k == NatToString(i);
      assert s[k] == es[i];
      assert k in r2 && r2[k] == MergeValue(Lookup(t, k), es[i]).value;
    }
    forall k | k in r2 ensures k in s {
      var i :| 0 <= i < |es| && k == NatToString(i);
      assert NatToString(i) in s;
    }
  }

  lemma MergeIntoSpecStr(t: map<string, Value>, cs: string)
    ensures MergeInto(t, Str(cs)).Ok?
    ensures forall k :: k in OwnProps(Str(cs)) ==> MergeValue(Lookup(t, k), OwnProps(Str(cs))[k]).Ok?
    ensures MergeInto(t, Str(cs)).value == Overlay(t, OwnProps(Str(cs)), OwnProps(Str(cs)).Keys)
  {
    var s := OwnProps(Str(cs));
    StrProps(cs);
    forall k | k in s ensures MergeValue(Lookup(t, k), s[k]) == Ok(s[k]) {
      var i :| 0 <= i < |cs| && k == NatToString(i);
      assert s[k] == Str([cs[i]]);
    }
    OverlayUnion(t, s, s);
  }

  /** Merging every key of `s` whose merged values are those of `r2`. */
  lemma OverlayUnion(t: map<string, Value>, s: map<string, Value>, r2: map<string, Value>)
    requires s.Keys == r2.Keys
    requires forall k :: k in s ==> MergeValue(Lookup(t, k), s[k]) == Ok(r2[k])
    ensures Overlay(t, s, s.Keys) == t + r2
  {
  }

  /** Merging one more key of the source. */
  lemma OverlayStep(t: map<string, Value>, s: map<string, Value>, done: set<string>, k: string)
    requires done <= s.Keys && k in s && k !in done
    requires forall j :: j in done + {k} ==> MergeValue(Lookup(t, j), s[j]).Ok?
    ensures Overlay(t, s, done + {k}) == Overlay(t, s, done)[k := MergeValue(Lookup(t, k), s[k]).value]
  {
  }

  /** The properties `t` of a target whose merge with `source` threw
      part-way: only source keys were added, every key outside the source
      keeps its value, and a source key holds its merged value, its old value,
      or (for an object the walk recursed into) a partly merged object. */
  ghost predicate PartlyMerged(t0: map<string, Value>, source: Value, t: map<string, Value>)
    decreases source
  {
    var s := OwnProps(source);
    && t.Keys <= t0.Keys + s.Keys
    && (forall k :: k in t0 && k !in s ==> k in t && t[k] == t0[k])
    && (forall k :: k in t && k in s ==>
          || MergeValue(Lookup(t0, k), s[k]) == Ok(t[k])
          || (k in t0 && t[k] == t0[k])
          || (k in t0 && t0[k].Obj? && t[k].Obj? && s[k] < source &&
              PartlyMerged(t0[k].props, s[k], t[k].props)))
  }

  /** The walk stopped at key `k`, after merging the keys in `done`, leaving
      `after` under `k`: the target is partly merged. */
  lemma OverlayPartlyMerged(t: map<string, Value>, source: Value, done: set<string>, k: string, after: Value)
    requires done <= OwnProps(source).Keys
    requires forall j :: j in done ==> MergeValue(Lookup(t, j), OwnProps(source)[j]).Ok?
    requires k in OwnProps(source) && k in t
    requires || after == t[k]
             || (t[k].Obj? && after.Obj? && OwnProps(source)[k] < source &&
                 PartlyMerged(t[k].props, OwnProps(source)[k], after.props))
    ensures PartlyMerged(t, source, Overlay(t, OwnProps(source), done)[k := after])
  {
  }

  /** `deepMerge(target, source)`: walks the source's enumerable keys (in any
      order: each key's step touches only that key) and updates `target` in
      place; a nested object is merged in a fresh copy that is then stored
      back, also when the nested merge throws part-way. Returns `target`
      itself. */
  method DeepMerge(target: JsObject, source: Value) returns (r: Result<JsObject>)
    modifies target
    ensures match MergeInto(old(target.props), source)
      case Ok(m) => r == Ok(target) && target.props == m
      case Err(e) => r == Err(e) && PartlyMerged(old(target.props), source, target.props)
    decreases source, 1
  {
    ghost var t0 := target.props;
    var s := OwnProps(source);          // for (const key in source)
    var pending := s.Keys;
    ghost var done: set<string> := {};
    MergeIntoSpec(t0, source);
    while pending != {}
      invariant pending + done == s.Keys && pending !! done
      invariant forall k :: k in done ==> MergeValue(Lookup(t0, k), s[k]).Ok?
      invariant target.props == Overlay(t0, s, done)
      decreases pending
    {
      var k :| k in pending;
      OwnPropsChild(source, k);
      var tv := Lookup(target.props, k);
      assert tv == Lookup(t0, k);
      var sv := s[k];
      var merged := sv;                 // target[key] = source[key]
      if Mergeable(tv) && TypeOf(sv) == "object" {
        var nested, after := MergeNested(tv, sv);
        if nested.Err? {
          OverlayPartlyMerged(t0, source, done, k, after);
          target.Set(k, after);
          return Err(nested.error);
        }
        merged := nested.value;
      }
      OverlayStep(t0, s, done, k);
      target.Set(k, merged);
      pending, done := pending - {k}, done + {k};
    }
    return Ok(target);
  }

  /** `deepMerge(target[key], source[key])` for an object (or null) property
      and an object source value: null throws unless the source has no key,
      and an object is merged in a fresh copy whose properties are returned.
      `after` is what the property holds afterwards, on a throw too: null
      stays null, and an object is left partly merged. */
  method MergeNested(tv: Value, sv: Value) returns (r: Result<Value>, after: Value)
    requires Mergeable(tv) && TypeOf(sv) == "object"
    ensures r == MergeValue(tv, sv)
    ensures r.Ok? ==> after == r.value
    ensures r.Err? ==> after == tv || (tv.Obj? && after.Obj? && PartlyMerged(tv.props, sv, after.props))
    decreases sv, 2
  {
    if tv.Null? {
      if OwnProps(sv) != map[] {
        return Err(TypeError), tv;      // null[key]
      }
      return Ok(Null), Null;            // deepMerge(null, {}) leaves null in place
    }
    var nested := new JsObject(tv.props);
    var sub := DeepMerge(nested, sv);
    if sub.Err? {
      return Err(sub.error), Obj(nested.props);
    }
    return Ok(Obj(nested.props)), Obj(nested.props);
  }

  /** The source values the walk reads: a string's are one-character strings,
      and one the walk recurses into is part of the source. */
  lemma OwnPropsChild(source: Value, k: string)
    requires k in OwnProps(source)
    ensures source.Str? ==> OwnProps(source)[k].Str?
    ensures TypeOf(OwnProps(source)[k]) == "object" ==> OwnProps(source)[k] < source
  {
    match source
    case Obj(m) =>
    case Arr(es) =>
      ArrProps(es);
      var i :| 0 <= i < |es| && k == NatToString(i);
    case Str(cs) =>
      StrProps(cs);
      var i :| 0 <= i < |cs| && k == NatToString(i);
  }

  // ---------------------------------------------------------------------
  // What a merge promises
  // ---------------------------------------------------------------------

  /** Keys the source does not enumerate keep their value (or stay absent);
      every key it enumerates ends with that key's merged value. */
  lemma MergeIntoKey(t: map<string, Value>, source: Value, k: string)
    requires MergeInto(t, source).Ok?
    ensures k !in OwnProps(source) ==>
      (k in MergeInto(t, source).value <==> k in t) &&
      (k in t ==> MergeInto(t, source).value[k] == t[k])
    ensures k in OwnProps(source) ==>
      MergeValue(Lookup(t, k), OwnProps(source)[k]).Ok? &&
      k in MergeInto(t, source).value &&
      MergeInto(t, source).value[k] == MergeValue(Lookup(t, k), OwnProps(source)[k]).value
  {
    MergeIntoSpec(t, source);
  }

  /** Merging a source with nothing to enumerate (`{}`, `[]`, `""`, `null`,
      `undefined`, a number) leaves the target as it is. */
  lemma EmptySourceIdentity(t: map<string, Value>, source: Value)
    requires OwnProps(source) == map[]
    ensures MergeInto(t, source) == Ok(t)
  {
    MergeIntoSpec(t, source);
    assert OwnProps(source).Keys == {};
    assert Overlay(t, map[], {}) == t;
  }

  /** Unless both sides are objects (the target's not an array), the
      source's value replaces the target's: arrays, primitives and
      `undefined` are assigned, not merged. */
  lemma MergeValueReplaces(tv: Value, sv: Value)
    requires !Mergeable(tv) || TypeOf(sv) != "object"
    ensures MergeValue(tv, sv) == Ok(sv)
  {
  }

  /** An array target is never merged into, whatever the source value: the
      source value replaces it. */
  lemma ArrayTargetReplaced(es: seq<Value>, sv: Value)
    ensures MergeValue(Arr(es), sv) == Ok(sv)
  {
  }

  /** Two objects are merged recursively: the result is the target object
      with the source merged into it. */
  lemma MergeValueRecurses(tm: map<string, Value>, sv: Value)
    requires sv.Obj? || sv.Arr?
    ensures MergeValue(Obj(tm), sv).Ok? <==> MergeInto(tm, sv).Ok?
    ensures MergeValue(Obj(tm), sv).Ok? ==> MergeValue(Obj(tm), sv).value == Obj(MergeInto(tm, sv).value)
  {
  }

  /** A `null` source value over an object (or over `null`) changes nothing:
      `typeof null` is `"object"` and `for...in` over null visits no key. */
  lemma NullSourceKeepsTarget(tv: Value)
    requires Mergeable(tv)
    ensures MergeValue(tv, Null) == Ok(tv)
  {
    if tv.Obj? {
      EmptySourceIdentity(tv.props, Null);
    }
  }

  /** Merging a non-empty object or array into a `null` property throws:
      the recursive call reads a property of `null`. */
  lemma NullTargetThrows(sv: Value)
    requires TypeOf(sv) == "object" && OwnProps(sv) != map[]
    ensures MergeValue(Null, sv) == Err(TypeError)
  {
  }

  /** Merging a value into itself changes nothing. */
  lemma {:induction false} MergeValueSelf(v: Value)
    ensures MergeValue(v, v) == Ok(v)
    decreases v, 1
  {
    if v.Obj? {
      MergeIntoSelf(v);
    }
  }

  lemma {:induction false} MergeIntoSelf(v: Value)
    requires v.Obj?
    ensures MergeInto(v.props, v) == Ok(v.props)
    decreases v, 0
  {
    var m := v.props;
    forall k | k in m ensures MergeValue(Lookup(m, k), m[k]) == Ok(m[k]) {
      MergeValueSelf(m[k]);
    }
    OverlayUnion(m, m, m);
    assert m + m == m;
    assert OwnProps(v) == m;
    MergeIntoSpec(m, v);
  }

  /** Merging the same source twice is merging it once. */
  lemma {:induction false} MergeValueIdempotent(tv: Value, sv: Value)
    requires MergeValue(tv, sv).Ok?
    ensures MergeValue(MergeValue(tv, sv).value, sv) == MergeValue(tv, sv)
    decreases sv, 2
  {
    if Mergeable(tv) && TypeOf(sv) == "object" {
      if tv.Obj? {
        assert MergeValue(tv, sv) == Ok(Obj(MergeInto(tv.props, sv).value));
        MergeObjectIdempotent(tv.props, sv);
      } else {
        assert tv.Null? && OwnProps(sv) == map[];
        assert MergeValue(tv, sv) == Ok(Null);
      }
    } else {
      assert MergeValue(tv, sv) == Ok(sv);
      MergeValueSelf(sv);
    }
  }

  /** The nested-object case of `MergeValueIdempotent`: merging the source
      again into the merged object changes nothing. */
  lemma {:induction false} MergeObjectIdempotent(tm: map<string, Value>, sv: Value)
    requires TypeOf(sv) == "object" && MergeInto(tm, sv).Ok?
    ensures MergeValue(Obj(MergeInto(tm, sv).value), sv) == Ok(Obj(MergeInto(tm, sv).value))
    decreases sv, 1
  {
    MergeIntoIdempotent(tm, sv);
  }

  lemma {:induction false} MergeIntoIdempotent(t: map<string, Value>, source: Value)
    requires MergeInto(t, source).Ok?
    ensures MergeInto(MergeInto(t, source).value, source) == MergeInto(t, source)
    decreases source, 0
  {
    var s := OwnProps(source);
    var t1 := MergeInto(t, source).value;
    forall k | k in s ensures k in t1 && MergeValue(Lookup(t1, k), s[k]) == Ok(t1[k]) {
      MergeIntoKey(t, source, k);
      OwnPropsChild(source, k);
      if TypeOf(s[k]) == "object" {
        MergeValueIdempotent(Lookup(t, k), s[k]);
      } else {
        MergeValueReplaces(t1[k], s[k]);
        MergeValueReplaces(Lookup(t, k), s[k]);
      }
    }
    RemergeUnchanged(t1, source);
  }

  /** A target that already holds, under every key of the source, the value
      merging that key would give it is a fixed point of the merge. */
  lemma RemergeUnchanged(t1: map<string, Value>, source: Value)
    requires forall k :: k in OwnProps(source) ==>
      k in t1 && MergeValue(Lookup(t1, k), OwnProps(source)[k]) == Ok(t1[k])
    ensures MergeInto(t1, source) == Ok(t1)
  {
    var s := OwnProps(source);
    var r2 := map k | k in s :: t1[k];
    OverlayUnion(t1, s, r2);
    assert t1 + r2 == t1;
    MergeIntoSpec(t1, source);
  }

  // ---------------------------------------------------------------------
  // The exported configuration
  // ---------------------------------------------------------------------

  /** `baseConfig` of `config.js`; the two API keys come from the
      environment (`undefined` when unset). */
  function JsBaseConfig(openaiApiKey: Value, rapidapiKey: Value): map<string, Value>
  {
    map[
      "app" := Obj(map["downloader" := Str("rapidapi-tiktok"), "llm" := Str("openai")]),
      "openai" := Obj(map[
        "apiKey" := openaiApiKey,
        "models" := Obj(map["chat" := Str("gpt-4o"), "transcription" := Str("whisper-1")])]),
      "rapidapi" := Obj(map[
        "tiktok" := Obj(map[
          "apiKey" := rapidapiKey,
          "host" := Str("tiktok-video-downloader-api.p.rapidapi.com"),
          "url" := Str("https://tiktok-video-downloader-api.p.rapidapi.com/media"),
          "outputFile" := Obj(map["prefix" := Str("tiktok_video_"), "ext" := Str("mp4"), "folder" := Str("tmp")])])])]
  }

  /** `baseConfig` of `config.ts`. */
  function TsBaseConfig(): map<string, Value>
  {
    map[
      "app" := Obj(map[
        "ffmpegBin" := Str("C:\\ffmpeg\\bin\\ffmpeg.exe"),
        "ffprobeBin" := Str("C:\\ffmpeg\\bin\\ffprobe.exe"),
        "defaults" := Obj(map[
          "llm" := Str("openai-response"),
          "vision" := Str("openai-vision"),
          "generators" := Obj(map["image" := Str("openai-image")]),
          "extractors" := Obj(map["frame" := Str("ffmpeg-frame"), "transcription" := Str("openai-whisper")]),
          "downloaders" := Obj(map["image" := Str("http-download"), "video" := Str("rapidapi-tiktok")])])])]
  }

  /** The local overrides: the loaded `config.local` module (`None` when it
      cannot be loaded), or `{}`. `config.ts` takes the module's `default`
      export. */
  function LocalConfig(ts: bool, loaded: Option<Value>): (local: Value)
    ensures loaded.None? ==> local == Obj(map[])
  {
    match loaded
    case None => Obj(map[])
    case Some(v) =>
      if !ts then v
      else if Nullish(v) then Obj(map[])   // reading `.default` throws; the catch keeps `{}`
      else Prop(v, "default")
  }

  /** `module.exports = deepMerge(baseConfig, localConfig)` (and the default
      export of `config.ts`): a fresh base object with the local overrides
      merged into it. */
  method ExportedConfig(base: map<string, Value>, local: Value) returns (r: Result<JsObject>)
    ensures match MergeInto(base, local)
      case Ok(m) => r.Ok? && fresh(r.value) && r.value.props == m
      case Err(e) => r == Err(e)
  {
    var baseConfig := new JsObject(base);
    r := DeepMerge(baseConfig, local);
  }

  /** Without a loadable `config.local`, the exported configuration is the
      base configuration. */
  lemma NoLocalConfigIsBase(ts: bool, base: map<string, Value>)
    ensures MergeInto(base, LocalConfig(ts, None)) == Ok(base)
  {
    EmptySourceIdentity(base, LocalConfig(ts, None));
  }

  /** A local override that sets one leaf: `{ p0: { p1: ... { pn: v } } }`. */
  function Override(path: seq<string>, v: Value): Value
  {
    if path == [] then v else Obj(map[path[0] := Override(path[1..], v)])
  }

  /** Every property on the way to the leaf exists and is an object. */
  predicate ObjectsAlong(t: map<string, Value>, path: seq<string>)
    requires path != []
    decreases |path|
  {
    |path| == 1 || (path[0] in t && t[path[0]].Obj? && ObjectsAlong(t[path[0]].props, path[1..]))
  }

  /** `t` with the leaf at `path` set to `v`. */
  function SetPath(t: map<string, Value>, path: seq<string>, v: Value): map<string, Value>
    requires path != [] && ObjectsAlong(t, path)
    decreases |path|
  {
    if |path| == 1 then t[path[0] := v]
    else t[path[0] := Obj(SetPath(t[path[0]].props, path[1..], v))]
  }

  /** Overriding one primitive leaf of a configuration whose path runs
      through objects sets that leaf and changes nothing else: the sibling
      entries at every level keep their base values. */
  lemma {:induction false} OverrideOneLeaf(t: map<string, Value>, path: seq<string>, v: Value)
    requires path != [] && ObjectsAlong(t, path) && TypeOf(v) != "object"
    ensures MergeInto(t, Override(path, v)) == Ok(SetPath(t, path, v))
    decreases |path|
  {
    var p0 := path[0];
    var child := Override(path[1..], v);
    var s := map[p0 := child];
    assert Override(path, v) == Obj(s);
    var x: Value;
    if |path| == 1 {
      assert child == v;
      MergeValueReplaces(Lookup(t, p0), v);
      x := v;
    } else {
      var tp := t[p0].props;
      OverrideOneLeaf(tp, path[1..], v);
      assert child.Obj?;
      x := Obj(SetPath(tp, path[1..], v));
      assert MergeValue(Lookup(t, p0), child) == Ok(x);
    }
    assert MergeValue(Lookup(t, p0), s[p0]) == Ok(x);
    MergeIntoSpec(t, Obj(s));
    OverlayStep(t, s, {}, p0);
    assert Overlay(t, s, {}) == t;
    assert {} + {p0} == s.Keys;
  }

  /** Setting `app.defaults.llm` in `config.local` of the TypeScript
      configuration: the exported configuration is the base one with that
      entry replaced. */
  lemma TsOverrideDefaultLlm(llm: string)
    ensures MergeInto(TsBaseConfig(), Override(["app", "defaults", "llm"], Str(llm))).Ok?
    ensures MergeInto(TsBaseConfig(), Override(["app", "defaults", "llm"], Str(llm))).value
      == SetPath(TsBaseConfig(), ["app", "defaults", "llm"], Str(llm))
  {
    var path := ["app", "defaults", "llm"];
    var base := TsBaseConfig();
    assert path[1..] == ["defaults", "llm"] && path[1..][1..] == ["llm"];
    assert ObjectsAlong(base["app"].props["defaults"].props, ["llm"]);
    assert ObjectsAlong(base["app"].props, ["defaults", "llm"]);
    assert ObjectsAlong(base, path);
    OverrideOneLeaf(base, path, Str(llm));
  }
}
