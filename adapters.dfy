/**
 * The command adapters under `commands/`: each takes `{ id, services,
 * params }`, picks a service key (`services.<role>`, else a configured
 * default), validates `params` field by field in a fixed order, and only
 * then loads the service, calls one of its functions and wraps the output
 * under one field.
 *
 * `Invoke` is that behaviour once, driven by an `Adapter` description; each
 * adapter is written out as its source file reads and proved equal to
 * `Invoke` on its description, so the lemmas about `Invoke` hold for all.
 */
module Adapters {
  import opened JsValues

  /** A loaded service module: calling its function `name` with `args`
      gives the awaited output or the rejection. */
  type Module = (string, seq<Value>) -> Result<Value>

  /** A service loader (`load(key)` / `require(...)(key)`): the module
      registered under a key, or the loader's error. */
  type Loader = Value -> Result<Module>

  /** How `services.<role>` is read: `services.x` (`.js` adapters, which
      throws on a null `services`) or `services?.x` (`.ts` adapters). */
  datatype Access = Plain | Optional

  /** One required field of `params` and the message thrown without it. */
  datatype Check =
    | Required(field: string, message: string)        // if (!field) throw
    | NonEmptyArray(field: string, message: string)   // if (!f || !Array.isArray(f) || f.length === 0) throw

  /** What distinguishes one adapter from another. */
  datatype Adapter = Adapter(
    access: Access,
    role: string,            // the `services` property naming the service key
    keyMessage: string,      // thrown when no key is given and no default is set
    checks: seq<Check>,      // in source order
    call: string,            // the service function called
    args: seq<string>,       // the `params` fields passed to it, in order
    resultField: string)     // the field of the returned object

  const ParamsMessage := "params object is required"

  /** `"services.<role> is required (or set a default in config.app.defaults.<path>)"` */
  function KeyMessage(role: string, path: string): string
  {
    "services." + role + " is required (or set a default in config.app.defaults." + path + ")"
  }

  /** `services?.role || DEFAULT` (a `.ts` adapter). */
  function KeyTs(services: Value, role: string, defaultKey: Value): Value
  {
    Or(if Nullish(services) then Undefined else Prop(services, role), defaultKey)
  }

  /** `services.role || DEFAULT` after `services = {}` (a `.js` adapter): the
      default applies to `undefined` only, and a null `services` throws. */
  function KeyJs(services: Value, role: string, defaultKey: Value): Result<Value>
  {
    var named :- Get(if services.Undefined? then Obj(map[]) else services, role);
    Ok(Or(named, defaultKey))
  }

  /** `!params || typeof params !== "object"` rejects; arrays pass. */
  predicate ParamsOk(params: Value)
  {
    Truthy(params) && TypeOf(params) == "object"
  }

  /** `!f || !Array.isArray(f) || f.length === 0` */
  predicate MissingArray(v: Value)
  {
    !Truthy(v) || !v.Arr? || |v.elems| == 0
  }

  predicate Passes(c: Check, params: Value)
    requires ParamsOk(params)
  {
    match c
    case Required(f, _) => Truthy(Prop(params, f))
    case NonEmptyArray(f, _) => !MissingArray(Prop(params, f))
  }

  /** The message of the first check that fails, in order. */
  function FirstFailure(checks: seq<Check>, params: Value): Option<string>
    requires ParamsOk(params)
  {
    if checks == [] then None
    else if !Passes(checks[0], params) then Some(checks[0].message)
    else FirstFailure(checks[1..], params)
  }

  /** The first failing check of at most four, spelled out: the checks run
      in their order and the first that fails decides. */
  lemma ChecksInOrder(checks: seq<Check>)
    requires |checks| <= 4
    ensures forall params | ParamsOk(params) ::
      FirstFailure(checks, params) == (
        if |checks| > 0 && !Passes(checks[0], params) then Some(checks[0].message)
        else if |checks| > 1 && !Passes(checks[1], params) then Some(checks[1].message)
        else if |checks| > 2 && !Passes(checks[2], params) then Some(checks[2].message)
        else if |checks| > 3 && !Passes(checks[3], params) then Some(checks[3].message)
        else None)
  {
    forall params | ParamsOk(params)
      ensures FirstFailure(checks, params) ==
        if |checks| > 0 && !Passes(checks[0], params) then Some(checks[0].message)
        else if |checks| > 1 && !Passes(checks[1], params) then Some(checks[1].message)
        else if |checks| > 2 && !Passes(checks[2], params) then Some(checks[2].message)
        else if |checks| > 3 && !Passes(checks[3], params) then Some(checks[3].message)
        else None
    {
      if |checks| > 0 {
        var rest := checks[1..];
        assert FirstFailure(checks, params) == if !Passes(checks[0], params) then Some(checks[0].message) else FirstFailure(rest, params);
        if |rest| > 0 {
          assert FirstFailure(rest, params) == if !Passes(rest[0], params) then Some(rest[0].message) else FirstFailure(rest[1..], params);
          if |rest[1..]| > 0 {
            var r2 := rest[1..];
            assert FirstFailure(r2, params) == if !Passes(r2[0], params) then Some(r2[0].message) else FirstFailure(r2[1..], params);
            if |r2[1..]| > 0 {
              var r3 := r2[1..];
              assert FirstFailure(r3, params) == if !Passes(r3[0], params) then Some(r3[0].message) else FirstFailure(r3[1..], params);
              assert r3[1..] == [];
            }
          }
        }
      }
    }
  }

  /** The values of the given `params` fields. */
  function ArgValues(fields: seq<string>, params: Value): seq<Value>
    requires ParamsOk(params)
  {
    seq(|fields|, i requires 0 <= i < |fields| => Prop(params, fields[i]))
  }

  /** The argument list of at most four fields, spelled out. */
  lemma ArgsInOrder(fields: seq<string>)
    requires |fields| <= 4
    ensures forall params | ParamsOk(params) :: ArgValues(fields, params) == Spelled(fields, params)
  {
    forall params | ParamsOk(params)
      ensures ArgValues(fields, params) == Spelled(fields, params)
    {
      var vs := ArgValues(fields, params);
      if |fields| == 1 {
        assert vs == [vs[0]];
      } else if |fields| == 2 {
        assert vs == [vs[0], vs[1]];
      } else if |fields| == 3 {
        assert vs == [vs[0], vs[1], vs[2]];
      } else if |fields| == 4 {
        assert vs == [vs[0], vs[1], vs[2], vs[3]];
      }
    }
  }

  function Spelled(fields: seq<string>, params: Value): seq<Value>
    requires |fields| <= 4 && ParamsOk(params)
  {
    if |fields| == 0 then []
    else if |fields| == 1 then [Prop(params, fields[0])]
    else if |fields| == 2 then [Prop(params, fields[0]), Prop(params, fields[1])]
    else if |fields| == 3 then [Prop(params, fields[0]), Prop(params, fields[1]), Prop(params, fields[2])]
    else [Prop(params, fields[0]), Prop(params, fields[1]), Prop(params, fields[2]), Prop(params, fields[3])]
  }

  function ServiceKey(a: Adapter, services: Value, defaultKey: Value): Result<Value>
  {
    match a.access
    case Optional => Ok(KeyTs(services, a.role, defaultKey))
    case Plain => KeyJs(services, a.role, defaultKey)
  }

  /** An adapter applied to `input` (the `{ id, services, params }` object),
      with the configured default key and the service loader. */
  function Invoke(a: Adapter, input: Value, defaultKey: Value, loader: Loader): Result<Value>
  {
    if Nullish(input) then Err(TypeError) else
    var services, params := Prop(input, "services"), Prop(input, "params");
    var key :- ServiceKey(a, services, defaultKey);
    if !Truthy(key) then Err(Thrown(a.keyMessage))
    else if !ParamsOk(params) then Err(Thrown(ParamsMessage))
    else match FirstFailure(a.checks, params)
      case Some(m) => Err(Thrown(m))
      case None =>
        var service :- loader(key);
        var out :- service(a.call, ArgValues(a.args, params));
        Ok(Obj(map[a.resultField := out]))
  }

  // ---------------------------------------------------------------------
  // What every adapter promises
  // ---------------------------------------------------------------------

  /** Everything an adapter checks before it loads its service. */
  predicate Valid(a: Adapter, input: Value, defaultKey: Value)
  {
    && !Nullish(input)
    && ServiceKey(a, Prop(input, "services"), defaultKey).Ok?
    && Truthy(ServiceKey(a, Prop(input, "services"), defaultKey).value)
    && ParamsOk(Prop(input, "params"))
    && forall i :: 0 <= i < |a.checks| ==> Passes(a.checks[i], Prop(input, "params"))
  }

  /** `FirstFailure` names the earliest failing check, and there is none
      exactly when every check passes. */
  lemma {:induction false} FirstFailureSpec(checks: seq<Check>, params: Value)
    requires ParamsOk(params)
    ensures FirstFailure(checks, params).None? <==> forall i :: 0 <= i < |checks| ==> Passes(checks[i], params)
    ensures FirstFailure(checks, params).Some? ==>
      exists i :: 0 <= i < |checks| && !Passes(checks[i], params) &&
        FirstFailure(checks, params).value == checks[i].message &&
        forall j :: 0 <= j < i ==> Passes(checks[j], params)
  {
    if checks != [] {
      FirstFailureSpec(checks[1..], params);
      if FirstFailure(checks, params).Some? && Passes(checks[0], params) {
        var i :| 0 <= i < |checks[1..]| && !Passes(checks[1..][i], params) &&
          FirstFailure(checks[1..], params).value == checks[1..][i].message &&
          forall j :: 0 <= j < i ==> Passes(checks[1..][j], params);
        assert forall j :: 0 <= j < i + 1 ==> Passes(checks[j], params) by {
          forall j | 0 <= j < i + 1 ensures Passes(checks[j], params) {
            if j > 0 { assert checks[j] == checks[1..][j - 1]; }
          }
        }
      }
      if forall i :: 0 <= i < |checks[1..]| ==> Passes(checks[1..][i], params) {
        if Passes(checks[0], params) {
          forall i | 0 <= i < |checks| ensures Passes(checks[i], params) {
            if i > 0 { assert checks[i] == checks[1..][i - 1]; }
          }
        }
      } else {
        var i :| 0 <= i < |checks[1..]| && !Passes(checks[1..][i], params);
        assert !Passes(checks[i + 1], params);
      }
    }
  }

  /** Nothing is loaded before validation: while some check fails, the
      outcome is the same whatever the loader and its services would do. */
  lemma ValidationPrecedesLoading(a: Adapter, input: Value, defaultKey: Value, l1: Loader, l2: Loader)
    requires !Valid(a, input, defaultKey)
    ensures Invoke(a, input, defaultKey, l1) == Invoke(a, input, defaultKey, l2)
    ensures Invoke(a, input, defaultKey, l1).Err?
  {
    if !Nullish(input) && ParamsOk(Prop(input, "params")) {
      FirstFailureSpec(a.checks, Prop(input, "params"));
    }
  }

  /** The order of the errors: an unreadable `input` or `services`, then the
      missing key, then a bad `params`, then the first failing field. */
  lemma ErrorOrder(a: Adapter, input: Value, defaultKey: Value, loader: Loader)
    ensures Nullish(input) ==> Invoke(a, input, defaultKey, loader) == Err(TypeError)
    ensures (!Nullish(input) && ServiceKey(a, Prop(input, "services"), defaultKey).Ok? &&
      !Truthy(ServiceKey(a, Prop(input, "services"), defaultKey).value)) ==>
        Invoke(a, input, defaultKey, loader) == Err(Thrown(a.keyMessage))
    ensures (!Nullish(input) && ServiceKey(a, Prop(input, "services"), defaultKey).Ok? &&
      Truthy(ServiceKey(a, Prop(input, "services"), defaultKey).value) && !ParamsOk(Prop(input, "params"))) ==>
        Invoke(a, input, defaultKey, loader) == Err(Thrown(ParamsMessage))
    ensures (!Nullish(input) && ServiceKey(a, Prop(input, "services"), defaultKey).Ok? &&
      Truthy(ServiceKey(a, Prop(input, "services"), defaultKey).value) && ParamsOk(Prop(input, "params"))) ==>
        forall i :: (0 <= i < |a.checks| && !Passes(a.checks[i], Prop(input, "params")) &&
          (forall j :: 0 <= j < i ==> Passes(a.checks[j], Prop(input, "params")))) ==>
            Invoke(a, input, defaultKey, loader) == Err(Thrown(a.checks[i].message))
  {
    if !Nullish(input) && ParamsOk(Prop(input, "params")) {
      var params := Prop(input, "params");
      forall i | 0 <= i < |a.checks| && !Passes(a.checks[i], params) &&
          (forall j :: 0 <= j < i ==> Passes(a.checks[j], params))
        ensures FirstFailure(a.checks, params) == Some(a.checks[i].message)
      {
        FirstFailureAt(a.checks, params, i);
      }
    }
  }

  /** The check that fails after all earlier ones pass is the one reported. */
  lemma {:induction false} FirstFailureAt(checks: seq<Check>, params: Value, i: int)
    requires ParamsOk(params) && 0 <= i < |checks| && !Passes(checks[i], params)
    requires forall j :: 0 <= j < i ==> Passes(checks[j], params)
    ensures FirstFailure(checks, params) == Some(checks[i].message)
    decreases i
  {
    if i > 0 {
      assert Passes(checks[0], params);
      assert checks[1..][i - 1] == checks[i];
      forall j | 0 <= j < i - 1 ensures Passes(checks[1..][j], params) {
        assert checks[1..][j] == checks[j + 1];
      }
      FirstFailureAt(checks[1..], params, i - 1);
    }
  }

  /** After validation: the service under the key is loaded and its function
      called with the named fields, and the output is returned under the
      adapter's field, alone; a loader or service failure is passed on. */
  lemma ValidInvokes(a: Adapter, input: Value, defaultKey: Value, loader: Loader)
    requires Valid(a, input, defaultKey)
    ensures
      var key := ServiceKey(a, Prop(input, "services"), defaultKey).value;
      var params := Prop(input, "params");
      Invoke(a, input, defaultKey, loader) ==
        match loader(key)
        case Err(e) => Err(e)
        case Ok(service) =>
          match service(a.call, ArgValues(a.args, params))
          case Err(e) => Err(e)
          case Ok(out) => Ok(Obj(map[a.resultField := out]))
  {
    FirstFailureSpec(a.checks, Prop(input, "params"));
  }

  /** A `.ts` adapter reads `services?.role`: a null or missing `services`
      falls back to the default instead of throwing; a `.js` adapter throws
      on a null `services`. */
  lemma ServicesAccess(a: Adapter, input: Value, defaultKey: Value, loader: Loader)
    requires !Nullish(input) && Prop(input, "services").Null?
    ensures a.access.Optional? ==> ServiceKey(a, Null, defaultKey) == Ok(defaultKey)
    ensures a.access.Plain? ==> Invoke(a, input, defaultKey, loader) == Err(TypeError)
  {
  }

  // ---------------------------------------------------------------------
  // The adapters
  // ---------------------------------------------------------------------

  const DownloadVideos := Adapter(Optional, "videoDownloader",
    KeyMessage("videoDownloader", "downloaders.video"),
    [NonEmptyArray("urls", "params.urls (array) is required"), Required("outputDir", "params.outputDir is required")],
    "downloadVideos", ["urls", "outputDir", "opts"], "videoPaths")

  const ExtractFrames := Adapter(Optional, "frameExtractor",
    KeyMessage("frameExtractor", "extractors.frame"),
    [Required("videoPath", "params.videoPath is required"), Required("outputDir", "params.outputDir is required")],
    "extractFrames", ["videoPath", "outputDir", "opts"], "framePaths")

  const DownloadImages := Adapter(Optional, "imageDownloader",
    KeyMessage("imageDownloader", "downloaders.image"),
    [NonEmptyArray("urls", "params.urls (array) is required"), Required("outputDir", "params.outputDir is required")],
    "downloadImages", ["urls", "outputDir"], "imagePaths")

  const TranscribeAudio := Adapter(Optional, "transcriber",
    KeyMessage("transcriber", "extractors.transcription"),
    [Required("file", "params.file is required")],
    "transcribe", ["file", "opts"], "transcription")

  const AnalyzeImages := Adapter(Optional, "vision",
    KeyMessage("vision", "vision"),
    [NonEmptyArray("images", "params.images (array) is required")],
    "analyzeImages", ["images", "opts"], "analysis")

  const DescribeImages := Adapter(Optional, "vision",
    KeyMessage("vision", "vision"),
    [NonEmptyArray("images", "params.images (array) is required")],
    "describeImages", ["images", "opts"], "description")

  const GenerateImage := Adapter(Optional, "imageGenerator",
    KeyMessage("imageGenerator", "generators.image"),
    [Required("prompt", "params.prompt is required"), Required("opts", "params.opts is required")],
    "getImage", ["prompt", "opts"], "images")

  const GenerateImageResponse := Adapter(Optional, "imageGenerator",
    KeyMessage("imageGenerator", "generators.image"),
    [Required("opts", "params.opts is required")],
    "getImageResponse", ["opts"], "images")

  const GetResponse := Adapter(Optional, "llm",
    KeyMessage("llm", "llm"),
    [Required("input", "params.input is required"), Required("opts", "params.opts is required")],
    "getResponse", ["input", "opts"], "response")

  const GenerateResponse := Adapter(Optional, "llm",
    KeyMessage("llm", "llm"),
    [Required("opts", "params.opts is required")],
    "getResponse", ["opts"], "response")

  /** The intended `generateVideo.run.ts`: `getVideo(input, opts)`. A missing
      `input` is reported as `params.prompt is required`, as the file does. */
  const GenerateVideo := Adapter(Optional, "videoGenerator",
    KeyMessage("videoGenerator", "generators.video"),
    [Required("input", "params.prompt is required"), Required("opts", "params.opts is required")],
    "getVideo", ["input", "opts"], "videos")

  const GenerateVideoFromImage := Adapter(Optional, "image2videoConverter",
    KeyMessage("image2videoConverter", "converters.imageToVideo"),
    [Required("image", "params.image is required"), Required("prompt", "params.prompt is required"),
     Required("outputDir", "params.outputDir is required"), Required("opts", "params.opts is required")],
    "imageToVideo", ["image", "prompt", "outputDir", "opts"], "videoPaths")

  /** `commands/downloadVideos.run.ts` */
  function DownloadVideosTs(input: Value, defaultKey: Value, load: Loader): (r: Result<Value>)
    ensures r == Invoke(DownloadVideos, input, defaultKey, load)
  {
    ChecksInOrder(DownloadVideos.checks);
    ArgsInOrder(DownloadVideos.args);
    if Nullish(input) then Err(TypeError) else
    var services, params := Prop(input, "services"), Prop(input, "params");
    var videoKey := KeyTs(services, "videoDownloader", defaultKey);
    if !Truthy(videoKey) then Err(Thrown(KeyMessage("videoDownloader", "downloaders.video")))
    else if !ParamsOk(params) then Err(Thrown(ParamsMessage))
    else
      var urls, outputDir, opts := Prop(params, "urls"), Prop(params, "outputDir"), Prop(params, "opts");
      if MissingArray(urls) then Err(Thrown("params.urls (array) is required"))
      else if !Truthy(outputDir) then Err(Thrown("params.outputDir is required"))
      else
        var videoDownloader :- load(videoKey);
        var videoPaths :- videoDownloader("downloadVideos", [urls, outputDir, opts]);
        Ok(Obj(map["videoPaths" := videoPaths]))
  }

  /** `commands/downloadVideos.run.js` */
  function DownloadVideosJs(input: Value, defaultKey: Value, load: Loader): (r: Result<Value>)
    ensures r == Invoke(DownloadVideos.(access := Plain), input, defaultKey, load)
  {
    ChecksInOrder(DownloadVideos.checks);
    ArgsInOrder(DownloadVideos.args);
    if Nullish(input) then Err(TypeError) else
    var services, params := Prop(input, "services"), Prop(input, "params");
    var videoKey :- KeyJs(services, "videoDownloader", defaultKey);
    if !Truthy(videoKey) then Err(Thrown(KeyMessage("videoDownloader", "downloaders.video")))
    else if !ParamsOk(params) then Err(Thrown(ParamsMessage))
    else
      var urls, outputDir, opts := Prop(params, "urls"), Prop(params, "outputDir"), Prop(params, "opts");
      if MissingArray(urls) then Err(Thrown("params.urls (array) is required"))
      else if !Truthy(outputDir) then Err(Thrown("params.outputDir is required"))
      else
        var videoDownloader :- load(videoKey);
        var videoPaths :- videoDownloader("downloadVideos", [urls, outputDir, opts]);
        Ok(Obj(map["videoPaths" := videoPaths]))
  }

  /** `commands/extractFrames.run.ts` */
  function ExtractFramesTs(input: Value, defaultKey: Value, load: Loader): (r: Result<Value>)
    ensures r == Invoke(ExtractFrames, input, defaultKey, load)
  {
    ChecksInOrder(ExtractFrames.checks);
    ArgsInOrder(ExtractFrames.args);
    if Nullish(input) then Err(TypeError) else
    var services, params := Prop(input, "services"), Prop(input, "params");
    var frameKey := KeyTs(services, "frameExtractor", defaultKey);
    if !Truthy(frameKey) then Err(Thrown(KeyMessage("frameExtractor", "extractors.frame")))
    else if !ParamsOk(params) then Err(Thrown(ParamsMessage))
    else
      var videoPath, outputDir, opts := Prop(params, "videoPath"), Prop(params, "outputDir"), Prop(params, "opts");
      if !Truthy(videoPath) then Err(Thrown("params.videoPath is required"))
      else if !Truthy(outputDir) then Err(Thrown("params.outputDir is required"))
      else
        var frameExtractor :- load(frameKey);
        var framePaths :- frameExtractor("extractFrames", [videoPath, outputDir, opts]);
        Ok(Obj(map["framePaths" := framePaths]))
  }

  /** `commands/extractFrames.run.js` */
  function ExtractFramesJs(input: Value, defaultKey: Value, load: Loader): (r: Result<Value>)
    ensures r == Invoke(ExtractFrames.(access := Plain), input, defaultKey, load)
  {
    ChecksInOrder(ExtractFrames.checks);
    ArgsInOrder(ExtractFrames.args);
    if Nullish(input) then Err(TypeError) else
    var services, params := Prop(input, "services"), Prop(input, "params");
    var frameKey :- KeyJs(services, "frameExtractor", defaultKey);
    if !Truthy(frameKey) then Err(Thrown(KeyMessage("frameExtractor", "extractors.frame")))
    else if !ParamsOk(params) then Err(Thrown(ParamsMessage))
    else
      var videoPath, outputDir, opts := Prop(params, "videoPath"), Prop(params, "outputDir"), Prop(params, "opts");
      if !Truthy(videoPath) then Err(Thrown("params.videoPath is required"))
      else if !Truthy(outputDir) then Err(Thrown("params.outputDir is required"))
      else
        var frameExtractor :- load(frameKey);
        var framePaths :- frameExtractor("extractFrames", [videoPath, outputDir, opts]);
        Ok(Obj(map["framePaths" := framePaths]))
  }

  /** `commands/downloadImages.run.ts`: no `opts` is passed. */
  function DownloadImagesTs(input: Value, defaultKey: Value, load: Loader): (r: Result<Value>)
    ensures r == Invoke(DownloadImages, input, defaultKey, load)
  {
    ChecksInOrder(DownloadImages.checks);
    ArgsInOrder(DownloadImages.args);
    if Nullish(input) then Err(TypeError) else
    var services, params := Prop(input, "services"), Prop(input, "params");
    var imageKey := KeyTs(services, "imageDownloader", defaultKey);
    if !Truthy(imageKey) then Err(Thrown(KeyMessage("imageDownloader", "downloaders.image")))
    else if !ParamsOk(params) then Err(Thrown(ParamsMessage))
    else
      var urls, outputDir := Prop(params, "urls"), Prop(params, "outputDir");
      if MissingArray(urls) then Err(Thrown("params.urls (array) is required"))
      else if !Truthy(outputDir) then Err(Thrown("params.outputDir is required"))
      else
        var imageDownloader :- load(imageKey);
        var imagePaths :- imageDownloader("downloadImages", [urls, outputDir]);
        Ok(Obj(map["imagePaths" := imagePaths]))
  }

  /** `commands/downloadImages.run.js` */
  function DownloadImagesJs(input: Value, defaultKey: Value, load: Loader): (r: Result<Value>)
    ensures r == Invoke(DownloadImages.(access := Plain), input, defaultKey, load)
  {
    ChecksInOrder(DownloadImages.checks);
    ArgsInOrder(DownloadImages.args);
    if Nullish(input) then Err(TypeError) else
    var services, params := Prop(input, "services"), Prop(input, "params");
    var imageKey :- KeyJs(services, "imageDownloader", defaultKey);
    if !Truthy(imageKey) then Err(Thrown(KeyMessage("imageDownloader", "downloaders.image")))
    else if !ParamsOk(params) then Err(Thrown(ParamsMessage))
    else
      var urls, outputDir := Prop(params, "urls"), Prop(params, "outputDir");
      if MissingArray(urls) then Err(Thrown("params.urls (array) is required"))
      else if !Truthy(outputDir) then Err(Thrown("params.outputDir is required"))
      else
        var imageDownloader :- load(imageKey);
        var imagePaths :- imageDownloader("downloadImages", [urls, outputDir]);
        Ok(Obj(map["imagePaths" := imagePaths]))
  }

  /** `commands/transcribeAudio.run.ts` */
  function TranscribeAudioTs(input: Value, defaultKey: Value, load: Loader): (r: Result<Value>)
    ensures r == Invoke(TranscribeAudio, input, defaultKey, load)
  {
    ChecksInOrder(TranscribeAudio.checks);
    ArgsInOrder(TranscribeAudio.args);
    if Nullish(input) then Err(TypeError) else
    var services, params := Prop(input, "services"), Prop(input, "params");
    var transcriberKey := KeyTs(services, "transcriber", defaultKey);
    if !Truthy(transcriberKey) then Err(Thrown(KeyMessage("transcriber", "extractors.transcription")))
    else if !ParamsOk(params) then Err(Thrown(ParamsMessage))
    else
      var file, opts := Prop(params, "file"), Prop(params, "opts");
      if !Truthy(file) then Err(Thrown("params.file is required"))
      else
        var transcriber :- load(transcriberKey);
        var transcription :- transcriber("transcribe", [file, opts]);
        Ok(Obj(map["transcription" := transcription]))
  }

  /** `commands/transcribeAudio.run.js` */
  function TranscribeAudioJs(input: Value, defaultKey: Value, load: Loader): (r: Result<Value>)
    ensures r == Invoke(TranscribeAudio.(access := Plain), input, defaultKey, load)
  {
    ChecksInOrder(TranscribeAudio.checks);
    ArgsInOrder(TranscribeAudio.args);
    if Nullish(input) then Err(TypeError) else
    var services, params := Prop(input, "services"), Prop(input, "params");
    var transcriberKey :- KeyJs(services, "transcriber", defaultKey);
    if !Truthy(transcriberKey) then Err(Thrown(KeyMessage("transcriber", "extractors.transcription")))
    else if !ParamsOk(params) then Err(Thrown(ParamsMessage))
    else
      var file, opts := Prop(params, "file"), Prop(params, "opts");
      if !Truthy(file) then Err(Thrown("params.file is required"))
      else
        var transcriber :- load(transcriberKey);
        var transcription :- transcriber("transcribe", [file, opts]);
        Ok(Obj(map["transcription" := transcription]))
  }

  /** `commands/analyzeImages.run.ts` (no `services = {}` default; `?.`
      covers it). */
  function AnalyzeImagesTs(input: Value, defaultKey: Value, load: Loader): (r: Result<Value>)
    ensures r == Invoke(AnalyzeImages, input, defaultKey, load)
  {
    ChecksInOrder(AnalyzeImages.checks);
    ArgsInOrder(AnalyzeImages.args);
    if Nullish(input) then Err(TypeError) else
    var services, params := Prop(input, "services"), Prop(input, "params");
    var visionKey := KeyTs(services, "vision", defaultKey);
    if !Truthy(visionKey) then Err(Thrown(KeyMessage("vision", "vision")))
    else if !ParamsOk(params) then Err(Thrown(ParamsMessage))
    else
      var images, opts := Prop(params, "images"), Prop(params, "opts");
      if MissingArray(images) then Err(Thrown("params.images (array) is required"))
      else
        var vision :- load(visionKey);
        var analysis :- vision("analyzeImages", [images, opts]);
        Ok(Obj(map["analysis" := analysis]))
  }

  /** `commands/analyzeImages.run.js` */
  function AnalyzeImagesJs(input: Value, defaultKey: Value, load: Loader): (r: Result<Value>)
    ensures r == Invoke(AnalyzeImages.(access := Plain), input, defaultKey, load)
  {
    ChecksInOrder(AnalyzeImages.checks);
    ArgsInOrder(AnalyzeImages.args);
    if Nullish(input) then Err(TypeError) else
    var services, params := Prop(input, "services"), Prop(input, "params");
    var visionKey :- KeyJs(services, "vision", defaultKey);
    if !Truthy(visionKey) then Err(Thrown(KeyMessage("vision", "vision")))
    else if !ParamsOk(params) then Err(Thrown(ParamsMessage))
    else
      var images, opts := Prop(params, "images"), Prop(params, "opts");
      if MissingArray(images) then Err(Thrown("params.images (array) is required"))
      else
        var vision :- load(visionKey);
        var analysis :- vision("analyzeImages", [images, opts]);
        Ok(Obj(map["analysis" := analysis]))
  }

  /** `commands/describeImages.run.ts` */
  function DescribeImagesTs(input: Value, defaultKey: Value, load: Loader): (r: Result<Value>)
    ensures r == Invoke(DescribeImages, input, defaultKey, load)
  {
    ChecksInOrder(DescribeImages.checks);
    ArgsInOrder(DescribeImages.args);
    if Nullish(input) then Err(TypeError) else
    var services, params := Prop(input, "services"), Prop(input, "params");
    var visionKey := KeyTs(services, "vision", defaultKey);
    if !Truthy(visionKey) then Err(Thrown(KeyMessage("vision", "vision")))
    else if !ParamsOk(params) then Err(Thrown(ParamsMessage))
    else
      var images, opts := Prop(params, "images"), Prop(params, "opts");
      if MissingArray(images) then Err(Thrown("params.images (array) is required"))
      else
        var vision :- load(visionKey);
        var description :- vision("describeImages", [images, opts]);
        Ok(Obj(map["description" := description]))
  }

  /** `commands/generateImage.run.ts` */
  function GenerateImageTs(input: Value, defaultKey: Value, load: Loader): (r: Result<Value>)
    ensures r == Invoke(GenerateImage, input, defaultKey, load)
  {
    ChecksInOrder(GenerateImage.checks);
    ArgsInOrder(GenerateImage.args);
    if Nullish(input) then Err(TypeError) else
    var services, params := Prop(input, "services"), Prop(input, "params");
    var imageKey := KeyTs(services, "imageGenerator", defaultKey);
    if !Truthy(imageKey) then Err(Thrown(KeyMessage("imageGenerator", "generators.image")))
    else if !ParamsOk(params) then Err(Thrown(ParamsMessage))
    else
      var prompt, opts := Prop(params, "prompt"), Prop(params, "opts");
      if !Truthy(prompt) then Err(Thrown("params.prompt is required"))
      else if !Truthy(opts) then Err(Thrown("params.opts is required"))
      else
        var imageGenerator :- load(imageKey);
        var images :- imageGenerator("getImage", [prompt, opts]);
        Ok(Obj(map["images" := images]))
  }

  /** `commands/generateImageResponse.run.ts` */
  function GenerateImageResponseTs(input: Value, defaultKey: Value, load: Loader): (r: Result<Value>)
    ensures r == Invoke(GenerateImageResponse, input, defaultKey, load)
  {
    ChecksInOrder(GenerateImageResponse.checks);
    ArgsInOrder(GenerateImageResponse.args);
    if Nullish(input) then Err(TypeError) else
    var services, params := Prop(input, "services"), Prop(input, "params");
    var imageKey := KeyTs(services, "imageGenerator", defaultKey);
    if !Truthy(imageKey) then Err(Thrown(KeyMessage("imageGenerator", "generators.image")))
    else if !ParamsOk(params) then Err(Thrown(ParamsMessage))
    else
      var opts := Prop(params, "opts");
      if !Truthy(opts) then Err(Thrown("params.opts is required"))
      else
        var imageGenerator :- load(imageKey);
        var images :- imageGenerator("getImageResponse", [opts]);
        Ok(Obj(map["images" := images]))
  }

  /** `commands/generateImageResponse.run.js` */
  function GenerateImageResponseJs(input: Value, defaultKey: Value, load: Loader): (r: Result<Value>)
    ensures r == Invoke(GenerateImageResponse.(access := Plain), input, defaultKey, load)
  {
    ChecksInOrder(GenerateImageResponse.checks);
    ArgsInOrder(GenerateImageResponse.args);
    if Nullish(input) then Err(TypeError) else
    var services, params := Prop(input, "services"), Prop(input, "params");
    var imageKey :- KeyJs(services, "imageGenerator", defaultKey);
    if !Truthy(imageKey) then Err(Thrown(KeyMessage("imageGenerator", "generators.image")))
    else if !ParamsOk(params) then Err(Thrown(ParamsMessage))
    else
      var opts := Prop(params, "opts");
      if !Truthy(opts) then Err(Thrown("params.opts is required"))
      else
        var imageGenerator :- load(imageKey);
        var images :- imageGenerator("getImageResponse", [opts]);
        Ok(Obj(map["images" := images]))
  }

  /** `commands/getResponse.run.ts` */
  function GetResponseTs(input: Value, defaultKey: Value, load: Loader): (r: Result<Value>)
    ensures r == Invoke(GetResponse, input, defaultKey, load)
  {
    ChecksInOrder(GetResponse.checks);
    ArgsInOrder(GetResponse.args);
    if Nullish(input) then Err(TypeError) else
    var services, params := Prop(input, "services"), Prop(input, "params");
    var llmKey := KeyTs(services, "llm", defaultKey);
    if !Truthy(llmKey) then Err(Thrown(KeyMessage("llm", "llm")))
    else if !ParamsOk(params) then Err(Thrown(ParamsMessage))
    else
      var input_, opts := Prop(params, "input"), Prop(params, "opts");
      if !Truthy(input_) then Err(Thrown("params.input is required"))
      else if !Truthy(opts) then Err(Thrown("params.opts is required"))
      else
        var llm :- load(llmKey);
        var response :- llm("getResponse", [input_, opts]);
        Ok(Obj(map["response" := response]))
  }

  /** `commands/generateResponse.run.ts` */
  function GenerateResponseTs(input: Value, defaultKey: Value, load: Loader): (r: Result<Value>)
    ensures r == Invoke(GenerateResponse, input, defaultKey, load)
  {
    ChecksInOrder(GenerateResponse.checks);
    ArgsInOrder(GenerateResponse.args);
    if Nullish(input) then Err(TypeError) else
    var services, params := Prop(input, "services"), Prop(input, "params");
    var llmKey := KeyTs(services, "llm", defaultKey);
    if !Truthy(llmKey) then Err(Thrown(KeyMessage("llm", "llm")))
    else if !ParamsOk(params) then Err(Thrown(ParamsMessage))
    else
      var opts := Prop(params, "opts");
      if !Truthy(opts) then Err(Thrown("params.opts is required"))
      else
        var llm :- load(llmKey);
        var response :- llm("getResponse", [opts]);
        Ok(Obj(map["response" := response]))
  }

  /** `commands/generateResponse.run.js` */
  function GenerateResponseJs(input: Value, defaultKey: Value, load: Loader): (r: Result<Value>)
    ensures r == Invoke(GenerateResponse.(access := Plain), input, defaultKey, load)
  {
    ChecksInOrder(GenerateResponse.checks);
    ArgsInOrder(GenerateResponse.args);
    if Nullish(input) then Err(TypeError) else
    var services, params := Prop(input, "services"), Prop(input, "params");
    var llmKey :- KeyJs(services, "llm", defaultKey);
    if !Truthy(llmKey) then Err(Thrown(KeyMessage("llm", "llm")))
    else if !ParamsOk(params) then Err(Thrown(ParamsMessage))
    else
      var opts := Prop(params, "opts");
      if !Truthy(opts) then Err(Thrown("params.opts is required"))
      else
        var llm :- load(llmKey);
        var response :- llm("getResponse", [opts]);
        Ok(Obj(map["response" := response]))
  }

  /** `commands/generateVideoFromImage.run.ts` */
  function GenerateVideoFromImageTs(input: Value, defaultKey: Value, load: Loader): (r: Result<Value>)
    ensures r == Invoke(GenerateVideoFromImage, input, defaultKey, load)
  {
    ChecksInOrder(GenerateVideoFromImage.checks);
    ArgsInOrder(GenerateVideoFromImage.args);
    if Nullish(input) then Err(TypeError) else
    var services, params := Prop(input, "services"), Prop(input, "params");
    var converterKey := KeyTs(services, "image2videoConverter", defaultKey);
    if !Truthy(converterKey) then Err(Thrown(KeyMessage("image2videoConverter", "converters.imageToVideo")))
    else if !ParamsOk(params) then Err(Thrown(ParamsMessage))
    else
      var image, prompt := Prop(params, "image"), Prop(params, "prompt");
      var outputDir, opts := Prop(params, "outputDir"), Prop(params, "opts");
      if !Truthy(image) then Err(Thrown("params.image is required"))
      else if !Truthy(prompt) then Err(Thrown("params.prompt is required"))
      else if !Truthy(outputDir) then Err(Thrown("params.outputDir is required"))
      else if !Truthy(opts) then Err(Thrown("params.opts is required"))
      else
        var image2videoConverter :- load(converterKey);
        var videoPaths :- image2videoConverter("imageToVideo", [image, prompt, outputDir, opts]);
        Ok(Obj(map["videoPaths" := videoPaths]))
  }

  // ---------------------------------------------------------------------
  // generateVideo.run.ts
  // ---------------------------------------------------------------------

  /** `commands/generateVideo.run.ts` as written: after validation and
      loading, the call `getVideo(prompt, opts)` names `prompt`, which is not
      declared in the module, so evaluating the argument throws a
      ReferenceError before the service is called. */
  function GenerateVideoTsAsWritten(input: Value, defaultKey: Value, load: Loader): (r: Result<Value>)
    ensures r.Err?
  {
    if Nullish(input) then Err(TypeError) else
    var services, params := Prop(input, "services"), Prop(input, "params");
    var videoKey := KeyTs(services, "videoGenerator", defaultKey);
    if !Truthy(videoKey) then Err(Thrown(KeyMessage("videoGenerator", "generators.video")))
    else if !ParamsOk(params) then Err(Thrown(ParamsMessage))
    else
      var input_, opts := Prop(params, "input"), Prop(params, "opts");
      if !Truthy(input_) then Err(Thrown("params.prompt is required"))
      else if !Truthy(opts) then Err(Thrown("params.opts is required"))
      else
        var videoGenerator :- load(videoKey);
        Err(ReferenceError("prompt"))
  }

  /** `commands/generateVideo.run.ts` as intended: the validated `input` is
      the prompt passed to `getVideo`. */
  function GenerateVideoTs(input: Value, defaultKey: Value, load: Loader): (r: Result<Value>)
    ensures r == Invoke(GenerateVideo, input, defaultKey, load)
  {
    ChecksInOrder(GenerateVideo.checks);
    ArgsInOrder(GenerateVideo.args);
    if Nullish(input) then Err(TypeError) else
    var services, params := Prop(input, "services"), Prop(input, "params");
    var videoKey := KeyTs(services, "videoGenerator", defaultKey);
    if !Truthy(videoKey) then Err(Thrown(KeyMessage("videoGenerator", "generators.video")))
    else if !ParamsOk(params) then Err(Thrown(ParamsMessage))
    else
      var input_, opts := Prop(params, "input"), Prop(params, "opts");
      if !Truthy(input_) then Err(Thrown("params.prompt is required"))
      else if !Truthy(opts) then Err(Thrown("params.opts is required"))
      else
        var videoGenerator :- load(videoKey);
        var videos :- videoGenerator("getVideo", [input_, opts]);
        Ok(Obj(map["videos" := videos]))
  }

  /** The two agree on every input the validation rejects and on every
      loader failure; where the written file can only throw the
      ReferenceError, the intended one calls the service. */
  lemma GenerateVideoDiscrepancy(input: Value, defaultKey: Value, load: Loader)
    ensures !Valid(GenerateVideo, input, defaultKey) ==>
      GenerateVideoTsAsWritten(input, defaultKey, load) == GenerateVideoTs(input, defaultKey, load)
    ensures Valid(GenerateVideo, input, defaultKey) ==>
      var key := KeyTs(Prop(input, "services"), "videoGenerator", defaultKey);
      && (load(key).Err? ==> GenerateVideoTsAsWritten(input, defaultKey, load) == GenerateVideoTs(input, defaultKey, load))
      && (load(key).Ok? ==> GenerateVideoTsAsWritten(input, defaultKey, load) == Err(ReferenceError("prompt")))
  {
    GenerateVideoValid(input, defaultKey);
  }

  /** What validation asks of a `generateVideo` request, field by field. */
  lemma GenerateVideoValid(input: Value, defaultKey: Value)
    ensures Valid(GenerateVideo, input, defaultKey) <==>
      && !Nullish(input)
      && Truthy(KeyTs(Prop(input, "services"), "videoGenerator", defaultKey))
      && ParamsOk(Prop(input, "params"))
      && Truthy(Prop(Prop(input, "params"), "input"))
      && Truthy(Prop(Prop(input, "params"), "opts"))
  {
    var checks := GenerateVideo.checks;
    assert |checks| == 2;
    assert checks[0] == Required("input", "params.prompt is required");
    assert checks[1] == Required("opts", "params.opts is required");
  }

  /** A concrete run: a valid request with a working video service fails as
      written and returns the service's videos as intended. */
  lemma GenerateVideoCounterexample()
    ensures
      var input := Obj(map[
        "id" := Str("v1"),
        "services" := Obj(map[]),
        "params" := Obj(map["input" := Str("a cat"), "opts" := Obj(map[])])]);
      var load: Loader := (key: Value) => Ok((name: string, args: seq<Value>) => Ok(Arr([Str("video.mp4")])));
      && GenerateVideoTsAsWritten(input, Str("runway"), load) == Err(ReferenceError("prompt"))
      && GenerateVideoTs(input, Str("runway"), load) == Ok(Obj(map["videos" := Arr([Str("video.mp4")])]))
  {
    var input := Obj(map[
      "id" := Str("v1"),
      "services" := Obj(map[]),
      "params" := Obj(map["input" := Str("a cat"), "opts" := Obj(map[])])]);
    var params := Obj(map["input" := Str("a cat"), "opts" := Obj(map[])]);
    assert Prop(input, "params") == params;
    assert Prop(input, "services") == Obj(map[]);
    assert Prop(params, "input") == Str("a cat");
    assert Prop(params, "opts") == Obj(map[]);
  }
}
