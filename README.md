# orchestrate-js core, modelled in Dafny

orchestrate-js runs workflows, which are trees of steps. A `series` step resolves its `params` against a shared context and calls a command. A `parallel` step runs its child steps and flattens their results one level. After each step, `runStep` writes the result into the context, as the step's `returns` / `returnsAlias` declarations direct. Before the first step, a pre-pass warns about duplicate `returns` keys. The two runners, `runner.js` and `runner.ts`, differ in how they merge results and in one params check.

Around the runners sit four other pieces:
- The configuration: a base object that `deepMerge` overlays in place with local overrides.
- Two small helpers: `filterUndefined` and `getLoaderExtension`.
- The command adapters (`commands/*.run.ts|js`). Each one validates `{ id, services, params }`, picks a service key, loads the service, calls it, and wraps the output under one field.

The model has seven modules:

| file | module | what it holds |
|---|---|---|
| `js_values.dfy` | `JsValues` | JavaScript values (`undefined`, `null`, booleans, integers, strings, arrays, objects) and the few operations the core uses: truthiness, `typeof`, `\|\|`, `??`, property reads that throw on `null`/`undefined`, and the array and string index properties. It also defines `JsObject`, a mutable object. |
| `workflow.dfy` | `Workflow` | The step tree and the duplicate-return checker. The checker is a class whose `seen`/`duplicates` sets its methods fill in loops. |
| `runner.dfy` | `Runner` | The runners. `Eval` and `RunSteps` are the specification: a step's value and the context writes it makes. `RunStep`, `RunParallel`, `RunWorkflow` and the assignment loops are the imperative methods. They update one shared context object and are proved against that specification. |
| `runner_props.dfy` | `RunnerProperties` | The merge rules of both runners, the parallel flattening, disjoint groups, and how steps compose. |
| `config.dfy` | `Config` | `MergeInto` specifies `deepMerge`. `DeepMerge` is the in-place, recursive method, proved against it. The file also holds the two base configurations and the exported configuration. |
| `utils.dfy` | `Utils` | `filterUndefined` and `getLoaderExtension`. |
| `adapters.dfy` | `Adapters` | One generic `Invoke`, driven by an adapter description. Eighteen adapter files are written out as they read and proved equal to `Invoke` on their own descriptions. `commands/generateVideo.run.ts` is written out twice: once as it reads, where it never succeeds, and once corrected, proved equal to `Invoke`. |

Outside effects are parameters:
- A command is an oracle from (command name, resolved params) to a result or a rejection (`Runner.CommandFn`).
- A service loader is an oracle from a key to a module (`Adapters.Loader`). A service is a function from (function name, arguments) to an output or a rejection.
- The environment is a map (`Utils.Env`).
- The loaded `config.local` is an `Option<Value>`.
- The configured default service key of each adapter is a parameter.

## Model

| member | source | states |
|---|---|---|
| Workflow.DuplicatesSpec | runner.js:21-24 | The duplicates the walk collects are exactly the keys that occur more than once in the visited list (multiset count > 1). |
| Workflow.SeenSpec | runner.js:21-24 | The `seen` set the walk builds holds exactly the visited keys. |
| Workflow.DuplicateChecker.Visit | runner.js:21-24 | One key of the loop: it joins `duplicates` exactly when it is already in `seen`, then joins `seen`. The visited list grows by that key, and both sets stay equal to what the walk over the list collects. |
| Workflow.DuplicateChecker.CheckStep | runner.js:32-36 | The dispatch on `type`: a series step is checked, a parallel step is walked, and any other step is skipped. The visited list grows by exactly the step's keys. |
| Workflow.SeriesKeysAppend | runner.js:40-46 | The keys visited over a concatenation of steps are the keys of the first part followed by those of the second. |
| Workflow.DuplicateChecker.CheckSeries | runner.js:16-26 | Checking a series step appends its `returns` keys, in order, to the keys seen, and keeps `duplicates` equal to the set of keys seen more than once. |
| Workflow.DuplicateChecker.CheckParallel | runner.js:28-38 | Checking a parallel step visits the series steps below it, recursing through `commands`. A missing `commands` contributes nothing, and so do unknown-type children. |
| Workflow.CheckDuplicateReturns | runner.js:12-55 | The reported set is exactly the keys that occur more than once in the traversal-order list of series `returns` keys (multiset count > 1). It returns this set and never fails. In `runner.ts` (lines 19-61): The TypeScript check has the same semantics: only series `returns` count, it recurses through `commands`, and it only reports. |
| Runner.ReadSource | runner.js:89-95 | Reading `result[name]` (or `result[name] ?? result[i]`) fails, with a TypeError, exactly when the result is `null` or `undefined`. Storing the whole result never fails. |
| Runner.ApplyPlanErr | runner.js:87-99 | Merging a result fails exactly when the result is nullish and some assignment reads a property of it, and the error is a TypeError. |
| Runner.ApplyPlanKeys | runner.js:87-99 | A successful merge writes exactly the declared target keys. |
| Runner.ApplyPlanValues | runner.js:87-99 | The value of each target is the one read by its last assignment: later writes to the same key win. |
| Runner.ApplyPlanPrefixErr | runner.js:93-95 | Once an assignment throws, the later ones do not change the outcome. |
| Runner.AssignAliases | runner.js:88-90 | The loop over the alias entries writes into the context object exactly what `AliasPlan` prescribes, or stops with the TypeError and leaves the context untouched. |
| Runner.AssignWithFallback | runner.js:93-95 | The `forEach` over an array `returns` writes into the context object exactly what `FallbackPlan` prescribes, or stops with the TypeError and leaves the context untouched. |
| Runner.AssignFields | runner.ts:114-117 | The loop over the normalised key list writes into the context object exactly what `FieldPlan` prescribes, or stops with the TypeError and leaves the context untouched. |
| Runner.ApplyMerge | runner.js:87-99 | After a step, the context object becomes the old context overlaid with the step's merge writes. An object `returnsAlias` wins over `returns`, and a string `returns` stores the whole result. The merge fails exactly as `MergeWrites` does. In `runner.ts` (lines 109-118): In the TypeScript variant, `returns` becomes a key list and each key gets `result[key]`, with no positional fallback. |
| Runner.EvalGroupPrefixErr | runner.js:68-70 | If a child rejects, the group rejects with the first rejection in child order. |
| Runner.RunStep | runner.js:75-102 | Running a step returns the step's value. It updates the shared context to the old context overlaid with the step's writes (`Eval`), or rejects with `Eval`'s error. A rejected series or unknown-type step leaves the context untouched. An unknown type throws `Unknown step type: <type>`. In `runner.ts` (lines 95-120): In the TypeScript variant, the same holds, with the params-shape check in `runSeries` and the key-list merge. |
| Runner.RunParallel | runner.js:67-73 | The group's value is its children's values in child order, flattened one level. The context receives the children's writes in child order. A missing `commands` is a TypeError. In `runner.ts` (lines 85-93): In `runner.ts`, a missing `commands` is an empty group whose value is `[]`. |
| Runner.RunStepsPrefixErr | runner.js:114-129 | After a step rejects, no later step changes the outcome. |
| Runner.RunWorkflow | runner.js:110-131 | The duplicate report is computed first. The run works on a fresh copy of the initial context, leaving the caller's object untouched, runs the steps in order, and returns the copy. Its contents are `RunSteps`, and a failing step's error is returned. In `runner.ts` (lines 128-138): The TypeScript `runWorkflow` behaves the same on its variant. |
| RunnerProperties.AliasTakesPrecedence | runner.js:87-90 | With an object `returnsAlias`, whatever `returns` says:<br>- the merge succeeds exactly when the result is not nullish or there are no entries;<br>- a failure is a TypeError;<br>- exactly the `to` keys are written;<br>- the last entry for a key gives `result[from]`. In `runner.ts` (lines 109-112): The same holds for the TypeScript runner, since the lemma covers both variants. |
| RunnerProperties.JsArrayReturns | runner.js:92-95 | For an array `returns` in `runner.js`:<br>- the merge succeeds exactly when the result is not nullish or there are no keys;<br>- exactly the listed keys are written;<br>- a key's value is `result[key] ?? result[i]`, where `i` is its last position. |
| RunnerProperties.JsArrayReturnsPositional | runner.js:94 | For an array result whose elements lack the key, the key receives the element at its position, or `undefined` past the end. |
| RunnerProperties.JsStringReturns | runner.js:96-98 | A string `returns` stores the entire result under that key and writes nothing else, even for a nullish result. |
| RunnerProperties.TsReturns | runner.ts:113-118 | For a `returns` in `runner.ts`:<br>- the merge succeeds exactly when the result is not nullish or there are no keys;<br>- exactly the keys in the list are written;<br>- each gets `result[key]`, with no fallback. A string `returns` therefore stores a field, not the whole result. |
| RunnerProperties.NoDeclarationNoWrites | runner.js:87-99 | A step with neither declaration leaves the context unchanged. |
| RunnerProperties.EvalWrites | runner.js:87-99 | The keys a successful step writes are exactly its declared targets, collected over the whole subtree. Keys not named in a declaration are never modified. |
| RunnerProperties.EvalGroupWrites | runner.js:67-73 | A parallel group writes exactly the union of its children's keys. |
| RunnerProperties.FlattenAppend | runner.js:72 | `flat()` distributes over concatenation. |
| RunnerProperties.FlattenNoArrays | runner.js:72 | Without array results, `flat()` is the identity. |
| RunnerProperties.FlattenArrays | runner.js:72 | An illustration of `FlattenAppend` on two array results: they are spliced together in child order. |
| RunnerProperties.EvalGroupLength | runner.js:68-72 | A successful group has exactly one value per child. |
| RunnerProperties.EvalGroupValues | runner.js:68-72 | The values of a successful group are, in child order, the value of each child, evaluated against the group-entry context. |
| RunnerProperties.DisjointGroupWrites | runner.js:68-70 | When the children of a group write pairwise distinct keys, each key receives the value written by the child that writes it. |
| RunnerProperties.TsParamsCheckedFirst | runner.ts:69-80 | A series step whose resolved params are not a truthy object with `id` and `params` throws `Command params must be in the form { id, services, params }`. This happens before the command is consulted, whatever the command would do. |
| RunnerProperties.ParamsReachCommand | runner.js:57-65 | The command receives the resolved params: the value of the `params` function on the context, or the static value. In `runner.ts` this holds once the shape check passes. |
| RunnerProperties.RunStepsAppend | runner.js:114-129 | Running `a + b` is running `a`, then running `b` on the resulting context. An error in `a` stops the run. |
| RunnerProperties.UnknownStepStopsRun | runner.js:83-85 | A step of unknown type rejects the run with `Unknown step type: <type>`, and no later step runs. |
| Config.MergeIntoSpec | config.js:34-47 | `deepMerge` succeeds exactly when every source property merges. The result is the target with each source key overlaid by its merged value. |
| Config.MergeIntoKey | config.js:35-44 | Keys absent from the source are unchanged, and so is their absence. Each source key receives the merged value of the target's and the source's values. |
| Config.DeepMerge | config.js:34-47 | The in-place `for…in` loop turns the target object's properties into `MergeInto` of the old ones and returns that same target object. It recurses into nested objects. It fails exactly as `MergeInto` does. When it throws, the target is left partly merged. Only source keys were added, and every key outside the source keeps its value. Each source key holds its merged value, its old value, or a nested object that is itself partly merged: the nested `deepMerge` changes it in place before it throws. In `config.ts` (lines 38-51): The TypeScript `deepMerge` is the same loop. |
| Config.MergeNested | config.js:37-41 | The recursive call for an object (or `null`) property and an object source value yields exactly `MergeValue`. That is the merged object, or `null` left as is when the source has no keys, or the TypeError of reading a property of `null`. It also returns what the property holds afterwards. On success that is the merged value. On a throw it is `null` unchanged, or the object partly merged by the nested walk. |
| Config.EmptySourceIdentity | config.js:35 | Merging a source with no own properties is the identity. |
| Config.MergeValueReplaces | config.js:42-44 | If either the target value is not a non-array object or the source value is not an object, the source value replaces the target value. Primitives, arrays and `undefined` replace wholesale. |
| Config.ArrayTargetReplaced | config.js:37-44 | An array target is always replaced by the source value, because `!Array.isArray(target[key])` sends every array to the assignment branch. |
| Config.MergeValueRecurses | config.js:37-41 | If both values are objects and the target is not an array, the source is merged into the target recursively instead of replacing it. |
| Config.NullSourceKeepsTarget | config.js:37-41 | A `null` source value over a nested object leaves that object untouched. |
| Config.NullTargetThrows | config.ts:40-45 | A `null` target value under a non-empty source object throws a TypeError, because the recursive call writes into `null`. |
| Config.MergeValueSelf | config.ts:40-48 | Merging any value into itself leaves it unchanged. |
| Config.MergeValueIdempotent | config.ts:40-48 | Merging the same source value into a property twice gives what merging it once gives. |
| Config.MergeIntoIdempotent | config.ts:38-51 | Merging the same source a second time changes nothing. |
| Config.LocalConfig | config.js:29-32 | Without a loadable `config.local`, the overrides are `{}`. |
| Config.ExportedConfig | config.js:49 | The exported configuration is a fresh object: the base configuration overlaid by the local overrides. In `config.ts` (line 53): The exported `config` is built the same way. |
| Config.NoLocalConfigIsBase | config.ts:32-36 | Without `config.local`, the exported configuration is the base configuration. |
| Config.OverrideOneLeaf | config.ts:38-51 | An override that sets one primitive leaf along a path of existing objects changes exactly that leaf. |
| Config.TsOverrideDefaultLlm | config.ts:18-30 | Overriding `app.defaults.llm` in the TypeScript base configuration changes only that string. This is an illustration of `OverrideOneLeaf`. |
| Utils.FilterUndefined | services/utils.service.js:8-12 | `filterUndefined` throws (a TypeError) exactly for `null`/`undefined`. Otherwise it returns a new plain object. |
| Utils.FilterUndefinedEntries | services/utils.service.js:8-12 | The result holds exactly the entries whose value is not `undefined`, with their values. |
| Utils.FalsyValuesKept | services/utils.service.js:10 | `null`, `0`, `""` and `false` are kept, because the test is strict. |
| Utils.FilterUndefinedFixedPoints | services/utils.service.ts:6-10 | Filtering returns an object unchanged exactly when it has no `undefined` entry. |
| Utils.FilterUndefinedIdempotent | services/utils.service.ts:6-10 | Filtering twice is filtering once. |
| Utils.LoaderExtension | services/utils.service.ts:16-21 | The extension is `"ts"` or `"js"`. |
| Utils.LoaderExtensionSpec | services/utils.service.ts:16-20 | The result is `"ts"` exactly when `TS_NODE` is truthy or `NODE_ENV === "development"`, and `"js"` in every other case. |
| Utils.LoaderExtensionOnlyTwoVariables | services/utils.service.ts:16-20 | No other variable matters. |
| Adapters.FirstFailureSpec | commands/generateVideoFromImage.run.ts:43-55 | Validation fails exactly when some check fails. The message is that of the earliest failing check, so every check before it passed. |
| Adapters.FirstFailureAt | commands/generateVideoFromImage.run.ts:43-55 | The check that fails after every earlier check passed is the one whose message is thrown. |
| Adapters.ErrorOrder | commands/downloadVideos.run.ts:21-46 | Errors come in this order:<br>1. a nullish input, reported as a TypeError;<br>2. the missing service key, with the adapter's `services.<role> is required …` message;<br>3. a falsy or non-object `params`, reported as `params object is required`;<br>4. the first failing field, with its message. |
| Adapters.ValidationPrecedesLoading | commands/downloadVideos.run.ts:30-54 | While any check fails, the outcome is an error that does not depend on the loader or the service: nothing is loaded before validation. |
| Adapters.ValidInvokes | commands/downloadVideos.run.ts:48-54 | After validation, the adapter loads the service under the key and calls its function with the named `params` fields in order. It returns `{ <field>: output }` and passes on a loader or service failure. |
| Adapters.ServicesAccess | commands/analyzeImages.run.ts:29-34 | A `.ts` adapter reads `services?.<role>`, so a `null` `services` falls back to the default. A `.js` adapter throws a TypeError on it. |
| Adapters.DownloadVideosTs | commands/downloadVideos.run.ts:21-55 | This adapter equals `Invoke` on its description: key `services?.videoDownloader` or the default; `urls` a non-empty array, then `outputDir`; `downloadVideos(urls, outputDir, opts)` returned as `{ videoPaths }`. |
| Adapters.DownloadVideosJs | commands/downloadVideos.run.js:22-48 | It matches the TypeScript adapter, except that it reads `services.videoDownloader` after `services = {}` (default for `undefined` only). |
| Adapters.ExtractFramesTs | commands/extractFrames.run.ts:21-55 | This adapter equals `Invoke` on its description: key `services?.frameExtractor` or the default; `videoPath`, then `outputDir`; `extractFrames(videoPath, outputDir, opts)` returned as `{ framePaths }`. |
| Adapters.ExtractFramesJs | commands/extractFrames.run.js:22-48 | It matches the TypeScript adapter, with plain `services.frameExtractor`. |
| Adapters.DownloadImagesTs | commands/downloadImages.run.ts:21-55 | This adapter equals `Invoke` on its description: key `services?.imageDownloader` or the default; `urls` a non-empty array, then `outputDir`; `downloadImages(urls, outputDir)` (no `opts`) returned as `{ imagePaths }`. |
| Adapters.DownloadImagesJs | commands/downloadImages.run.js:21-47 | It matches the TypeScript adapter, with plain `services.imageDownloader`. |
| Adapters.TranscribeAudioTs | commands/transcribeAudio.run.ts:20-51 | This adapter equals `Invoke` on its description: key `services?.transcriber` or the default; `file` required; `transcribe(file, opts)` returned as `{ transcription }`. |
| Adapters.TranscribeAudioJs | commands/transcribeAudio.run.js:21-46 | It matches the TypeScript adapter, with plain `services.transcriber`. |
| Adapters.AnalyzeImagesTs | commands/analyzeImages.run.ts:20-51 | This adapter equals `Invoke` on its description: key `services?.vision` or the default; `images` a non-empty array; `analyzeImages(images, opts)` returned as `{ analysis }`. |
| Adapters.AnalyzeImagesJs | commands/analyzeImages.run.js:21-44 | It matches the TypeScript adapter, with plain `services.vision`. |
| Adapters.DescribeImagesTs | commands/describeImages.run.ts:21-52 | This adapter equals `Invoke` on its description: key `services?.vision` or the default; `images` a non-empty array; `describeImages(images, opts)` returned as `{ description }`. |
| Adapters.GenerateImageTs | commands/generateImage.run.ts:21-55 | This adapter equals `Invoke` on its description: key `services?.imageGenerator` or the default; `prompt`, then `opts`; `getImage(prompt, opts)` returned as `{ images }`. |
| Adapters.GenerateImageResponseTs | commands/generateImageResponse.run.ts:19-50 | This adapter equals `Invoke` on its description: key `services?.imageGenerator` or the default; `opts` required; `getImageResponse(opts)` returned as `{ images }`. |
| Adapters.GenerateImageResponseJs | commands/generateImageResponse.run.js:20-43 | It matches the TypeScript adapter, with plain `services.imageGenerator`. |
| Adapters.GetResponseTs | commands/getResponse.run.ts:21-55 | This adapter equals `Invoke` on its description: key `services?.llm` or the default; `input`, then `opts`; `getResponse(input, opts)` returned as `{ response }`. |
| Adapters.GenerateResponseTs | commands/generateResponse.run.ts:19-50 | This adapter equals `Invoke` on its description: key `services?.llm` or the default; `opts` required; `getResponse(opts)` returned as `{ response }`. |
| Adapters.GenerateResponseJs | commands/generateResponse.run.js:20-43 | It matches the TypeScript adapter, with plain `services.llm`. |
| Adapters.GenerateVideoFromImageTs | commands/generateVideoFromImage.run.ts:23-64 | This adapter equals `Invoke` on its description: key `services?.image2videoConverter` or the default; `image`, `prompt`, `outputDir`, `opts` in that order; `imageToVideo(image, prompt, outputDir, opts)` returned as `{ videoPaths }`. |
| Adapters.GenerateVideoTsAsWritten | commands/generateVideo.run.ts:21-55 | As written, the adapter never succeeds. |
| Adapters.GenerateVideoTs | commands/generateVideo.run.ts:21-55 | As intended, this adapter equals `Invoke` on its description: key `services?.videoGenerator` or the default; `input` (reported as `params.prompt is required`), then `opts`; `getVideo(input, opts)` returned as `{ videos }`. |
| Adapters.GenerateVideoValid | commands/generateVideo.run.ts:30-46 | A `generateVideo` request passes validation exactly when the input is readable, the key `services?.videoGenerator` or the default is truthy, `params` is a truthy object, and both `input` and `opts` are truthy. |
| Adapters.GenerateVideoDiscrepancy | commands/generateVideo.run.ts:40-52 | Where validation rejects or the loader fails, the written and intended adapters agree. After a successful load, the written one throws a `ReferenceError` for `prompt`. |
| Adapters.GenerateVideoCounterexample | commands/generateVideo.run.ts:48-54 | On a valid request with a working service, the written adapter fails and the intended one returns the videos. |

## Left out

- Logging and console output (`logger.log`, the `console.warn` lines) are not modelled. The duplicate check returns the set of duplicate keys.
- Module resolution is left out because it is file-system and loader behaviour: the `require`/`import` of `commands/<name>.run.*` by path, and the service loaders (dynamic import and duck-type check). They are the `CommandFn` and `Loader` oracles.
- Concurrency is left out. `Promise.all` is modelled sequentially, which matches only where order does not matter:
  - every child's params are resolved against the group-entry context;
  - writes are applied in child order;
  - the first rejection in child order is the one reported.
  Real completion order, and which concurrent rejection wins, are not modelled. Order-sensitive properties are stated only for children with disjoint keys.
- Runner.RunStep: for a parallel step that rejects, the contract states only the error. It does not state the context writes the children made before the rejection, because in the source those writes depend on completion order.
- Runner.RunParallel: for a group that rejects, the contract states only the error. The children's earlier writes are not stated, for the same reason.
- A `parallel` step whose `commands` is truthy but not an array cannot be expressed: `Workflow.Step` holds the children as a sequence. Both runners throw a TypeError from `.map` on such a step (runner.js:68, runner.ts:90), and the duplicate checker skips it.
- Numbers are integers, with no floating point, `NaN` or `-0`.
- JavaScript object details are left out:
  - prototype chains and inherited enumerable keys (`for…in`);
  - getters;
  - the insertion order of keys. Alias entries are a sequence in enumeration order. Context and objects are maps.
- `TypeOf` gives functions no case, because the values the core handles are JSON-like. A `params` function is the `Computed` case of a step, not a value.
- A `params` function that throws is not modelled: `Computed` holds a total function from the context to a value. In the source such a throw would reject the step, at runner.js:62 and at runner.ts:69, before the shape check.
- `DeepMerge` merges a nested object through a copy that it writes back. It does not capture that a nested object shared with another structure is mutated in place.
- Loading the configuration is left out: `dotenv`, the environment keys (parameters of `JsBaseConfig`), and the `require("./config.local")`, which is an optional value.
- The adapters' configured default keys are parameters, because the configuration they read does not match it:
  - the `.js` adapters read `config.app.defaults`, which the `config.js` base object does not define;
  - `commands/generateVideoFromImage.run.ts` reads `config.app.defaults.converters`, which `config.ts` lacks.
  Unless `config.local` supplies those keys through `deepMerge`, each of these makes module loading fail in JavaScript before the adapter runs.
- The adapters' `id` only feeds logging and is not modelled.
- Service implementations, the old-style and utility commands, the entry points and the example workflows are not part of this model. They are network, file-system and timer code.
- `tests/runner.test.js` is not treated as a source of truth: several of its expectations contradict `runner.js`, and the model follows the code.
- `WorkflowStep`'s static types are not enforced at run time, so the model accepts the same untyped step shapes the JavaScript does.
- Each adapter's equivalence with its description is stated for at most four checks and four arguments, which covers every adapter in the repository.

## Findings

| source | as written | input that shows it | evidently intended | confidence | as-written member | corrected member |
|---|---|---|---|---|---|---|
| commands/generateVideo.run.ts:52 | After validation and loading, the adapter calls `getVideo(prompt, opts)`. `prompt` is declared nowhere in the module, so evaluating the argument throws a `ReferenceError`, and the adapter can never succeed. | `{ id: "v1", services: {}, params: { input: "a cat", opts: {} } }` with any default key and a working video service | `getVideo(input, opts)`: the validated `input` is the prompt | high (the identifier is undeclared; not executed) | Adapters.GenerateVideoTsAsWritten | Adapters.GenerateVideoTs |
