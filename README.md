# LiquidLauncher launch core in Dafny

This project models the core of the LiquidLauncher desktop launcher in Dafny
and proves properties of the model. The model has two parts.

**The launch session** comes from `src/app/gui.rs`. The window's script
handler `EventHandler` keeps two optional slots:

- the running instance, which owns the sending end of the cancel channel;
- the join handle of the task that `run_client` spawns.

The model covers these operations:

- `run_client` fills both slots, but only when the runner slot is empty.
- The spawned task loads all builds and looks up the requested one. It then
  launches it, reports errors through the page's `on_error`, clears the
  runner slot and calls `on_finalization`.
- `terminate` takes both slots. It sends the cancel signal and awaits the
  task.

All of this is a sequential transition system. The task is an event of its
own that can fire at any time while it is pending (module `Session`). The
class `Gui.EventHandler` has the same slots as fields. Its methods follow
the source step by step, and each method is proved to make the matching
`Session` transition. Alongside these sit three pure helpers:

- the launching parameter built from the page's account object, with fixed
  fallbacks (`Launch`);
- the build lookup, with the `i32` to `u32` cast (`Launch`);
- the mapping of game output and progress updates to callback arguments
  (`Events`). This uses a model of `String::from_utf8` (`Utf8`) and of
  `as i32`.

**The catalog client** comes from `src/cloud.rs` (module `Cloud`):

- the records the remote catalog serves: `Build`, `LaunchManifest`,
  `LoaderVersion`, `LoaderSubsystem`, `LoaderMod` and `ModSource`;
- the rules serde's derived `Deserialize` applies to them (`Json`). Required
  fields must appear once. `#[serde(default)]` flags default to false.
  Unknown keys are skipped. `ModSource` carries its variant in the "type"
  tag, and its fields use camelCase names;
- `BTreeMap` as a strictly sorted association list (`OrderedMap`);
- `ModSource::get_path`;
- the four endpoint URLs, with `u32` formatted in decimal (`Decimal`), and
  the fetch-and-decode chain of the `load_*` functions.

The main results:

- An early return of the task (builds not loaded, or no build with the
  requested id) leaves the session stuck. The runner slot stays occupied,
  so every later `run_client` is a no-op (`Session.StuckIsPermanent`). The
  next `terminate` panics because the task has dropped the receiving end of
  the cancel channel (`Session.TerminateStuckPanics`).
- `terminate` before any `run_client` panics, and so does a second
  `terminate` right after one that returned. Both are `unwrap` on an empty
  join-handle slot.
- In every reachable state, each session makes at most one error call and
  at most one finalization call. The finalization comes exactly when the
  launch happened, and it comes last (`Session.SessionCallbacks`). This
  holds for launches that return; a launch that panics is left out.
- Each record the catalog serves decodes back to itself. The defaults and
  the tag rules hold as declared in the source.

## Model

| member | source | states |
|---|---|---|
| Gui.EventHandler.constructor | src/app/gui.rs:275 | the handler starts with both slots empty, in a state that satisfies the session invariant |
| Gui.EventHandler.RunClient | src/app/gui.rs:73-138 | the method's slot updates are exactly the `Session.RunClient` transition, and the answer is always true; the invariant is kept |
| Gui.EventHandler.RunTask | src/app/gui.rs:97-132 | the task body's steps are exactly the `Session.FinishTask` transition: error and return on a failed load or a missing build; otherwise launch, error on a failed launch, clear the runner slot, finalization |
| Gui.EventHandler.Terminate | src/app/gui.rs:140-158 | take the runner slot, send the cancel signal (panic if the task already returned), take the join handle (panic if missing), await the task; this is exactly `Session.Terminate`, and the invariant is kept |
| Session.RunClient | src/app/gui.rs:80-82 | with an occupied runner slot the state is unchanged; the answer is true on every path |
| Session.InitialInv | src/app/gui.rs:275 | the handler as created satisfies the invariant, with both slots empty |
| Session.RunClientKeepsInv | src/app/gui.rs:84-137 | with an empty slot, `run_client` starts a session that no earlier call has mentioned, with its task pending and captured parameter; the invariant is kept |
| Session.FinishTaskKeepsInv | src/app/gui.rs:97-132 | the task keeps the invariant, and once it has run nothing is pending |
| Session.EarlyReturnLeavesSlotOccupied | src/app/gui.rs:99-112 | a failed load makes exactly one error call with the load error's text, and a missing build exactly one with "unable to find build"; both slots are kept, no finalization is called, and every later `run_client` is a no-op |
| Session.LaunchPathClearsAndFinalizes | src/app/gui.rs:114-131 | on the launch path the task launches the first build with the requested id and the captured parameter; a successful launch is followed by the finalization alone, a failed one by exactly one error call with the launch's text and then the finalization; the runner slot is cleared and the join handle kept |
| Session.LoadFailureReportsItsText | src/app/gui.rs:99-104 | when `load_all_builds` fails, the task's only call is `on_error` with that error's text |
| Session.TaskEffects | src/app/gui.rs:99-131 | the task makes one to three calls, all for its own session: a lone error call when it returns early; otherwise the launch of the first matching build first, the finalization last, and an error call with the launch's text between them exactly when the launch failed |
| Session.FinishTask | src/app/gui.rs:97-132 | running the task leaves nothing pending, never touches the join handle, only appends calls, and empties the runner slot exactly when the task reaches its final lines; otherwise the slot keeps its instance |
| Session.ServedBuildIsLaunched | src/app/gui.rs:99-106 | when the catalog serves the builds' canonical JSON (as `Cloud.EncodeBuilds` writes it) with a success status, and one of the builds has the requested id, the task reaches its final path and launches the first matching build |
| Session.TerminateKeepsInv | src/app/gui.rs:140-158 | `terminate` keeps the invariant, whether or not it panics |
| Session.Terminate | src/app/gui.rs:140-158 | the runner slot always ends empty; the send panics exactly on a stuck session, the join handle's `unwrap` panics exactly when it is missing otherwise; a `terminate` that returns leaves the join handle and pending task gone; calls are only appended |
| Session.TerminateRunning | src/app/gui.rs:144-155 | with the task pending, `terminate` sends the cancel signal, awaits the task and leaves both slots empty, with no panic |
| Session.TerminateStuckPanics | src/app/gui.rs:148-151 | on a stuck session the send fails (`CancelReceiverDropped`) and no cancel is recorded |
| Session.TerminateIdle | src/app/gui.rs:144-155 | with an empty runner slot, nothing is sent; the join handle is taken, and its absence is a panic |
| Session.TerminateFirstPanics | src/app/gui.rs:154 | `terminate` before any `run_client` panics on the missing join handle |
| Session.SecondTerminatePanics | src/app/gui.rs:154 | a second `terminate` right after one that returned panics on the missing join handle |
| Session.RestartAfterTerminate | src/app/gui.rs:80-84 | after a `terminate` that returned, `run_client` starts the next session |
| Session.SessionCallbacks | src/app/gui.rs:97-131 | in every state the invariant admits, no session repeats a kind of call; finalization happens exactly when the launch did, and last; in the model's one-step task a cancel comes first (see "## Left out" for the source's timing) |
| Session.RunKeepsInv | src/app/gui.rs:73-158 | any sequence of `run_client`, task runs and `terminate` calls, stopped by the first panic, keeps the invariant |
| Session.ReachableInv | src/app/gui.rs:73-158 | every state reachable from the handler's creation satisfies the invariant |
| Session.StuckIsPermanent | src/app/gui.rs:80-82 | a stuck session stays unchanged through any sequence of events without `terminate` |
| Launch.MakeLaunchingParameter | src/app/gui.rs:86-93 | each of "username", "id", "accessToken" and "type" is used when the account holds a string under it, and otherwise gives its literal fallback ("unexpected", the fixed UUID, "-", "legacy"); the Xbox user id and the client id are always "x" |
| Launch.NonMapAccountUsesFallbacks | src/app/gui.rs:86-93 | an account value that is not a map yields exactly the six fallback strings |
| Launch.GetItem | src/app/gui.rs:87-92 | sciter's `get_item` gives a map's entry under the key, and undefined for a missing key or a value that is not a map |
| Launch.AsString | src/app/gui.rs:87-92 | sciter's `as_string` reads a value as text exactly when it is a string |
| Launch.AccountEntriesAreUsed | src/app/gui.rs:86-93 | for any account map, a string entry under "username", "id", "accessToken" or "type" is taken as given, and with that entry missing its field holds the fallback |
| Launch.NonStringEntryFallsBack | src/app/gui.rs:86-93 | an entry that is not a string gives the same parameter as no entry at all |
| Launch.EntryDecidesOwnField | src/app/gui.rs:86-93 | changing one account entry changes no field read from another entry |
| Launch.ParameterOfStringItems | src/app/gui.rs:86-93 | two accounts with the same string entries under the four keys give the same parameter |
| Launch.AsU32 | src/app/gui.rs:106 | `as u32` gives the `u32` congruent to the id modulo 2^32, the same bits read as unsigned |
| Launch.AsU32Injective | src/app/gui.rs:106 | the cast maps distinct ids to distinct build ids |
| Launch.FirstWithId | src/app/gui.rs:106 | the result is the index of the first build with the key, and None exactly when no build has it |
| Launch.FindBuild | src/app/gui.rs:106 | a build is found exactly when one has the cast id, and it is the first such build |
| Launch.NegativeIdWraps | src/app/gui.rs:106 | id -1 selects exactly a build numbered 4294967295 |
| Events.WrapI32 | src/app/gui.rs:62-63 | `as i32` keeps counts below 2^31 and is congruent to the count modulo 2^32 |
| Events.HandleOutput | src/app/gui.rs:46-56 | the handler panics exactly when the bytes are not UTF-8; otherwise it calls `on_output` with its stream's tag |
| Events.HandleProgress | src/app/gui.rs:58-68 | every update goes to `on_progress`: a maximum under "max" and a progress under "progress", each with its count cast by `as i32`, and a label under "label" with its text |
| Events.ProgressRoundTrip | src/app/gui.rs:58-68 | for counts below 2^31, the update can be read back from the call: "max", "progress" and "label" with the value |
| Events.ProgressInjective | src/app/gui.rs:58-68 | distinct updates with counts below 2^31 give distinct calls |
| Events.ProgressCountsWrap | src/app/gui.rs:62-63 | 2^31 arrives as -2^31 and 2^32 as 0 |
| Events.OutputOfText | src/app/gui.rs:47 | text the game writes arrives unchanged, tagged with its stream |
| Events.OutputPanicsIffNotText | src/app/gui.rs:53 | a handler panics exactly on byte strings that encode no text |
| Events.OutputStreamsDifferOnlyInTag | src/app/gui.rs:46-56 | stdout and stderr handling differ only in the tag, "stdout" versus "stderr" |
| Utf8.DecodeOfEncode | src/app/gui.rs:47 | decoding the UTF-8 encoding of any text gives the text back |
| Utf8.EncodeOfDecode | src/app/gui.rs:47 | bytes that decode are exactly the encoding of their text |
| Utf8.Decode | src/app/gui.rs:47 | `String::from_utf8` of no bytes is the empty text, and a decoded text never has more characters than the bytes it came from |
| Cloud.BranchesUrl | src/cloud.rs:13-15 | the branch list is fetched from "https://api.liquidbounce.net/api/v1/version/branches" |
| Cloud.AllBuildsUrl | src/cloud.rs:17-19 | all builds are fetched from "https://api.liquidbounce.net/api/v1/version/builds" |
| Cloud.BuildsUrl | src/cloud.rs:21-23 | a branch's URL is the all-builds URL, "/", then the branch verbatim |
| Cloud.BuildsUrlCarriesBranch | src/cloud.rs:22 | the branch can be read back from its URL, after the all-builds URL and "/" |
| Cloud.BuildsUrlInjective | src/cloud.rs:22 | distinct branches give distinct formatted URLs |
| Cloud.ManifestUrl | src/cloud.rs:25-27 | the manifest URL is "https://api.liquidbounce.net/api/v1/version/launch/" followed by decimal digits with no leading zero whose value is the build id |
| Cloud.ManifestUrlInjective | src/cloud.rs:26 | distinct build ids give distinct formatted URLs |
| Cloud.EndpointsDistinct | src/cloud.rs:13-27 | the four loads never format the same URL: branches, all builds, one branch's builds and one manifest are told apart by their paths |
| Decimal.ValueOfToDecimal | src/cloud.rs:26 | the decimal text of a number reads back as that number |
| Decimal.ToDecimal | src/cloud.rs:26 | the text is all digits, non-empty, and starts with '0' only for zero |
| Cloud.FetchJson | src/cloud.rs:13-27 | a load succeeds exactly when the request succeeds, the status is not 4xx or 5xx, and the body decodes; a transport failure and an error status are reported as such |
| Cloud.LoadsReadOnlyTheirUrl | src/cloud.rs:13-27 | each `load_*` result depends only on the answer for its own URL |
| Cloud.LoadAllBuildsOfServedList | src/cloud.rs:17-19 | a catalog that serves the builds' JSON with a success status yields exactly those builds |
| Cloud.LoadBranches | src/cloud.rs:13-15 | the branch list loads exactly when the branch URL is served with a non-error status and a body of strings, and is that body's strings |
| Cloud.LoadAllBuilds | src/cloud.rs:17-19 | the build list loads exactly when the all-builds URL is served with a non-error status and a body that decodes as builds, and is those builds |
| Cloud.LoadBuilds | src/cloud.rs:21-23 | a branch's builds load exactly when that branch's URL is served with a non-error status and a body that decodes as builds, and are those builds |
| Cloud.LoadVersionManifest | src/cloud.rs:25-27 | a manifest loads exactly when the build's manifest URL is served with a non-error status and a body that decodes as a manifest, and is that manifest |
| Cloud.GetPath | src/cloud.rs:66-73 | a direct file's path is its artifact name followed by ".jar" and never fails; a repository artifact's path is exactly the coordinate resolver's result |
| Cloud.SkipAdPathIgnoresUrlAndExtract | src/cloud.rs:69 | a direct file's path depends on its artifact name only |
| Cloud.RepositoryPathIgnoresRepository | src/cloud.rs:70 | a repository artifact's path ignores the repository and fails exactly when the resolver fails |
| Cloud.SkipAdPathInjective | src/cloud.rs:69 | distinct artifact names give distinct paths |
| Cloud.DecodeLoaderSubsystem | src/cloud.rs:94-100 | exactly "fabric" and "forge" decode, to their own variants; anything else is rejected |
| Cloud.DecodeBuildOfFields | src/cloud.rs:30-44 | a build is assembled from its eleven required fields, under their Rust names |
| Cloud.DecodeBuild | src/cloud.rs:30-44 | a build decodes only from an object, and each of its eleven fields is what the object holds once under the field's Rust name |
| Cloud.BuildRoundTrip | src/cloud.rs:30-44 | every build decodes back from its JSON object |
| Cloud.LoaderVersionRoundTrip | src/cloud.rs:87-92 | every loader version decodes back from its JSON object |
| Cloud.DecodeLoaderVersion | src/cloud.rs:87-92 | a loader version decodes only from an object whose "subsystem" is the variant's name and whose two strings are its fields |
| Cloud.ModSourceRoundTrip | src/cloud.rs:54-63 | every mod source decodes back from its tagged, camelCase JSON object |
| Cloud.ModSourceTag | src/cloud.rs:54-63 | a mod source decodes only under the tags "skip" and "repository", each to its own variant |
| Cloud.DecodeModSource | src/cloud.rs:54-63 | a direct file decodes only under tag "skip" with its "artifactName", "url" and "extract" (false when absent); a repository artifact only under tag "repository" with its "repository" and "artifact" |
| Cloud.SkipAdExtractDefaultsFalse | src/cloud.rs:59 | any mod source without an "extract" entry decodes exactly as with `"extract": false`, and a direct file decoded from it does not extract |
| Cloud.ModSourceIgnoresUnknownKey | src/cloud.rs:54-63 | an entry under a key the mod source does not know leaves the result unchanged |
| Cloud.LoaderModRoundTrip | src/cloud.rs:76-84 | every mod entry decodes back from its JSON object |
| Cloud.DecodeLoaderMod | src/cloud.rs:76-84 | a mod entry decodes only from an object; its flags are the "required" and "default" entries (false when absent), its name and source the "name" and "source" entries |
| Cloud.LoaderModFlagsDefaultFalse | src/cloud.rs:77-81 | any mod entry without "required" (or without "default") decodes exactly as with that flag false, and the decoded mod has it off |
| Cloud.LoaderModsRoundTrip | src/cloud.rs:50 | a list of mod entries decodes back from its JSON array |
| Cloud.DecodeStringMap | src/cloud.rs:51 | a decoded repository map has exactly the names of the document's entries, and each name holds the string of its last entry |
| Cloud.StringMapRoundTrip | src/cloud.rs:51 | every repository map decodes back from its JSON object |
| Cloud.RepositoriesOrderedAndUnique | src/cloud.rs:51 | a decoded manifest lists each repository name once, in increasing order |
| Cloud.LaunchManifestRoundTrip | src/cloud.rs:46-52 | every launch manifest decodes back from its JSON object |
| Cloud.DecodeLaunchManifest | src/cloud.rs:46-52 | a manifest decodes only from an object whose "build", "loader", "mods" and "repositories" entries decode to its four fields |
| OrderedMap.InsertSpec | src/cloud.rs:51 | inserting keeps the keys strictly increasing, adds exactly the key, and changes only that key's value |
| OrderedMap.FromEntries | src/cloud.rs:51 | building the map from entries keeps exactly their keys |
| OrderedMap.GetFromEntries | src/cloud.rs:51 | each key holds the value of its last entry in the document |
| OrderedMap.FromEntriesOfSorted | src/cloud.rs:51 | a map rebuilt from its own entries is unchanged |
| Json.LookupDistinct | src/cloud.rs:30-44 | in an object without repeated keys, every entry is found under its key |
| Json.LookupAbsent | src/cloud.rs:78-81 | a key no entry carries is absent, which is what `#[serde(default)]` turns into false |
| Json.LookupAppendOther | src/cloud.rs:54-63 | an entry under another key does not change what a key holds |
| Json.LookupAppendAbsent | src/cloud.rs:59 | an entry appended under a key the object lacks is found under it |
| Json.DecodeArray | src/cloud.rs:50 | an array decodes exactly when every item decodes, to the items' values in order |

## Left out

- The Sciter window, event subscription, script dispatch and the search for the app's `index.html` (src/app/gui.rs:242-297): these are UI and file-system I/O.
- The tokio runtime, `block_on`, the async mutexes and real task scheduling. The spawned task is one atomic event, and `terminate`'s await runs the pending task's remaining run, which is given as a parameter. Interleavings inside the task are not modelled.
- The oneshot channel: in the model, a send succeeds exactly when the task has not yet returned. How the launch reacts to the cancel signal belongs to `prelauncher::launch`.
- Session.SessionCallbacks, Session.TerminateRunning: the task runs as one step, so three effects of its real timing are not captured.
  - Cancel order: the model puts a cancel before all of the task's calls. In the source, `terminate` usually runs after `prelauncher::launch` has started (src/app/gui.rs:114), so the order is launch, cancel (src/app/gui.rs:150), then finalization (src/app/gui.rs:131).
  - Failed send: the receiving end moves into the launch's `LauncherData` (src/app/gui.rs:123) and is dropped when the launch returns. A `terminate` that takes the instance after that, but before the slot is cleared (src/app/gui.rs:129), panics at the send. The model rules this out.
  - Hanging await: `terminate`'s await (src/app/gui.rs:154) returns only if the launch returns. In the model it always returns.
- The `println!("Sending sigterm")` log line in `terminate` (src/app/gui.rs:149) is console output and is not modelled.
- `prelauncher::launch` is not part of this model. Its outcome, and the output and progress events it produces, are inputs.
- `get_branches`, `get_builds` and `login_mojang` spawn one network call each and pass the result to a callback. Their loads are `Cloud.LoadBranches` and `Cloud.LoadBuilds`; the spawning and `AuthService::authenticate` are network and foreign calls.
- `get_options`, `store_options` and `exit_app`: configuration serialisation, persistence and process exit.
- `get_maven_artifact_path` (src/utils) is not part of this model. It is a parameter, any function from a coordinate to a path or an error.
- A failing page callback (`unwrap` inside the task) and the join error it would cause when awaited. Callbacks always succeed in the model.
- A panic ends an event sequence (`Session.Run`). What the window does after a panic is not modelled.
- The text of a load error (`to_string` on anyhow's error) is an abstract string.
- Cloud.DecodeBuild, Cloud.DecodeLoaderVersion, Cloud.DecodeModSource, Cloud.DecodeLoaderMod, Cloud.DecodeLaunchManifest: a rejected document gives None; which serde error message is produced is not modelled.
- Cloud.FetchJson: the body is given as already parsed JSON or None. JSON text parsing, floating-point numbers and reqwest's redirect handling are not modelled.
- serde also accepts a struct written as a JSON array of its fields, and a unit enum written as a single-key object. Neither form is modelled.
- Events.HandleProgress: counts are taken to be 64-bit unsigned. `ProgressUpdate`'s definition (src/minecraft/progress.rs) is not part of this model.
- The `Build` fields other than `build_id` are carried but not interpreted.
- URL parsing by `reqwest::get` is not modelled. The URLs are the strings `format!` builds. reqwest drops tabs and newlines, resolves `.` and `..` segments and does not send a `#` fragment, so distinct formatted URLs may still fetch the same resource.
- A launch that panics is not modelled: `LaunchOutcome` is only success or an error. `handle_stdout` and `handle_stderr` panic on output that is not UTF-8 (`Events.HandleOutput`) while they hold the `EventFunctions` mutex, which then stays poisoned, so every later handler call panics too. If that happens on the spawned task, the task dies after the launch call without clearing the runner slot or calling the finalization. `Session.SessionLog` does not admit that record, so "the finalization comes exactly when the launch happened" holds only for launches that return.
