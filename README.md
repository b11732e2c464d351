# Command-line build dispatcher of the Bloc build pipeline

This project models the Unity-editor entry point `BlocBuildPipeline.BuildFromCLI` and proves properties of the model.
That entry point reads the process arguments and finds the value after the first `-platforms` flag (`GetArg`).
It splits that value at every comma, keeping empty pieces, and trims each piece.
It then walks the tokens in order:

- `Windows`, `Android` and `iOS` each start one player build. Each has its own build target and a fixed output path.
- Any other token logs `Unknown platform: <token>` and is skipped. This includes `windows`, `WebGL` and the empty token.

A player build (`Build`) does three things in turn:

1. It switches the editor's active build target.
2. It builds the player with the paths of the enabled scenes, in their listed order.
3. It throws `Build failed for <target>!` when the build result is anything but `Succeeded`. This ends the whole run.

Modules, one per concern of the source file:

- `CommandLine` (`command_line.dfy`): `IndexOf` (the linear search of `Array.IndexOf`) and `GetArg`.
- `Text` (`text.dfy`): `Split` (empty pieces kept), its inverse `Join`, and `TrimStart`/`TrimEnd`/`Trim`. What counts as white space is a parameter, `white: char -> bool`.
- `Scenes` (`scenes.dfy`): the enabled-scene filter.
- `Platforms` (`platforms.dfy`): the build targets, the dispatch table, the token list and the per-token plan.
- `Pipeline` (`pipeline.dfy`): the editor effects as a log of events, the methods `Build` and `BuildFromCLI`, and the run's specification `Execute`, with the lemmas about it.

The editor is seen only through what the run asks of it. `Pipeline.Event` records these in order:

- `Switched(target)` for `SwitchActiveBuildTarget`;
- `Played(options)` for `BuildPipeline.BuildPlayer`;
- `Logged(message)` for `Debug.LogError`.

The result of each player build comes from an oracle. The oracle is given the number of player builds issued earlier in the run and the build's options. The scene list is an input.

`BuildFromCLI` is a `while` loop over the tokens. Its invariant ties the log so far to `Execute`, the recursive specification of the whole run. `Execute` is then described independently by `StopsAtFirstFailure`, and the two are proved to agree:

- the run processes a prefix of the tokens and issues exactly that prefix's effects;
- every build before the last processed token succeeded;
- the run completes only after the last token;
- it throws only at a failing build, naming that build's target.

That description is proved to fix the run uniquely.

The repository has a second copy of this class under `Packages/Bloc Build Pipeline/Editor/`. That copy has a `WebGL` case and takes its Windows and Android output paths from the product name. The model follows `Assets/Editor/BlocBuildPipeline.cs`, which has neither:

- That file has no `WebGL` case, so `WebGL` is an unknown platform here.
- Its output paths are the fixed `Builds/Windows/Game.exe`, `Builds/Android/Game.apk` and `Builds/iOS`.

## Model

| member | source | states |
|---|---|---|
| `CommandLine.IndexOf` | Assets/Editor/BlocBuildPipeline.cs:57 | The result is -1 exactly when `name` does not occur. Otherwise it is a position holding `name` with no earlier occurrence. |
| `CommandLine.GetArg` | Assets/Editor/BlocBuildPipeline.cs:55-59 | An absent flag gives `""`. For the first occurrence `i`, the result is `args[i+1]` when that exists and `""` otherwise. It never indexes out of range. |
| `CommandLine.GetArgFirstOccurrenceWins` | Assets/Editor/BlocBuildPipeline.cs:57-58 | With no earlier occurrence, the value after the flag is returned, whatever that value is (even the flag) and whatever follows (later occurrences included). |
| `CommandLine.GetArgFlagLast` | Assets/Editor/BlocBuildPipeline.cs:58 | A flag that is the last argument yields `""`. |
| `CommandLine.GetArgNonEmptyFollowsFlag` | Assets/Editor/BlocBuildPipeline.cs:57-58 | A non-empty result is the element right after the first occurrence of the flag. |
| `Text.Split` | Assets/Editor/BlocBuildPipeline.cs:12 | There is one piece more than there are separators (empty pieces kept), and no piece contains the separator. |
| `Text.JoinSplit` | Assets/Editor/BlocBuildPipeline.cs:12 | Rejoining the untrimmed pieces with `,` gives back the original value. |
| `Text.SplitJoin` | Assets/Editor/BlocBuildPipeline.cs:12 | Splitting a join of separator-free pieces gives back those pieces, in order. |
| `Text.TrimStart` | Assets/Editor/BlocBuildPipeline.cs:12 | The result is a suffix of the input. Everything removed is white, and the result does not start with white space. |
| `Text.TrimEnd` | Assets/Editor/BlocBuildPipeline.cs:12 | The result is a prefix of the input. Everything removed is white, and the result does not end with white space. |
| `Text.Trim` | Assets/Editor/BlocBuildPipeline.cs:12 | The result is no longer than the input and has no white character at either end. |
| `Text.TrimSpec` | Assets/Editor/BlocBuildPipeline.cs:12 | The input is a white prefix, then the trimmed result, then a white suffix. |
| `Text.TrimCore` | Assets/Editor/BlocBuildPipeline.cs:12 | Take any white prefix, a core with no white ends, and a white suffix. Trimming their concatenation gives the core. |
| `Text.TrimIdempotent` | Assets/Editor/BlocBuildPipeline.cs:12 | Trimming twice equals trimming once. |
| `Scenes.EnabledPathsMembers` | Assets/Editor/BlocBuildPipeline.cs:39-40 | A path is in the scene list exactly when some enabled scene has that path. |
| `Scenes.EnabledPaths` | Assets/Editor/BlocBuildPipeline.cs:39-40 | The paths of the enabled scenes, in order. Its own contract only bounds the length; its meaning is in `EnabledPathsMembers`, `EnabledIndices` and `EnabledPathsInOrder`. |
| `Scenes.EnabledPathsAppend` | Assets/Editor/BlocBuildPipeline.cs:39-40 | The filter distributes over concatenation of scene lists. |
| `Scenes.EnabledIndices` | Assets/Editor/BlocBuildPipeline.cs:39-40 | The positions are strictly increasing. They cover every enabled scene and only enabled scenes. |
| `Scenes.EnabledPathsInOrder` | Assets/Editor/BlocBuildPipeline.cs:39-40 | The k-th path handed to a build is the path of the k-th enabled scene. |
| `Scenes.AllEnabledPaths` | Assets/Editor/BlocBuildPipeline.cs:39-40 | When every scene is enabled, the build gets every scene's path, in order. |
| `Platforms.PlatformName` | Assets/Editor/BlocBuildPipeline.cs:18-24 | The switch key of each target: `Windows`, `Android`, `iOS`. It has no contract of its own; `DispatchRoundTrip` is its partner. |
| `Platforms.OutputPath` | Assets/Editor/BlocBuildPipeline.cs:19-25 | The fixed output path of each target. It has no contract of its own; `DispatchRoundTrip` and `BuildsAtOutputPaths` state its use. |
| `Platforms.TargetName` | Assets/Editor/BlocBuildPipeline.cs:52 | How each target prints in the failure message (`StandaloneWindows64`, `Android`, `iOS`). It has no contract of its own; `FailureMessageInjective` uses it. |
| `Platforms.Dispatch` | Assets/Editor/BlocBuildPipeline.cs:16-30 | A token yields a build exactly when it is the exact name of a target. That build is for the named target and at its output path. Any other token yields an error carrying the token. |
| `Platforms.DispatchRoundTrip` | Assets/Editor/BlocBuildPipeline.cs:16-26 | `Windows`, `Android` and `iOS` map to StandaloneWindows64 at `Builds/Windows/Game.exe`, to Android at `Builds/Android/Game.apk`, and to iOS at `Builds/iOS`. No other token reaches a target's build. |
| `Platforms.DispatchRejects` | Assets/Editor/BlocBuildPipeline.cs:27-29 | `windows`, `ios`, `WebGL`, `""` and untrimmed ` Windows` are all unknown platforms. |
| `Platforms.UnknownPlatformMessageInjective` | Assets/Editor/BlocBuildPipeline.cs:28 | The error line determines the token it reports. |
| `Platforms.UnknownPlatformMessage` | Assets/Editor/BlocBuildPipeline.cs:28 | The error line is `Unknown platform: ` followed by the token, so it is that much longer than the token. |
| `Platforms.Tokens` | Assets/Editor/BlocBuildPipeline.cs:12 | There is one token more than there are commas. |
| `Platforms.TokensAt` | Assets/Editor/BlocBuildPipeline.cs:12 | The k-th token is the k-th comma-separated piece, trimmed: it has no white character at either end, and the piece is a white prefix, then the token, then a white suffix. |
| `Platforms.TokensOfJoin` | Assets/Editor/BlocBuildPipeline.cs:12 | The tokens of a comma-joined list are its entries trimmed, in order. |
| `Platforms.PlanAt` | Assets/Editor/BlocBuildPipeline.cs:14-30 | The k-th action is the dispatch of the k-th token. |
| `Platforms.Plan` | Assets/Editor/BlocBuildPipeline.cs:14-30 | The per-token switch over the whole token list, one action per token. Its contract gives the length; `PlanAt` and `PlanAppend` give its contents. |
| `Platforms.PlanAppend` | Assets/Editor/BlocBuildPipeline.cs:14 | Token lists are processed piecewise in order, so repeated tokens repeat their action. |
| `Platforms.MissingPlatformsValue` | Assets/Editor/BlocBuildPipeline.cs:11-12 | An empty `-platforms` value gives the single token `""`, which is unknown. |
| `Pipeline.Options` | Assets/Editor/BlocBuildPipeline.cs:42-47 | The options of a player build: the enabled scenes, the target and the path. It has no contract of its own; `Build` and `BuildsAtOutputPaths` state its fields. |
| `Pipeline.FailureMessage` | Assets/Editor/BlocBuildPipeline.cs:52 | The exception text `Build failed for <target>!`. It has no contract of its own; `FailureMessageInjective` is its partner. |
| `Pipeline.FailureMessageInjective` | Assets/Editor/BlocBuildPipeline.cs:52 | Different targets give different failure messages, so the message names the failed target. |
| `Pipeline.Execute` | Assets/Editor/BlocBuildPipeline.cs:14-52 | The run over a plan: each action in turn, stopping at the first build that does not succeed. It has no contract of its own; its meaning is `StopsAtFirstFailure`, proved by `ExecuteStopsAtFirstFailure` and pinned down by `StopsAtFirstFailureUnique`. |
| `Pipeline.CommandLineRun` | Assets/Editor/BlocBuildPipeline.cs:8-32 | The run for a command line: `Execute` over the plan of the tokens of the first `-platforms` value. It has no contract of its own; `BuildFromCLI` is proved equal to it, and `NoPlatformsValue` and `CommandLinePlan` describe it. |
| `Pipeline.Build` | Assets/Editor/BlocBuildPipeline.cs:34-53 | It issues a target switch, then one player build for that target and path with exactly the enabled scenes. It throws `Build failed for <target>!` exactly when the result is not `Succeeded`. |
| `Pipeline.BuildFromCLI` | Assets/Editor/BlocBuildPipeline.cs:8-32 | The log and the ending equal the specified run over the tokens of the first `-platforms` value. |
| `Pipeline.ProcessToken` | Assets/Editor/BlocBuildPipeline.cs:16-30 | One pass of the loop body issues exactly the effects and the ending of that token's own run, and counts one more player build exactly when the token names a target. |
| `Pipeline.ExecuteCons` | Assets/Editor/BlocBuildPipeline.cs:14-31 | In one loop step, the first action's run comes first. If it throws, the run ends there. Otherwise the loop goes on with the remaining actions, with one more build counted after a build. |
| `Pipeline.NextToken` | Assets/Editor/BlocBuildPipeline.cs:14-31 | The same step, stated for the first of the trimmed tokens. |
| `Pipeline.ExecuteStopsAtFirstFailure` | Assets/Editor/BlocBuildPipeline.cs:14-52 | The run meets the fail-fast description above: it stops at the first failing build, with every earlier token processed and no later token built or logged. |
| `Pipeline.StopsAtFirstFailureUnique` | Assets/Editor/BlocBuildPipeline.cs:14-52 | At most one run meets the fail-fast description. |
| `Pipeline.ExecuteAllSucceed` | Assets/Editor/BlocBuildPipeline.cs:14-31 | When each build of the plan succeeds for the build count it is issued at, every token is processed, every effect is issued, and the run completes. |
| `Pipeline.BuildsFollowTokenOrder` | Assets/Editor/BlocBuildPipeline.cs:14-26 | Of the plan's full effects (every build carried out): there is one player build per recognised token. The k-th build is for the target the k-th recognised token names. |
| `Pipeline.BuildsAtOutputPaths` | Assets/Editor/BlocBuildPipeline.cs:18-26 | Of the plan's full effects (every build carried out): every player build is at its target's fixed output path, with the enabled scenes. |
| `Pipeline.ErrorsFollowTokenOrder` | Assets/Editor/BlocBuildPipeline.cs:14-29 | Of the plan's full effects (every build carried out): there is one error line per unrecognised token. The k-th line names the k-th unrecognised token. |
| `Pipeline.DuplicateTokensBuildTwice` | Assets/Editor/BlocBuildPipeline.cs:14-26 | Of the plan's full effects (every build carried out): a token list given twice yields its builds twice. |
| `Pipeline.EventsAppend` | Assets/Editor/BlocBuildPipeline.cs:14 | The effects of consecutive plans are concatenated. |
| `Pipeline.EventsSwitchBeforeBuilding` | Assets/Editor/BlocBuildPipeline.cs:36-49 | Each player build comes right after switching the active target to its own target. |
| `Pipeline.RunSwitchesBeforeBuilding` | Assets/Editor/BlocBuildPipeline.cs:36-49 | The same holds for every run, whatever the build results. |
| `Pipeline.NoPlatformsValue` | Assets/Editor/BlocBuildPipeline.cs:11-29 | A missing flag, or one given last, gives exactly one `Unknown platform: ` line and no build, and the run completes. |
| `Pipeline.CommandLinePlan` | Assets/Editor/BlocBuildPipeline.cs:10-16 | For a command line whose first `-platforms` is followed by a comma-joined list, the k-th action dispatches the k-th entry, trimmed. Later arguments play no part. |
| `Pipeline.SecondBuildFails` | Assets/Editor/BlocBuildPipeline.cs:14-52 | Take two target names followed by any tokens, where the second build fails. The run builds the first target, then the second, throws `Build failed for <second target>!`, and does nothing for the later tokens. |
| `Pipeline.AllSucceedEffects` | Assets/Editor/BlocBuildPipeline.cs:14-31 | When each build the tokens ask for succeeds, the run over the tokens completes. Recognised tokens are built once each, in order, and other tokens are logged once each, in order. |

## Left out

- `Assets/Test.cs` is not modelled. It holds HTTP requests, a certificate bypass, JSON serialisation and fire-and-forget tasks, all over libraries that are not visible here.
- The remote build-submission and polling client is not modelled. Neither are its status-code table and request validation. None of that logic is in the core file.
- The editor calls are not modelled as code. `SwitchActiveBuildTarget`, `BuildPipeline.BuildPlayer` and `Debug.LogError` become events in a log, and a build's result comes from an oracle. The boolean that `SwitchActiveBuildTarget` returns is ignored by the source and is not modelled. Neither is the target group from `GetBuildTargetGroup`: a switch is recorded by its target alone.
- `System.Environment.GetCommandLineArgs()` is replaced by an `args` parameter. The scene list of `EditorBuildSettings.scenes` is an input.
- The white-space set of .NET `Char.IsWhiteSpace` is not enumerated. `Trim` takes the white-space predicate as a parameter.
- Null elements in the argument array, and .NET's 32-bit array indices, are not modelled.
- Exceptions other than the build-failure one are not modelled.
- The source reads `EditorBuildSettings.scenes` afresh inside every `Build`, after the target switch. The model takes one scene list for the whole run, so it assumes that list does not change between the builds of one run.
- The oracle is deterministic in (number of earlier builds, options). It cannot express results that depend on anything else.
