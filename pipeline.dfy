/**
 * `BuildFromCLI` and `Build`: the loop that walks the platform tokens,
 * issues one player build per recognised token and one error line per
 * unknown token, and ends the whole run with an exception at the first
 * player build that does not succeed.
 *
 * The editor is seen only through what the run asks of it, recorded in
 * order in a log: switching the active build target, starting a player
 * build, writing an error line. The outcome of a player build comes from an
 * oracle that is given the number of earlier player builds in the run and
 * the build's options.
 */
module Pipeline {
  import opened Text
  import opened CommandLine
  import opened Scenes
  import opened Platforms

  /** The result a player build reports. */
  datatype BuildResult = Unknown | Succeeded | Failed | Cancelled

  /** What a player build is started with. */
  datatype BuildPlayerOptions = BuildPlayerOptions(scenes: seq<string>, target: Target, locationPathName: string)

  /** One effect the run has on the editor. */
  datatype Event =
    | Switched(target: Target)
    | Played(options: BuildPlayerOptions)
    | Logged(message: string)

  /** How the run ends: normally, or with the exception of a failed build. */
  datatype Status = Completed | Threw(message: string)

  /** The effects of a run, how it ended, and how many tokens it processed. */
  datatype Run = Run(log: seq<Event>, status: Status, processed: nat)

  /** The result of the player build with the given number of earlier builds and the given options. */
  type BuildOracle = (nat, BuildPlayerOptions) -> BuildResult

  /** The options of a player build for `target` at `path`. */
  function Options(target: Target, path: string, scenes: seq<Scene>): BuildPlayerOptions {
    BuildPlayerOptions(EnabledPaths(scenes), target, path)
  }

  /** The message of the exception a failed build throws. */
  function FailureMessage(target: Target): string {
    "Build failed for " + TargetName(target) + "!"
  }

  /** The failure message names the target: different targets, different messages. */
  lemma FailureMessageInjective(t: Target, u: Target)
    requires FailureMessage(t) == FailureMessage(u)
    ensures t == u
  {
    assert |FailureMessage(t)| == |"Build failed for !"| + |TargetName(t)|;
    assert |FailureMessage(u)| == |"Build failed for !"| + |TargetName(u)|;
  }

  /** The effects of processing one token, when it does not throw. */
  function ActionEvents(a: Action, scenes: seq<Scene>): seq<Event> {
    match a
    case Build(t, p) => [Switched(t), Played(Options(t, p, scenes))]
    case Error(token) => [Logged(UnknownPlatformMessage(token))]
  }

  /** The effects of processing every action of `plan` in turn. */
  function Events(plan: seq<Action>, scenes: seq<Scene>): seq<Event> {
    if plan == [] then [] else ActionEvents(plan[0], scenes) + Events(plan[1..], scenes)
  }

  /** The number of player builds `plan` asks for. */
  function BuildCount(plan: seq<Action>): nat {
    if plan == [] then 0 else (if plan[0].Build? then 1 else 0) + BuildCount(plan[1..])
  }

  /**
   * The run over `plan` when `calls` player builds have already been issued:
   * each action in turn, until a player build reports anything but success.
   */
  function Execute(plan: seq<Action>, scenes: seq<Scene>, oracle: BuildOracle, calls: nat): Run {
    if plan == [] then Run([], Completed, 0)
    else
      match plan[0]
      case Error(token) =>
        var rest := Execute(plan[1..], scenes, oracle, calls);
        Run([Logged(UnknownPlatformMessage(token))] + rest.log, rest.status, rest.processed + 1)
      case Build(t, p) =>
        if oracle(calls, Options(t, p, scenes)) == Succeeded then
          var rest := Execute(plan[1..], scenes, oracle, calls + 1);
          Run(ActionEvents(plan[0], scenes) + rest.log, rest.status, rest.processed + 1)
        else
          Run(ActionEvents(plan[0], scenes), Threw(FailureMessage(t)), 1)
  }

  /** `Build`: switch the active target, build the player with the enabled scenes, throw unless it succeeded. */
  method Build(target: Target, path: string, scenes: seq<Scene>, oracle: BuildOracle, calls: nat)
    returns (issued: seq<Event>, status: Status)
    ensures issued == ActionEvents(Action.Build(target, path), scenes)
    ensures issued[1].options.scenes == EnabledPaths(scenes)
    ensures status.Completed? <==> oracle(calls, Options(target, path, scenes)) == Succeeded
    ensures status.Threw? ==> status.message == FailureMessage(target)
  {
    issued := [Switched(target)];
    var sceneList := EnabledPaths(scenes);
    var options := BuildPlayerOptions(sceneList, target, path);
    issued := issued + [Played(options)];
    var report := oracle(calls, options);
    if report != Succeeded {
      status := Threw(FailureMessage(target));
    } else {
      status := Completed;
    }
  }

  /** `run` preceded by `log`, which processed `n` more tokens. */
  function After(log: seq<Event>, n: nat, run: Run): Run {
    Run(log + run.log, run.status, n + run.processed)
  }

  /** The run `BuildFromCLI` performs for the given process arguments. */
  function CommandLineRun(args: seq<string>, white: CharClass, scenes: seq<Scene>, oracle: BuildOracle): Run {
    Execute(Plan(Tokens(GetArg(args, PlatformsFlag), white)), scenes, oracle, 0)
  }

  /**
   * The `switch` of the loop body of `BuildFromCLI`, after `calls` earlier
   * player builds: build a recognised token's target, log an unknown token.
   * `built` is the number of player builds issued so far.
   */
  method ProcessToken(token: string, scenes: seq<Scene>, oracle: BuildOracle, calls: nat)
    returns (issued: seq<Event>, status: Status, built: nat)
    ensures var one := Execute([Dispatch(token)], scenes, oracle, calls);
      issued == one.log && status == one.status
    ensures built == calls + (if Dispatch(token).Build? then 1 else 0)
  {
    var a := Dispatch(token);
    ghost var one := Execute([a], scenes, oracle, calls);
    assert [a][1..] == [];
    match a {
      case Build(t, p) =>
        issued, status := Build(t, p, scenes, oracle, calls);
        built := calls + 1;
      case Error(unknown) =>
        issued, status := [Logged(UnknownPlatformMessage(unknown))], Completed;
        built := calls;
    }
  }

  /** `BuildFromCLI`: read `-platforms`, split and trim it, and process each token in turn. */
  method BuildFromCLI(args: seq<string>, white: CharClass, scenes: seq<Scene>, oracle: BuildOracle)
    returns (log: seq<Event>, status: Status)
    ensures log == CommandLineRun(args, white, scenes, oracle).log
    ensures status == CommandLineRun(args, white, scenes, oracle).status
  {
    var platformsArg := GetArg(args, PlatformsFlag);
    var platforms := Tokens(platformsArg, white);
    ghost var whole := CommandLineRun(args, white, scenes, oracle);
    assert whole == Execute(Plan(platforms[0..]), scenes, oracle, 0) by {
      assert platforms[0..] == platforms;
    }
    log, status := [], Completed;
    var i, calls := 0, 0;
    while i < |platforms|
      invariant 0 <= i <= |platforms|
      invariant whole == After(log, i, Execute(Plan(platforms[i..]), scenes, oracle, calls))
      invariant status == Completed
    {
      var token := platforms[i];
      NextToken(platforms[i..], scenes, oracle, calls);
      assert platforms[i..][0] == token && platforms[i..][1..] == platforms[i + 1..];
      var issued, s, built := ProcessToken(token, scenes, oracle, calls);
      if s.Threw? {
        assert whole == After(log, i, Execute([Dispatch(token)], scenes, oracle, calls));
        log, status := log + issued, s;
        return;
      }
      AfterAfter(log, issued, i, Execute(Plan(platforms[i + 1..]), scenes, oracle, built));
      log, calls := log + issued, built;
      i := i + 1;
    }
    assert platforms[i..] == [];
  }

  /**
   * One step of the run: the first action's own run, and unless that
   * throws, the run over the remaining actions after it.
   */
  lemma ExecuteCons(a: Action, plan: seq<Action>, scenes: seq<Scene>, oracle: BuildOracle, calls: nat)
    ensures var one := Execute([a], scenes, oracle, calls);
      Execute([a] + plan, scenes, oracle, calls) ==
        if one.status.Threw? then one
        else After(one.log, 1, Execute(plan, scenes, oracle, calls + (if a.Build? then 1 else 0)))
  {
    assert ([a] + plan)[0] == a && ([a] + plan)[1..] == plan && [a][1..] == [];
  }

  /** The same step, for the first of the tokens. */
  lemma NextToken(tokens: seq<string>, scenes: seq<Scene>, oracle: BuildOracle, calls: nat)
    requires tokens != []
    ensures var one := Execute([Dispatch(tokens[0])], scenes, oracle, calls);
      var built := calls + (if Dispatch(tokens[0]).Build? then 1 else 0);
      Execute(Plan(tokens), scenes, oracle, calls) ==
        if one.status.Threw? then one
        else After(one.log, 1, Execute(Plan(tokens[1..]), scenes, oracle, built))
  {
    assert Plan(tokens) == [Dispatch(tokens[0])] + Plan(tokens[1..]);
    ExecuteCons(Dispatch(tokens[0]), Plan(tokens[1..]), scenes, oracle, calls);
  }

  /** Prefixing a log twice is prefixing once with both. */
  lemma AfterAfter(a: seq<Event>, b: seq<Event>, n: nat, run: Run)
    ensures After(a, n, After(b, 1, run)) == After(a + b, n + 1, run)
  {
    assert a + (b + run.log) == (a + b) + run.log;
  }

  // ---------------------------------------------------------------------
  // Fail-fast: the run stops right after the first player build that fails
  // ---------------------------------------------------------------------

  /** `plan[j]` is no player build, or its player build (the one after `calls` plus the earlier ones) succeeds. */
  ghost predicate BuildSucceeds(plan: seq<Action>, scenes: seq<Scene>, oracle: BuildOracle, calls: nat, j: int)
    requires 0 <= j < |plan|
  {
    plan[j].Build? ==>
      oracle(calls + BuildCount(plan[..j]), Options(plan[j].target, plan[j].path, scenes)) == Succeeded
  }

  /**
   * The reference description of a run: it processes a prefix of the plan
   * and issues exactly that prefix's effects; every build before the last
   * processed action succeeded; it completes only after the whole plan, and
   * it throws only at a build that failed, naming that build's target.
   */
  ghost predicate StopsAtFirstFailure(plan: seq<Action>, scenes: seq<Scene>, oracle: BuildOracle, calls: nat, run: Run) {
    && run.processed <= |plan|
    && run.log == Events(plan[..run.processed], scenes)
    && (forall j :: 0 <= j < run.processed - 1 ==> BuildSucceeds(plan, scenes, oracle, calls, j))
    && (run.status.Completed? ==>
          run.processed == |plan| && (run.processed == 0 || BuildSucceeds(plan, scenes, oracle, calls, run.processed - 1)))
    && (run.status.Threw? ==>
          && 0 < run.processed
          && plan[run.processed - 1].Build?
          && !BuildSucceeds(plan, scenes, oracle, calls, run.processed - 1)
          && run.status.message == FailureMessage(plan[run.processed - 1].target))
  }

  /** The build count of a non-empty prefix, split after its first action. */
  lemma BuildCountPrefix(plan: seq<Action>, j: nat)
    requires 1 <= j <= |plan|
    ensures BuildCount(plan[..j]) == (if plan[0].Build? then 1 else 0) + BuildCount(plan[1..][..j - 1])
  {
    assert plan[..j][1..] == plan[1..][..j - 1];
  }

  /** The effects of a non-empty prefix, split after its first action. */
  lemma EventsPrefix(plan: seq<Action>, scenes: seq<Scene>, m: nat)
    requires 1 <= m <= |plan|
    ensures Events(plan[..m], scenes) == ActionEvents(plan[0], scenes) + Events(plan[1..][..m - 1], scenes)
  {
    assert plan[..m][1..] == plan[1..][..m - 1];
  }

  /** Dropping the first action shifts positions by one and the build count by that action's builds. */
  lemma BuildSucceedsShift(plan: seq<Action>, scenes: seq<Scene>, oracle: BuildOracle, calls: nat, j: nat)
    requires 1 <= j < |plan|
    ensures BuildSucceeds(plan, scenes, oracle, calls, j)
        <==> BuildSucceeds(plan[1..], scenes, oracle, calls + (if plan[0].Build? then 1 else 0), j - 1)
  {
    BuildCountPrefix(plan, j);
    assert plan[j] == plan[1..][j - 1];
  }

  /**
   * The reference description survives putting an action in front of the
   * plan, when that action does not throw: a build that succeeds, or an error line.
   */
  lemma StopsAtFirstFailureStep(plan: seq<Action>, scenes: seq<Scene>, oracle: BuildOracle, calls: nat, rest: Run)
    requires plan != [] && BuildSucceeds(plan, scenes, oracle, calls, 0)
    requires StopsAtFirstFailure(plan[1..], scenes, oracle, calls + (if plan[0].Build? then 1 else 0), rest)
    ensures StopsAtFirstFailure(plan, scenes, oracle, calls, After(ActionEvents(plan[0], scenes), 1, rest))
  {
    var inc := if plan[0].Build? then 1 else 0;
    var run := After(ActionEvents(plan[0], scenes), 1, rest);
    EventsPrefix(plan, scenes, run.processed);
    forall j | 1 <= j < |plan|
      ensures BuildSucceeds(plan, scenes, oracle, calls, j)
          <==> BuildSucceeds(plan[1..], scenes, oracle, calls + inc, j - 1)
    {
      BuildSucceedsShift(plan, scenes, oracle, calls, j);
    }
    assert run.log == Events(plan[..run.processed], scenes);
    assert forall j :: 0 <= j < run.processed - 1 ==> BuildSucceeds(plan, scenes, oracle, calls, j);
    if run.status.Threw? {
      assert plan[run.processed - 1] == plan[1..][rest.processed - 1];
    }
  }

  /** `Execute` follows the reference description. */
  lemma {:induction false} ExecuteStopsAtFirstFailure(plan: seq<Action>, scenes: seq<Scene>, oracle: BuildOracle, calls: nat)
    ensures StopsAtFirstFailure(plan, scenes, oracle, calls, Execute(plan, scenes, oracle, calls))
  {
    if plan != [] {
      var inc := if plan[0].Build? then 1 else 0;
      assert plan[..0] == [];
      if plan[0].Build? && oracle(calls, Options(plan[0].target, plan[0].path, scenes)) != Succeeded {
        assert plan[..1][1..] == [];
        assert !BuildSucceeds(plan, scenes, oracle, calls, 0);
      } else {
        var rest := Execute(plan[1..], scenes, oracle, calls + inc);
        ExecuteStopsAtFirstFailure(plan[1..], scenes, oracle, calls + inc);
        assert Execute(plan, scenes, oracle, calls) == After(ActionEvents(plan[0], scenes), 1, rest);
        StopsAtFirstFailureStep(plan, scenes, oracle, calls, rest);
      }
    }
  }

  /** The reference description pins the run down: no two different runs meet it. */
  lemma StopsAtFirstFailureUnique(plan: seq<Action>, scenes: seq<Scene>, oracle: BuildOracle, calls: nat, r1: Run, r2: Run)
    requires StopsAtFirstFailure(plan, scenes, oracle, calls, r1)
    requires StopsAtFirstFailure(plan, scenes, oracle, calls, r2)
    ensures r1 == r2
  {
  }

  /** When every player build succeeds, every action of the plan is carried out and the run completes. */
  lemma ExecuteAllSucceed(plan: seq<Action>, scenes: seq<Scene>, oracle: BuildOracle, calls: nat)
    requires forall j :: 0 <= j < |plan| ==> BuildSucceeds(plan, scenes, oracle, calls, j)
    ensures Execute(plan, scenes, oracle, calls) == Run(Events(plan, scenes), Completed, |plan|)
  {
    ExecuteStopsAtFirstFailure(plan, scenes, oracle, calls);
    assert plan[..|plan|] == plan;
  }

  // ---------------------------------------------------------------------
  // What the effects are: builds and error lines in token order
  // ---------------------------------------------------------------------

  /** The options of the player builds in `log`, in order. */
  function Builds(log: seq<Event>): seq<BuildPlayerOptions> {
    if log == [] then []
    else (if log[0].Played? then [log[0].options] else []) + Builds(log[1..])
  }

  /** The error lines in `log`, in order. */
  function Errors(log: seq<Event>): seq<string> {
    if log == [] then []
    else (if log[0].Logged? then [log[0].message] else []) + Errors(log[1..])
  }

  /** The tokens that name a platform, in order. */
  function Recognised(tokens: seq<string>): seq<string> {
    if tokens == [] then []
    else (if IsPlatformName(tokens[0]) then [tokens[0]] else []) + Recognised(tokens[1..])
  }

  /** The tokens that name no platform, in order. */
  function Unrecognised(tokens: seq<string>): seq<string> {
    if tokens == [] then []
    else (if IsPlatformName(tokens[0]) then [] else [tokens[0]]) + Unrecognised(tokens[1..])
  }

  /** Filtering builds distributes over concatenation of logs. */
  lemma {:induction false} BuildsAppend(a: seq<Event>, b: seq<Event>)
    ensures Builds(a + b) == Builds(a) + Builds(b)
  {
    if a == [] {
      assert a + b == b;
    } else {
      assert (a + b)[0] == a[0];
      assert (a + b)[1..] == a[1..] + b;
      BuildsAppend(a[1..], b);
      var head := if a[0].Played? then [a[0].options] else [];
      assert Builds(a) == head + Builds(a[1..]);
      assert Builds(a + b) == head + (Builds(a[1..]) + Builds(b));
    }
  }

  /** Filtering error lines distributes over concatenation of logs. */
  lemma {:induction false} ErrorsAppend(a: seq<Event>, b: seq<Event>)
    ensures Errors(a + b) == Errors(a) + Errors(b)
  {
    if a == [] {
      assert a + b == b;
    } else {
      assert (a + b)[0] == a[0];
      assert (a + b)[1..] == a[1..] + b;
      ErrorsAppend(a[1..], b);
      var head := if a[0].Logged? then [a[0].message] else [];
      assert Errors(a) == head + Errors(a[1..]);
      assert Errors(a + b) == head + (Errors(a[1..]) + Errors(b));
    }
  }

  /** The effects of a concatenation of plans are those of each plan in turn. */
  lemma {:induction false} EventsAppend(a: seq<Action>, b: seq<Action>, scenes: seq<Scene>)
    ensures Events(a + b, scenes) == Events(a, scenes) + Events(b, scenes)
  {
    if a == [] {
      assert a + b == b;
    } else {
      assert (a + b)[1..] == a[1..] + b;
      EventsAppend(a[1..], b, scenes);
    }
  }

  /** The player builds among one action's effects. */
  lemma ActionBuilds(a: Action, scenes: seq<Scene>)
    ensures Builds(ActionEvents(a, scenes)) == if a.Build? then [Options(a.target, a.path, scenes)] else []
  {
    match a
    case Build(t, p) =>
      var played := [Played(Options(t, p, scenes))];
      assert played[1..] == [];
      assert Builds(played) == [Options(t, p, scenes)];
      assert ActionEvents(a, scenes)[1..] == played;
    case Error(token) =>
      assert ActionEvents(a, scenes)[1..] == [];
  }

  /** The error lines among one action's effects. */
  lemma ActionErrors(a: Action, scenes: seq<Scene>)
    ensures Errors(ActionEvents(a, scenes)) == if a.Error? then [UnknownPlatformMessage(a.token)] else []
  {
    match a
    case Build(t, p) =>
      var played := [Played(Options(t, p, scenes))];
      assert played[1..] == [];
      assert Errors(played) == [];
      assert ActionEvents(a, scenes)[1..] == played;
    case Error(token) =>
      assert ActionEvents(a, scenes)[1..] == [];
  }

  /**
   * Processing the tokens issues one player build per recognised token, in
   * token order: the k-th build is for the k-th recognised token.
   */
  lemma {:induction false} BuildsFollowTokenOrder(tokens: seq<string>, scenes: seq<Scene>)
    ensures |Builds(Events(Plan(tokens), scenes))| == |Recognised(tokens)|
    ensures forall k :: 0 <= k < |Recognised(tokens)| ==>
      PlatformName(Builds(Events(Plan(tokens), scenes))[k].target) == Recognised(tokens)[k]
  {
    if tokens != [] {
      var a := Dispatch(tokens[0]);
      var head := ActionEvents(a, scenes);
      var tail := Events(Plan(tokens[1..]), scenes);
      BuildsFollowTokenOrder(tokens[1..], scenes);
      assert Events(Plan(tokens), scenes) == head + tail;
      BuildsAppend(head, tail);
      ActionBuilds(a, scenes);
      var builds, rest := Builds(head + tail), Builds(tail);
      if a.Build? {
        assert Recognised(tokens) == [tokens[0]] + Recognised(tokens[1..]);
        forall k | 0 <= k < |Recognised(tokens)|
          ensures PlatformName(builds[k].target) == Recognised(tokens)[k]
        {
          if k > 0 {
            assert builds[k] == rest[k - 1];
            assert Recognised(tokens)[k] == Recognised(tokens[1..])[k - 1];
          }
        }
      } else {
        assert Recognised(tokens) == Recognised(tokens[1..]);
        assert builds == rest;
      }
    }
  }

  /** Every player build the tokens ask for is at its target's output path, with the enabled scenes. */
  lemma {:induction false} BuildsAtOutputPaths(tokens: seq<string>, scenes: seq<Scene>)
    ensures forall k :: 0 <= k < |Builds(Events(Plan(tokens), scenes))| ==>
      var o := Builds(Events(Plan(tokens), scenes))[k];
      o.locationPathName == OutputPath(o.target) && o.scenes == EnabledPaths(scenes)
  {
    if tokens != [] {
      var a := Dispatch(tokens[0]);
      var head := ActionEvents(a, scenes);
      var tail := Events(Plan(tokens[1..]), scenes);
      BuildsAtOutputPaths(tokens[1..], scenes);
      assert Events(Plan(tokens), scenes) == head + tail;
      BuildsAppend(head, tail);
      ActionBuilds(a, scenes);
    }
  }

  /** Processing the tokens logs one error line per unrecognised token, in token order, naming that token. */
  lemma {:induction false} ErrorsFollowTokenOrder(tokens: seq<string>, scenes: seq<Scene>)
    ensures |Errors(Events(Plan(tokens), scenes))| == |Unrecognised(tokens)|
    ensures forall k :: 0 <= k < |Unrecognised(tokens)| ==>
      Errors(Events(Plan(tokens), scenes))[k] == UnknownPlatformMessage(Unrecognised(tokens)[k])
  {
    if tokens != [] {
      var a := Dispatch(tokens[0]);
      var head := ActionEvents(a, scenes);
      var tail := Events(Plan(tokens[1..]), scenes);
      ErrorsFollowTokenOrder(tokens[1..], scenes);
      assert Events(Plan(tokens), scenes) == head + tail;
      ErrorsAppend(head, tail);
      ActionErrors(a, scenes);
      var errors, rest := Errors(head + tail), Errors(tail);
      if a.Error? {
        assert Unrecognised(tokens) == [tokens[0]] + Unrecognised(tokens[1..]);
        forall k | 0 <= k < |Unrecognised(tokens)|
          ensures errors[k] == UnknownPlatformMessage(Unrecognised(tokens)[k])
        {
          if k > 0 {
            assert errors[k] == rest[k - 1];
            assert Unrecognised(tokens)[k] == Unrecognised(tokens[1..])[k - 1];
          }
        }
      } else {
        assert Unrecognised(tokens) == Unrecognised(tokens[1..]);
        assert errors == rest;
      }
    }
  }

  /** Each token's share of the effects repeats with the token: duplicates are built twice. */
  lemma DuplicateTokensBuildTwice(tokens: seq<string>, scenes: seq<Scene>)
    ensures Builds(Events(Plan(tokens + tokens), scenes))
         == Builds(Events(Plan(tokens), scenes)) + Builds(Events(Plan(tokens), scenes))
  {
    PlanAppend(tokens, tokens);
    EventsAppend(Plan(tokens), Plan(tokens), scenes);
    BuildsAppend(Events(Plan(tokens), scenes), Events(Plan(tokens), scenes));
  }

  // ---------------------------------------------------------------------
  // The active build target
  // ---------------------------------------------------------------------

  /** Every player build in `log` is issued right after switching the active target to its target. */
  ghost predicate SwitchesBeforeBuilding(log: seq<Event>) {
    forall k :: 0 <= k < |log| && log[k].Played? ==> 0 < k && log[k - 1] == Switched(log[k].options.target)
  }

  /** The effects of any plan switch the target before each build, and never start with a build. */
  lemma {:induction false} EventsSwitchBeforeBuilding(plan: seq<Action>, scenes: seq<Scene>)
    ensures SwitchesBeforeBuilding(Events(plan, scenes))
    ensures Events(plan, scenes) == [] || !Events(plan, scenes)[0].Played?
  {
    if plan != [] {
      var head := ActionEvents(plan[0], scenes);
      var tail := Events(plan[1..], scenes);
      var log := head + tail;
      EventsSwitchBeforeBuilding(plan[1..], scenes);
      forall k | 0 <= k < |log| && log[k].Played?
        ensures 0 < k && log[k - 1] == Switched(log[k].options.target)
      {
        if k >= |head| {
          assert log[k] == tail[k - |head|];
          if k > |head| {
            assert log[k - 1] == tail[k - 1 - |head|];
          }
        }
      }
    }
  }

  /** Whatever the oracle answers, each player build of a run is issued right after a request to switch to its own target. */
  lemma RunSwitchesBeforeBuilding(plan: seq<Action>, scenes: seq<Scene>, oracle: BuildOracle, calls: nat)
    ensures SwitchesBeforeBuilding(Execute(plan, scenes, oracle, calls).log)
  {
    var run := Execute(plan, scenes, oracle, calls);
    ExecuteStopsAtFirstFailure(plan, scenes, oracle, calls);
    EventsSwitchBeforeBuilding(plan[..run.processed], scenes);
  }

  // ---------------------------------------------------------------------
  // Whole command lines
  // ---------------------------------------------------------------------

  /** Without a `-platforms` value (flag absent or last), the run logs one error, builds nothing, and completes. */
  lemma NoPlatformsValue(args: seq<string>, white: CharClass, scenes: seq<Scene>, oracle: BuildOracle)
    requires GetArg(args, PlatformsFlag) == ""
    ensures CommandLineRun(args, white, scenes, oracle) == Run([Logged("Unknown platform: ")], Completed, 1)
  {
    MissingPlatformsValue(white);
    var plan := Plan(Tokens(GetArg(args, PlatformsFlag), white));
    assert plan == [Error("")];
    assert plan[1..] == [];
    assert Execute(plan[1..], scenes, oracle, 0) == Run([], Completed, 0);
    assert UnknownPlatformMessage("") == "Unknown platform: ";
  }

  /**
   * For a command line whose first `-platforms` is followed by a
   * comma-joined list, the k-th action is the dispatch of the k-th list
   * entry, trimmed; arguments after the value, a repeated flag included, play no part.
   */
  lemma CommandLinePlan(prefix: seq<string>, pieces: seq<string>, rest: seq<string>, white: CharClass)
    requires PlatformsFlag !in prefix
    requires pieces != []
    requires forall k :: 0 <= k < |pieces| ==> ',' !in pieces[k]
    ensures |Plan(Tokens(GetArg(prefix + [PlatformsFlag, Join(pieces, ',')] + rest, PlatformsFlag), white))| == |pieces|
    ensures forall k :: 0 <= k < |pieces| ==>
      Plan(Tokens(GetArg(prefix + [PlatformsFlag, Join(pieces, ',')] + rest, PlatformsFlag), white))[k]
        == Dispatch(Trim(pieces[k], white))
  {
    var value := Join(pieces, ',');
    GetArgFirstOccurrenceWins(prefix, PlatformsFlag, value, rest);
    TokensOfJoin(pieces, white);
    forall k | 0 <= k < |pieces|
      ensures Plan(Tokens(value, white))[k] == Dispatch(Trim(pieces[k], white))
    {
      PlanAt(Tokens(value, white), k);
    }
  }

  /**
   * When the second player build fails, the run ends there: whatever tokens
   * follow are neither switched to nor built nor logged.
   */
  lemma SecondBuildFails(t1: Target, t2: Target, rest: seq<string>, scenes: seq<Scene>, oracle: BuildOracle)
    requires forall o :: oracle(0, o) == Succeeded && oracle(1, o) == Failed
    ensures Execute(Plan([PlatformName(t1), PlatformName(t2)] + rest), scenes, oracle, 0)
         == Run([Switched(t1), Played(Options(t1, OutputPath(t1), scenes)),
                 Switched(t2), Played(Options(t2, OutputPath(t2), scenes))],
                Threw(FailureMessage(t2)), 2)
  {
    var tokens := [PlatformName(t1), PlatformName(t2)] + rest;
    var a1, a2 := Action.Build(t1, OutputPath(t1)), Action.Build(t2, OutputPath(t2));
    DispatchRoundTrip(t1, PlatformName(t1));
    DispatchRoundTrip(t2, PlatformName(t2));
    assert tokens[0] == PlatformName(t1) && tokens[1..][0] == PlatformName(t2);
    NextToken(tokens, scenes, oracle, 0);
    NextToken(tokens[1..], scenes, oracle, 1);
    assert [a2][1..] == [] && [a1][1..] == [];
    assert Execute([a2], scenes, oracle, 1) == Run(ActionEvents(a2, scenes), Threw(FailureMessage(t2)), 1);
    assert Execute([a1], scenes, oracle, 0) == Run(ActionEvents(a1, scenes), Completed, 1);
  }

  /** When every player build succeeds, the run over `tokens` completes with the effects in token order. */
  lemma AllSucceedEffects(tokens: seq<string>, scenes: seq<Scene>, oracle: BuildOracle)
    requires forall j :: 0 <= j < |tokens| ==> BuildSucceeds(Plan(tokens), scenes, oracle, 0, j)
    ensures var run := Execute(Plan(tokens), scenes, oracle, 0);
      && run.status == Completed
      && |Builds(run.log)| == |Recognised(tokens)|
      && (forall k :: 0 <= k < |Recognised(tokens)| ==> PlatformName(Builds(run.log)[k].target) == Recognised(tokens)[k])
      && |Errors(run.log)| == |Unrecognised(tokens)|
      && (forall k :: 0 <= k < |Unrecognised(tokens)| ==> Errors(run.log)[k] == UnknownPlatformMessage(Unrecognised(tokens)[k]))
  {
    ExecuteAllSucceed(Plan(tokens), scenes, oracle, 0);
    BuildsFollowTokenOrder(tokens, scenes);
    ErrorsFollowTokenOrder(tokens, scenes);
  }
}
