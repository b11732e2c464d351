/**
 * The platform dispatch of `BuildFromCLI`: the `-platforms` value is split
 * on commas, each piece is trimmed, and each trimmed token is looked up in
 * a fixed, exact, case-sensitive table of three platforms.
 */
module Platforms {
  import opened Text

  /** The build-target values the dispatch table uses. */
  datatype Target = StandaloneWindows64 | Android | iOS

  /** What processing one token asks for: a player build, or an error line. */
  datatype Action = Build(target: Target, path: string) | Error(token: string)

  /** The flag that carries the platform list. */
  const PlatformsFlag: string := "-platforms"

  /** The token that selects a target. */
  function PlatformName(t: Target): string {
    match t
    case StandaloneWindows64 => "Windows"
    case Android => "Android"
    case iOS => "iOS"
  }

  /** The fixed output location of a target's player build. */
  function OutputPath(t: Target): string {
    match t
    case StandaloneWindows64 => "Builds/Windows/Game.exe"
    case Android => "Builds/Android/Game.apk"
    case iOS => "Builds/iOS"
  }

  /** The target as the enum prints itself in the failure message. */
  function TargetName(t: Target): string {
    match t
    case StandaloneWindows64 => "StandaloneWindows64"
    case Android => "Android"
    case iOS => "iOS"
  }

  /** The token is a key of the dispatch table. */
  predicate IsPlatformName(token: string) {
    token == PlatformName(StandaloneWindows64) || token == PlatformName(Android) || token == PlatformName(iOS)
  }

  /**
   * The `switch` on a trimmed token: a recognised token maps to the target
   * it names and that target's output path; any other token to an error.
   */
  function Dispatch(token: string): (a: Action)
    ensures a.Build? <==> IsPlatformName(token)
    ensures a.Build? ==> PlatformName(a.target) == token && a.path == OutputPath(a.target)
    ensures a.Error? ==> a.token == token
  {
    match token
    case "Windows" => Build(StandaloneWindows64, "Builds/Windows/Game.exe")
    case "Android" => Build(Android, "Builds/Android/Game.apk")
    case "iOS" => Build(iOS, "Builds/iOS")
    case _ => Error(token)
  }

  /** Every target is reached by its own name, and by no other token. */
  lemma DispatchRoundTrip(t: Target, token: string)
    ensures Dispatch(PlatformName(t)) == Build(t, OutputPath(t))
    ensures Dispatch(token) == Build(t, OutputPath(t)) <==> token == PlatformName(t)
  {
    var a := Dispatch(PlatformName(t));
    assert IsPlatformName(PlatformName(t));
    assert PlatformName(a.target) == PlatformName(t);
  }

  /** The table is exact and case-sensitive: near misses and WebGL are unknown. */
  lemma DispatchRejects()
    ensures Dispatch("windows") == Error("windows")
    ensures Dispatch("ios") == Error("ios")
    ensures Dispatch("WebGL") == Error("WebGL")
    ensures Dispatch("") == Error("")
    ensures Dispatch(" Windows") == Error(" Windows")
  {
  }

  /** The error line logged for an unrecognised token. */
  function UnknownPlatformMessage(token: string): (m: string)
    ensures |m| == |"Unknown platform: "| + |token|
  {
    "Unknown platform: " + token
  }

  /** The logged line names the token exactly: different tokens, different lines. */
  lemma UnknownPlatformMessageInjective(a: string, b: string)
    requires UnknownPlatformMessage(a) == UnknownPlatformMessage(b)
    ensures a == b
  {
    var n := |"Unknown platform: "|;
    assert a == UnknownPlatformMessage(a)[n..];
    assert b == UnknownPlatformMessage(b)[n..];
  }

  /** The `-platforms` value cut at every comma, each piece trimmed. */
  function Tokens(platformsArg: string, white: CharClass): (tokens: seq<string>)
    ensures |tokens| == Count(platformsArg, ',') + 1
  {
    var pieces := Split(platformsArg, ',');
    seq(|pieces|, k requires 0 <= k < |pieces| => Trim(pieces[k], white))
  }

  /**
   * The k-th token is the k-th comma-separated piece, trimmed: it has no
   * white end, and the piece is white space around exactly that token.
   */
  lemma TokensAt(platformsArg: string, white: CharClass, k: nat)
    requires k < Count(platformsArg, ',') + 1
    ensures Tokens(platformsArg, white)[k] == Trim(Split(platformsArg, ',')[k], white)
    ensures Trimmed(Tokens(platformsArg, white)[k], white)
    ensures exists i :: Surrounds(Split(platformsArg, ',')[k], i, Tokens(platformsArg, white)[k], white)
  {
    TrimSpec(Split(platformsArg, ',')[k], white);
  }

  /** The tokens of a comma-joined list are its pieces, trimmed, in order. */
  lemma TokensOfJoin(pieces: seq<string>, white: CharClass)
    requires pieces != []
    requires forall k :: 0 <= k < |pieces| ==> ',' !in pieces[k]
    ensures |Tokens(Join(pieces, ','), white)| == |pieces|
    ensures forall k :: 0 <= k < |pieces| ==> Tokens(Join(pieces, ','), white)[k] == Trim(pieces[k], white)
  {
    SplitJoin(pieces, ',');
    forall k | 0 <= k < |pieces| ensures Tokens(Join(pieces, ','), white)[k] == Trim(pieces[k], white) {
      TokensAt(Join(pieces, ','), white, k);
    }
  }

  /** What the loop is asked to do, token by token. */
  function Plan(tokens: seq<string>): (plan: seq<Action>)
    ensures |plan| == |tokens|
  {
    if tokens == [] then [] else [Dispatch(tokens[0])] + Plan(tokens[1..])
  }

  /** Each token's action is that token's dispatch, in token order. */
  lemma {:induction false} PlanAt(tokens: seq<string>, k: nat)
    requires k < |tokens|
    ensures Plan(tokens)[k] == Dispatch(tokens[k])
  {
    if k > 0 {
      PlanAt(tokens[1..], k - 1);
    }
  }

  /** Planning a concatenation plans each part in turn; repeated tokens repeat their action. */
  lemma {:induction false} PlanAppend(a: seq<string>, b: seq<string>)
    ensures Plan(a + b) == Plan(a) + Plan(b)
  {
    if a == [] {
      assert a + b == b;
    } else {
      assert (a + b)[1..] == a[1..] + b;
      PlanAppend(a[1..], b);
    }
  }

  /** Without a `-platforms` value the list is the single empty token, which is unknown. */
  lemma MissingPlatformsValue(white: CharClass)
    ensures Tokens("", white) == [""]
    ensures Plan(Tokens("", white)) == [Error("")]
  {
    assert Split("", ',') == [""];
  }
}
