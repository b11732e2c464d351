/**
 * Looking up the value of a command-line flag, as the build pipeline does
 * for `-platforms`: the element right after the FIRST occurrence of the
 * flag, or the empty string when the flag is absent or is the last argument.
 */
module CommandLine {

  /** `i` is the position of the first element of `args` equal to `name`. */
  ghost predicate FirstAt(args: seq<string>, name: string, i: int) {
    0 <= i < |args| && args[i] == name && name !in args[..i]
  }

  /** Linear search of `System.Array.IndexOf`: the first position holding `name`, or -1. */
  function IndexOf(args: seq<string>, name: string): (r: int)
    ensures -1 <= r < |args|
    ensures r == -1 <==> name !in args
    ensures r != -1 ==> FirstAt(args, name, r)
  {
    if |args| == 0 then -1
    else if args[0] == name then 0
    else
      var k := IndexOf(args[1..], name);
      if k == -1 then -1
      else
        assert args[..k + 1] == [args[0]] + args[1..][..k];
        k + 1
  }

  /** The value following the first occurrence of `name`, or "" when there is none. */
  function GetArg(args: seq<string>, name: string): (r: string)
    ensures name !in args ==> r == ""
    ensures forall i :: FirstAt(args, name, i) ==> r == (if i + 1 < |args| then args[i + 1] else "")
  {
    var index := IndexOf(args, name);
    if index >= 0 && index + 1 < |args| then args[index + 1] else ""
  }

  /**
   * Whatever follows the value — further occurrences of the flag included —
   * and whatever the value is — even the flag itself — the first occurrence decides.
   */
  lemma GetArgFirstOccurrenceWins(prefix: seq<string>, name: string, value: string, rest: seq<string>)
    requires name !in prefix
    ensures GetArg(prefix + [name, value] + rest, name) == value
  {
    var args := prefix + [name, value] + rest;
    assert args[..|prefix|] == prefix;
    assert FirstAt(args, name, |prefix|);
  }

  /** A flag given as the very last argument has no value. */
  lemma GetArgFlagLast(prefix: seq<string>, name: string)
    requires name !in prefix
    ensures GetArg(prefix + [name], name) == ""
  {
    var args := prefix + [name];
    assert args[..|prefix|] == prefix;
    assert FirstAt(args, name, |prefix|);
  }

  /** A non-empty result is always the element right after the first occurrence. */
  lemma GetArgNonEmptyFollowsFlag(args: seq<string>, name: string)
    requires GetArg(args, name) != ""
    ensures exists i :: FirstAt(args, name, i) && i + 1 < |args| && args[i + 1] == GetArg(args, name)
  {
    var i := IndexOf(args, name);
    assert FirstAt(args, name, i);
  }
}
