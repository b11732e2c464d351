/**
 * The two string operations the build pipeline applies to the `-platforms`
 * value: `String.Split(char)`, which keeps empty pieces, and `String.Trim()`,
 * which strips leading and trailing white space. Which characters count as
 * white space is left abstract: it is a parameter `white`.
 */
module Text {

  /** A character class, such as "is white space". */
  type CharClass = char -> bool

  /** Number of occurrences of `c` in `s`. */
  function Count(s: string, c: char): nat {
    if s == [] then 0 else (if s[0] == c then 1 else 0) + Count(s[1..], c)
  }

  /** The pieces of `s` between occurrences of `sep`, empty pieces included. */
  function Split(s: string, sep: char): (pieces: seq<string>)
    ensures |pieces| == Count(s, sep) + 1
    ensures forall k :: 0 <= k < |pieces| ==> sep !in pieces[k]
  {
    if s == [] then [""]
    else
      var rest := Split(s[1..], sep);
      if s[0] == sep then [""] + rest
      else [[s[0]] + rest[0]] + rest[1..]
  }

  /** The pieces glued back together with `sep` between neighbours (`String.Join`). */
  function Join(pieces: seq<string>, sep: char): string {
    if pieces == [] then ""
    else if |pieces| == 1 then pieces[0]
    else pieces[0] + [sep] + Join(pieces[1..], sep)
  }

  /** Splitting loses nothing: rejoining the pieces gives back the original string. */
  lemma {:induction false} JoinSplit(s: string, sep: char)
    ensures Join(Split(s, sep), sep) == s
  {
    if s != [] {
      var rest := Split(s[1..], sep);
      JoinSplit(s[1..], sep);
      if s[0] != sep {
        if |rest| == 1 {
          assert Split(s, sep) == [[s[0]] + rest[0]];
        } else {
          assert Split(s, sep) == [[s[0]] + rest[0]] + rest[1..];
          assert Split(s, sep)[1..] == rest[1..];
        }
      } else {
        assert Split(s, sep)[1..] == rest;
      }
    }
  }

  /** A piece without separators prefixes the first piece of whatever follows it. */
  lemma {:induction false} SplitPrefix(p: string, t: string, sep: char)
    requires sep !in p
    ensures Split(p + t, sep) == [p + Split(t, sep)[0]] + Split(t, sep)[1..]
  {
    if p != [] {
      SplitPrefix(p[1..], t, sep);
      assert (p + t)[1..] == p[1..] + t;
      assert [p[0]] + (p[1..] + Split(t, sep)[0]) == p + Split(t, sep)[0];
    } else {
      assert p + t == t;
      assert p + Split(t, sep)[0] == Split(t, sep)[0];
      assert Split(t, sep) == [Split(t, sep)[0]] + Split(t, sep)[1..];
    }
  }

  /** Splitting undoes joining, provided no piece contains the separator. */
  lemma {:induction false} SplitJoin(pieces: seq<string>, sep: char)
    requires pieces != []
    requires forall k :: 0 <= k < |pieces| ==> sep !in pieces[k]
    ensures Split(Join(pieces, sep), sep) == pieces
  {
    if |pieces| == 1 {
      SplitPrefix(pieces[0], "", sep);
      assert pieces[0] + "" == pieces[0];
      assert pieces == [pieces[0]];
    } else {
      var p, rest := pieces[0], Join(pieces[1..], sep);
      SplitJoin(pieces[1..], sep);
      assert Split([sep] + rest, sep) == [""] + pieces[1..];
      assert p + [sep] + rest == p + ([sep] + rest);
      SplitPrefix(p, [sep] + rest, sep);
      assert p + "" == p;
      assert pieces == [p] + pieces[1..];
    }
  }

  /** `s` with its white prefix removed (`String.TrimStart()`). */
  function TrimStart(s: string, white: CharClass): (r: string)
    ensures |r| <= |s| && r == s[|s| - |r|..]
    ensures forall k :: 0 <= k < |s| - |r| ==> white(s[k])
    ensures r != [] ==> !white(r[0])
  {
    if s != [] && white(s[0]) then TrimStart(s[1..], white) else s
  }

  /** `s` with its white suffix removed (`String.TrimEnd()`). */
  function TrimEnd(s: string, white: CharClass): (r: string)
    ensures |r| <= |s| && r == s[..|r|]
    ensures forall k :: |r| <= k < |s| ==> white(s[k])
    ensures r != [] ==> !white(r[|r| - 1])
  {
    if s != [] && white(s[|s| - 1]) then TrimEnd(s[..|s| - 1], white) else s
  }

  /** `s` with leading and trailing white space removed (`String.Trim()`). */
  function Trim(s: string, white: CharClass): (r: string)
    ensures |r| <= |s|
    ensures r != [] ==> !white(r[0]) && !white(r[|r| - 1])
  {
    TrimEnd(TrimStart(s, white), white)
  }

  /** All characters of `s` are white. */
  ghost predicate AllWhite(s: string, white: CharClass) {
    forall k :: 0 <= k < |s| ==> white(s[k])
  }

  /** `m` has no white character at either end (the empty string included). */
  ghost predicate Trimmed(m: string, white: CharClass) {
    m == [] || (!white(m[0]) && !white(m[|m| - 1]))
  }

  /** `s` is a white prefix of length `i`, then `m`, then a white suffix. */
  ghost predicate Surrounds(s: string, i: int, m: string, white: CharClass) {
    0 <= i <= |s| - |m| && s[i..i + |m|] == m
    && AllWhite(s[..i], white) && AllWhite(s[i + |m|..], white)
  }

  /** Trimming the start skips exactly a white prefix. */
  lemma {:induction false} TrimStartSkips(lead: string, t: string, white: CharClass)
    requires AllWhite(lead, white) && (t == [] || !white(t[0]))
    ensures TrimStart(lead + t, white) == t
  {
    if lead == [] {
      assert lead + t == t;
    } else {
      assert (lead + t)[1..] == lead[1..] + t;
      assert (lead + t)[0] == lead[0];
      TrimStartSkips(lead[1..], t, white);
    }
  }

  /** Trimming the end drops exactly a white suffix. */
  lemma {:induction false} TrimEndSkips(t: string, trail: string, white: CharClass)
    requires AllWhite(trail, white) && (t == [] || !white(t[|t| - 1]))
    ensures TrimEnd(t + trail, white) == t
  {
    if trail == [] {
      assert t + trail == t;
    } else {
      var n := |trail| - 1;
      assert (t + trail)[..|t| + n] == t + trail[..n];
      assert (t + trail)[|t| + n] == trail[n];
      TrimEndSkips(t, trail[..n], white);
    }
  }

  /**
   * The reference definition of trimming: whenever `s` is a white prefix, a
   * core with no white ends and a white suffix, trimming yields the core.
   */
  lemma TrimCore(lead: string, m: string, trail: string, white: CharClass)
    requires AllWhite(lead, white) && AllWhite(trail, white) && Trimmed(m, white)
    ensures Trim(lead + m + trail, white) == m
  {
    if m == [] {
      assert lead + m + trail == (lead + trail) + [];
      assert AllWhite(lead + trail, white) by {
        var w := lead + trail;
        forall k | 0 <= k < |w| ensures white(w[k]) {
          if k < |lead| { assert w[k] == lead[k]; } else { assert w[k] == trail[k - |lead|]; }
        }
      }
      TrimStartSkips(lead + trail, [], white);
    } else {
      assert lead + m + trail == lead + (m + trail);
      TrimStartSkips(lead, m + trail, white);
      TrimEndSkips(m, trail, white);
    }
  }

  /** Trimming removes only white space from the two ends, and leaves no white end. */
  lemma TrimSpec(s: string, white: CharClass)
    ensures Trimmed(Trim(s, white), white)
    ensures exists i :: Surrounds(s, i, Trim(s, white), white)
  {
    var u := TrimStart(s, white);
    var r := TrimEnd(u, white);
    var i := |s| - |u|;
    assert s[i..i + |r|] == u[..|r|];
    var head, tail := s[..i], s[i + |r|..];
    forall k | 0 <= k < |head| ensures white(head[k]) {
      assert head[k] == s[k];
    }
    forall k | 0 <= k < |tail| ensures white(tail[k]) {
      assert tail[k] == u[|r| + k];
    }
    assert Surrounds(s, i, r, white);
  }

  /** Trimming twice is trimming once. */
  lemma TrimIdempotent(s: string, white: CharClass)
    ensures Trim(Trim(s, white), white) == Trim(s, white)
  {
    var m := Trim(s, white);
    TrimCore([], m, [], white);
    assert [] + m + [] == m;
  }
}
