/** Splitting a command line into arguments (build_argv in woosh.c).

    The source tokenizes with `strtok_r(line, " ", ...)`: the only
    delimiter is the space character (a tab is part of a word), runs of
    delimiters never yield empty tokens, and every token is copied with
    `strncat` into a MAX_ARG_LENGTH buffer, so at most MAX_TOKEN characters
    of it survive. `Tokens` is the reference meaning (the maximal runs of
    non-space characters, characterised by `Layout`), `SplitArgs` adds the
    truncation, and `BuildArgv` is the scanning loop itself. */
module Tokenizer {
  import opened Wrappers
  import opened Config
  import opened CStrings

  const SPACE: char := ' '

  /** A token as `strtok_r` yields it: non-empty and free of delimiters. */
  predicate IsWord(t: string) {
    |t| > 0 && forall i :: 0 <= i < |t| ==> t[i] != SPACE
  }

  predicate AllWords(ts: seq<string>) {
    forall i :: 0 <= i < |ts| ==> IsWord(ts[i])
  }

  predicate AllSpaces(s: string) {
    forall i :: 0 <= i < |s| ==> s[i] == SPACE
  }

  /** Length of the run of non-space characters that starts `s`. */
  function RunLength(s: string): (n: nat)
    ensures n <= |s|
    ensures forall k :: 0 <= k < n ==> s[k] != SPACE
    ensures n == |s| || s[n] == SPACE
  {
    if |s| == 0 || s[0] == SPACE then 0 else 1 + RunLength(s[1..])
  }

  /** The three facts above pin the run length down. */
  lemma RunLengthUnique(s: string, m: nat)
    requires m <= |s|
    requires forall k :: 0 <= k < m ==> s[k] != SPACE
    requires m == |s| || s[m] == SPACE
    ensures RunLength(s) == m
  {
  }

  /** The maximal runs of non-space characters of `s`, in order. */
  function Tokens(s: string): (ts: seq<string>)
    ensures AllWords(ts)
    decreases |s|
  {
    if |s| == 0 then []
    else if s[0] == SPACE then Tokens(s[1..])
    else
      var n := RunLength(s);
      [s[..n]] + Tokens(s[n..])
  }

  /** The argument text `strncat(buf, token, MAX_ARG_LENGTH - 1)` leaves in a
      zeroed buffer: the longest prefix of the token that fits. */
  function Truncate(t: string): (r: string)
    ensures r <= t
    ensures |r| == if |t| <= MAX_TOKEN then |t| else MAX_TOKEN
  {
    if |t| <= MAX_TOKEN then t else t[..MAX_TOKEN]
  }

  /** The argument list build_argv produces from the C string `s`: one
      argument per token, in order, each a non-empty, space-free prefix of
      its token no longer than MAX_TOKEN, and a token that fits is copied
      unchanged. */
  function SplitArgs(s: string): (argv: seq<string>)
    ensures |argv| == |Tokens(s)|
    ensures forall i :: 0 <= i < |argv| ==>
      && IsWord(argv[i])
      && |argv[i]| <= MAX_TOKEN
      && argv[i] <= Tokens(s)[i]
      && |argv[i]| == (if |Tokens(s)[i]| <= MAX_TOKEN then |Tokens(s)[i]| else MAX_TOKEN)
      && (|Tokens(s)[i]| <= MAX_TOKEN ==> argv[i] == Tokens(s)[i])
  {
    var ts := Tokens(s);
    seq(|ts|, i requires 0 <= i < |ts| => assert IsWord(ts[i]); Truncate(ts[i]))
  }

  /** When no token is longer than MAX_TOKEN nothing is truncated. */
  lemma SplitArgsNoTruncation(s: string)
    requires forall i :: 0 <= i < |Tokens(s)| ==> |Tokens(s)[i]| <= MAX_TOKEN
    ensures SplitArgs(s) == Tokens(s)
  {
  }

  /** One step of the scan: a delimiter is skipped. */
  lemma TokensSkipSpace(s: string, i: nat)
    requires i < |s| && s[i] == SPACE
    ensures Tokens(s[i..]) == Tokens(s[i + 1..])
  {
  }

  /** One step of the scan: the maximal run s[i..j] is the next token. */
  lemma TokensTakeRun(s: string, i: nat, j: nat)
    requires i < j <= |s|
    requires forall k :: i <= k < j ==> s[k] != SPACE
    requires j == |s| || s[j] == SPACE
    ensures Tokens(s[i..]) == [s[i..j]] + Tokens(s[j..])
  {
    RunLengthUnique(s[i..], j - i);
    assert s[i..][..j - i] == s[i..j];
    assert s[i..][j - i..] == s[j..];
  }

  /** build_argv(from_string, out_result). A NULL string or a NULL result
      handle gives -1 and no list; otherwise the loop walks the tokens of
      the C string in `from`, appends each truncated token, and returns
      how many it appended. */
  method BuildArgv(from: Option<seq<char>>, outPresent: bool) returns (count: int, argv: seq<string>)
    ensures from.None? || !outPresent ==> count == -1 && argv == []
    ensures from.Some? && outPresent ==>
      && count == |argv| == |Tokens(CStr(from.value))|
      && (forall i :: 0 <= i < |argv| ==> argv[i] == Truncate(Tokens(CStr(from.value))[i]))
      && argv == SplitArgs(CStr(from.value))
    ensures forall i :: 0 <= i < |argv| ==> IsWord(argv[i]) && |argv[i]| <= MAX_TOKEN
  {
    if from.None? || !outPresent {
      return -1, [];
    }
    var s := CStr(from.value);
    argv := ScanTokens(s);
    count := |argv|;
  }

  /** The strtok_r loop of build_argv over the C string `s`: skip
      delimiters, take the next maximal run, store it truncated. */
  method ScanTokens(s: string) returns (argv: seq<string>)
    ensures argv == SplitArgs(s)
  {
    ghost var done: seq<string> := [];
    argv := [];
    var i := 0;
    while i < |s|
      invariant 0 <= i <= |s|
      invariant done + Tokens(s[i..]) == Tokens(s)
      invariant |argv| == |done|
      invariant forall k :: 0 <= k < |argv| ==> argv[k] == Truncate(done[k])
      decreases |s| - i
    {
      if s[i] == SPACE {
        // a delimiter: strtok_r skips it
        TokensSkipSpace(s, i);
        i := i + 1;
      } else {
        var j := ScanRun(s, i);
        TokensTakeRun(s, i, j);
        done := done + [s[i..j]];
        argv := argv + [Truncate(s[i..j])];
        i := j;
      }
    }
    assert s[i..] == [];
    SplitArgsOf(s, argv);
  }

  /** The end of the run of non-space characters that starts at `i`: the
      part of the C string strtok_r returns as one token. */
  method ScanRun(s: string, i: nat) returns (j: nat)
    requires i < |s| && s[i] != SPACE
    ensures i < j <= |s|
    ensures forall k :: i <= k < j ==> s[k] != SPACE
    ensures j == |s| || s[j] == SPACE
  {
    j := i + 1;
    while j < |s| && s[j] != SPACE
      invariant i < j <= |s|
      invariant forall k :: i <= k < j ==> s[k] != SPACE
    {
      j := j + 1;
    }
  }

  lemma SplitArgsOf(s: string, argv: seq<string>)
    requires |argv| == |Tokens(s)|
    requires forall k :: 0 <= k < |argv| ==> argv[k] == Truncate(Tokens(s)[k])
    ensures argv == SplitArgs(s)
  {
  }

  // ---------------------------------------------------------------------
  // Characterisation of Tokens: a line is its tokens laid out between
  // runs of spaces, and the tokens are the only such reading.

  function Spaces(n: nat): (r: string)
    ensures |r| == n && AllSpaces(r)
  {
    seq(n, _ => SPACE)
  }

  /** Gaps fit a token list when there is one more gap than tokens and
      every gap between two tokens holds at least one space. */
  predicate ValidGaps(ts: seq<string>, gaps: seq<nat>) {
    |gaps| == |ts| + 1 && forall i :: 0 < i < |ts| ==> gaps[i] > 0
  }

  /** gaps[0] spaces, ts[0], gaps[1] spaces, ts[1], ..., gaps[|ts|] spaces. */
  function Layout(ts: seq<string>, gaps: seq<nat>): string
    requires |gaps| == |ts| + 1
    decreases |ts|
  {
    if |ts| == 0 then Spaces(gaps[0])
    else Spaces(gaps[0]) + ts[0] + Layout(ts[1..], gaps[1..])
  }

  /** The spaces the tokenizer skipped around each token of `s`. */
  function GapsOf(s: string): (gaps: seq<nat>)
    ensures |gaps| == |Tokens(s)| + 1
    decreases |s|
  {
    if |s| == 0 then [0]
    else if s[0] == SPACE then
      var g := GapsOf(s[1..]);
      [g[0] + 1] + g[1..]
    else [0] + GapsOf(s[RunLength(s)..])
  }

  lemma {:induction false} TokensAfterSpaces(n: nat, s: string)
    ensures Tokens(Spaces(n) + s) == Tokens(s)
  {
    if n > 0 {
      assert (Spaces(n) + s)[1..] == Spaces(n - 1) + s;
      TokensAfterSpaces(n - 1, s);
    } else {
      assert Spaces(n) + s == s;
    }
  }

  lemma TokensOfWordThen(t: string, rest: string)
    requires IsWord(t)
    requires |rest| == 0 || rest[0] == SPACE
    ensures Tokens(t + rest) == [t] + Tokens(rest)
  {
    var s := t + rest;
    RunLengthUnique(s, |t|);
    assert s[..|t|] == t;
    assert s[|t|..] == rest;
  }

  /** Round trip: reading back a layout of words gives exactly those words,
      whatever the spacing. */
  lemma {:induction false} TokensOfLayout(ts: seq<string>, gaps: seq<nat>)
    requires AllWords(ts)
    requires ValidGaps(ts, gaps)
    ensures Tokens(Layout(ts, gaps)) == ts
  {
    if |ts| == 0 {
      TokensAfterSpaces(gaps[0], []);
      assert Spaces(gaps[0]) + [] == Spaces(gaps[0]);
    } else {
      var rest := Layout(ts[1..], gaps[1..]);
      assert ValidGaps(ts[1..], gaps[1..]) by {
        forall i | 0 < i < |ts[1..]|
          ensures gaps[1..][i] > 0
        {
          assert gaps[1..][i] == gaps[i + 1];
        }
      }
      TokensOfLayout(ts[1..], gaps[1..]);
      assert |rest| == 0 || rest[0] == SPACE by {
        if |ts| > 1 {
          assert gaps[1] > 0;
        }
      }
      assert Layout(ts, gaps) == Spaces(gaps[0]) + (ts[0] + rest);
      TokensAfterSpaces(gaps[0], ts[0] + rest);
      assert IsWord(ts[0]);
      TokensOfWordThen(ts[0], rest);
      assert ts == [ts[0]] + ts[1..];
    }
  }

  lemma LayoutWiderFirstGap(ts: seq<string>, g: seq<nat>)
    requires |g| == |ts| + 1
    ensures Layout(ts, [g[0] + 1] + g[1..]) == [SPACE] + Layout(ts, g)
  {
  }

  /** Every line is a layout of its own tokens, with the gaps the tokenizer
      skipped. Together with TokensOfLayout: the tokens of `s` are the one
      list of words that `s` lays out, i.e. its maximal non-space runs. */
  lemma {:induction false} LayoutOfTokens(s: string)
    ensures ValidGaps(Tokens(s), GapsOf(s))
    ensures Layout(Tokens(s), GapsOf(s)) == s
    decreases |s|
  {
    if |s| == 0 {
    } else if s[0] == SPACE {
      LayoutOfTokens(s[1..]);
      LayoutWiderFirstGap(Tokens(s[1..]), GapsOf(s[1..]));
      assert s == [SPACE] + s[1..];
    } else {
      var n := RunLength(s);
      var rest := s[n..];
      LayoutOfTokens(rest);
      var ts := Tokens(s);
      var gaps := GapsOf(s);
      assert ts[1..] == Tokens(rest);
      assert gaps[1..] == GapsOf(rest);
      assert Layout(ts, gaps) == Spaces(0) + s[..n] + Layout(Tokens(rest), GapsOf(rest));
      assert Spaces(0) + s[..n] + rest == s;
      if |ts| > 1 {
        assert |rest| > 0 && rest[0] == SPACE;
        assert gaps[1] == GapsOf(rest)[0] > 0;
      }
      forall i | 1 < i < |ts|
        ensures gaps[i] > 0
      {
        assert gaps[i] == GapsOf(rest)[i - 1];
      }
    }
  }

  /** Dropping every space from a line. */
  function RemoveSpaces(s: string): (r: string)
    decreases |s|
  {
    if |s| == 0 then []
    else if s[0] == SPACE then RemoveSpaces(s[1..])
    else [s[0]] + RemoveSpaces(s[1..])
  }

  function Concat(ts: seq<string>): string
    decreases |ts|
  {
    if |ts| == 0 then [] else ts[0] + Concat(ts[1..])
  }

  lemma {:induction false} RemoveSpacesOfWordThen(t: string, rest: string)
    requires forall i :: 0 <= i < |t| ==> t[i] != SPACE
    ensures RemoveSpaces(t + rest) == t + RemoveSpaces(rest)
    decreases |t|
  {
    if |t| > 0 {
      assert (t + rest)[1..] == t[1..] + rest;
      RemoveSpacesOfWordThen(t[1..], rest);
      assert t == [t[0]] + t[1..];
    } else {
      assert t + rest == rest;
    }
  }

  /** Tokens keep the input's order and lose nothing but spaces. */
  lemma {:induction false} ConcatTokens(s: string)
    ensures Concat(Tokens(s)) == RemoveSpaces(s)
    decreases |s|
  {
    if |s| == 0 {
    } else if s[0] == SPACE {
      ConcatTokens(s[1..]);
    } else {
      var n := RunLength(s);
      ConcatTokens(s[n..]);
      RemoveSpacesOfWordThen(s[..n], s[n..]);
      assert s[..n] + s[n..] == s;
      assert Tokens(s)[1..] == Tokens(s[n..]);
    }
  }

  /** A line has no tokens exactly when it holds nothing but spaces. */
  lemma {:induction false} TokensEmptyIff(s: string)
    ensures Tokens(s) == [] <==> AllSpaces(s)
    decreases |s|
  {
    if |s| > 0 && s[0] == SPACE {
      TokensEmptyIff(s[1..]);
      if AllSpaces(s[1..]) {
        assert forall i :: 0 < i < |s| ==> s[i] == s[1..][i - 1];
      }
    }
  }

  /** The example from the header: "ls -ahlrt" gives ["ls", "-ahlrt"], and
      extra spaces between or around the words change nothing. */
  lemma TokensExamples()
    ensures Tokens("ls -ahlrt") == ["ls", "-ahlrt"]
    ensures Tokens("ls   -a") == ["ls", "-a"]
    ensures Tokens("") == [] && Tokens("   ") == []
  {
    TokensOfLayout(["ls", "-ahlrt"], [0, 1, 0]);
    assert Layout(["ls", "-ahlrt"], [0, 1, 0]) == "ls -ahlrt";
    TokensOfLayout(["ls", "-a"], [0, 3, 0]);
    assert Layout(["ls", "-a"], [0, 3, 0]) == "ls   -a";
    TokensEmptyIff("   ");
  }

  /** Two exit lines: the bare word, and a longer word after leading spaces. */
  lemma TokensExitExamples()
    ensures Tokens("exit") == ["exit"]
    ensures Tokens("  exitfoo bar") == ["exitfoo", "bar"]
  {
    TokensOfLayout(["exit"], [0, 0]);
    assert Layout(["exit"], [0, 0]) == "exit";
    TokensOfLayout(["exitfoo", "bar"], [2, 1, 0]);
    assert Layout(["exitfoo", "bar"], [2, 1, 0]) == "  exitfoo bar";
  }
}
