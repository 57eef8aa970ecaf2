/** trim_right in woosh.c: overwrite the last character of a C string when
    it is the character to trim. The cycle uses it to cut the newline the
    line reader keeps, writing a NUL over it. */
module Trim {
  import opened Wrappers
  import opened CStrings

  const NEWLINE: char := '\n'

  /** trim_right(str, to_trim, replace_with) on the buffer `str`. Only the
      C string in the buffer is looked at, so the candidate is the character
      before the first NUL. A NULL buffer is left alone. */
  function TrimRight(str: Option<seq<char>>, toTrim: char, replaceWith: char): (r: Option<seq<char>>)
    ensures str.None? <==> r.None?
    ensures str.Some? ==>
      var n := |CStr(str.value)|;
      && |r.value| == |str.value|
      && (forall i :: 0 <= i < |str.value| && i != n - 1 ==> r.value[i] == str.value[i])
      && (n > 0 && str.value[n - 1] == toTrim ==> r.value[n - 1] == replaceWith)
      && (n == 0 || str.value[n - 1] != toTrim ==> r == str)
  {
    match str
    case None => None
    case Some(s) =>
      var n := |CStr(s)|;
      if n > 0 && s[n - 1] == toTrim then Some(s[..n - 1] + [replaceWith] + s[n..]) else str
  }

  /** The line the tokenizer sees after the cycle trims a newline-free line
      that may or may not end in a newline: the line without that newline. */
  lemma TrimNewlineRoundTrip(line: string)
    requires NulFree(line)
    requires forall i :: 0 <= i < |line| ==> line[i] != NEWLINE
    ensures CStr(TrimRight(Some(line + [NEWLINE]), NEWLINE, NUL).value) == line
    ensures CStr(TrimRight(Some(line), NEWLINE, NUL).value) == line
  {
    assert NulFree(line + [NEWLINE]);
    CStrOfNulFree(line + [NEWLINE], []);
    CStrOfNulFree(line, []);
    assert TrimRight(Some(line + [NEWLINE]), NEWLINE, NUL).value == line + [NUL] + [];
  }

  /** Trimming with a NUL replacement shortens the C string by at most one
      character: a second newline is never removed. */
  lemma TrimRemovesOneNewline(line: string)
    requires NulFree(line)
    ensures CStr(TrimRight(Some(line + [NEWLINE, NEWLINE]), NEWLINE, NUL).value) == line + [NEWLINE]
  {
    var l := line + [NEWLINE];
    assert line + [NEWLINE, NEWLINE] == l + [NEWLINE];
    assert NulFree(l) && NulFree(l + [NEWLINE]);
    CStrOfNulFree(l + [NEWLINE], []);
    assert TrimRight(Some(l + [NEWLINE]), NEWLINE, NUL).value == l + [NUL] + [];
    CStrOfNulFree(l, []);
  }

  /** A newline after an embedded NUL is not part of the C string, so it is
      left in place. */
  lemma TrimStopsAtNul(line: string)
    requires NulFree(line)
    requires |line| == 0 || line[|line| - 1] != NEWLINE
    ensures TrimRight(Some(line + [NUL, NEWLINE]), NEWLINE, NUL) == Some(line + [NUL, NEWLINE])
  {
    assert line + [NUL, NEWLINE] == line + [NUL] + [NEWLINE];
    CStrOfNulFree(line, [NEWLINE]);
  }
}
