/** The C-string view of character buffers: what `strlen` and `strncmp` see. */
module CStrings {

  const NUL: char := '\0'

  predicate NulFree(s: string) {
    forall i :: 0 <= i < |s| ==> s[i] != NUL
  }

  /** The C string stored in a buffer: the characters before the first NUL,
      or the whole buffer when it holds none. */
  function CStr(buf: seq<char>): (s: string)
    ensures |s| <= |buf| && s == buf[..|s|]
    ensures NulFree(s)
    ensures |s| == |buf| || buf[|s|] == NUL
  {
    if |buf| == 0 || buf[0] == NUL then [] else [buf[0]] + CStr(buf[1..])
  }

  /** A buffer without NUL is read back whole; one NUL ends the string. */
  lemma CStrOfNulFree(s: string, rest: seq<char>)
    requires NulFree(s)
    ensures CStr(s) == s
    ensures CStr(s + [NUL] + rest) == s
  {
    var b := s + [NUL] + rest;
    assert b[|s|] == NUL;
  }

  /** `strncmp(a, b, n) == 0` for C strings whose contents are `a` and `b`:
      at most `n` positions are compared and the comparison stops at the
      terminator, which only matches another terminator. So the strings agree
      on their first `n` characters when both are that long, and are equal
      otherwise. */
  function StrnEq(a: string, b: string, n: nat): (r: bool)
    ensures r <==> if |a| >= n && |b| >= n then a[..n] == b[..n] else a == b
    decreases n
  {
    if n == 0 then true
    else if |a| == 0 || |b| == 0 then |a| == 0 && |b| == 0
    else
      assert a == [a[0]] + a[1..] && b == [b[0]] + b[1..];
      assert |a| >= n && |b| >= n ==>
        a[..n] == [a[0]] + a[1..][..n - 1] && b[..n] == [b[0]] + b[1..][..n - 1];
      a[0] == b[0] && StrnEq(a[1..], b[1..], n - 1)
  }

  /** Comparing with a keyword over exactly the keyword's length is a prefix
      test: the word matches exactly when it begins with the keyword, so
      longer words such as "exitfoo" match "exit" too. */
  lemma {:induction false} StrnEqKeyword(word: string, kw: string)
    ensures StrnEq(word, kw, |kw|) <==> kw <= word
  {
    if |kw| == 0 {
    } else if |word| == 0 {
    } else {
      StrnEqKeyword(word[1..], kw[1..]);
    }
  }
}
