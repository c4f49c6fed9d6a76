/** The two JavaScript string operations the server relies on, over `seq<char>`. */
module Strings {

  /** `s.endsWith(suffix)`: a literal, case-sensitive suffix test. */
  predicate EndsWith(s: string, suffix: string)
    ensures EndsWith(s, suffix) ==> |suffix| <= |s| && s[..|s| - |suffix|] + suffix == s
  {
    |suffix| <= |s| && s[|s| - |suffix|..] == suffix
  }

  /** `s.slice(0, -n)` for a positive `n`: drops the last `n` characters,
      and yields the empty string when `s` is shorter than that. */
  function DropLast(s: string, n: nat): (r: string)
    requires n > 0
    ensures r <= s
    ensures |r| == if n <= |s| then |s| - n else 0
  {
    if n <= |s| then s[..|s| - n] else []
  }

  /** A string that ends with `suffix` is what `slice(0, -|suffix|)` keeps, followed by `suffix`. */
  lemma DropLastEndsWith(s: string, suffix: string)
    requires |suffix| > 0 && EndsWith(s, suffix)
    ensures DropLast(s, |suffix|) + suffix == s
  {
    assert s == s[..|s| - |suffix|] + s[|s| - |suffix|..];
  }

  /** Appending a suffix and dropping it again is the identity, and the result ends with it. */
  lemma AppendThenDrop(prefix: string, suffix: string)
    requires |suffix| > 0
    ensures EndsWith(prefix + suffix, suffix)
    ensures DropLast(prefix + suffix, |suffix|) == prefix
  {
    var s := prefix + suffix;
    assert s[..|prefix|] == prefix;
    assert s[|prefix|..] == suffix;
  }

  /** `s` is `t + suffix` exactly when it ends with `suffix` and `t` is what slicing it off keeps. */
  lemma SplitSuffix(s: string, t: string, suffix: string)
    requires |suffix| > 0
    ensures s == t + suffix <==> EndsWith(s, suffix) && DropLast(s, |suffix|) == t
  {
    if s == t + suffix {
      AppendThenDrop(t, suffix);
    }
    if EndsWith(s, suffix) && DropLast(s, |suffix|) == t {
      DropLastEndsWith(s, suffix);
    }
  }
}
