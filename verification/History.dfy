/**
 Bounded histories: what is left of a log when only its newest entries are kept.
 */
module History {

  /** The newest `n` elements. */
  function LastN<T>(s: seq<T>, n: nat): seq<T> {
    if |s| <= n then s else s[|s| - n..]
  }

  /** It is the end of the log, as much of it as fits; the newest entry is always there. */
  lemma {:induction false} LastNIsEnd<T>(s: seq<T>, n: nat)
    ensures var kept := LastN(s, n);
            && |kept| == (if |s| < n then |s| else n)
            && s == s[..|s| - |kept|] + kept
            && (s != [] && n > 0 ==> kept[|kept| - 1] == s[|s| - 1])
  {
  }

  /** Appending to a trimmed log and trimming again is trimming the whole log. */
  lemma {:induction false} LastNStep<T>(s: seq<T>, x: T, n: nat)
    ensures LastN(LastN(s, n) + [x], n) == LastN(s + [x], n)
  {
  }
}
