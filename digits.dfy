/** Digit runs, as the page writes numbers and as the worker's pattern `\d+` matches
    them, and the facts about '/'-joined digit runs that both keys rely on. */
module Digits {

  /** What the regular-expression class `\d` accepts: an ASCII digit. */
  predicate IsDigit(c: char) {
    '0' <= c <= '9'
  }

  predicate AllDigits(s: string) {
    forall i :: 0 <= i < |s| ==> IsDigit(s[i])
  }

  /** A nonempty run of digits: what `\d+` matches. */
  predicate IsNumeral(s: string) {
    |s| > 0 && AllDigits(s)
  }

  /** In a digit run followed by '/', the first '/' is the one after the run. */
  lemma SlashAt(a: string, r: string, i: nat)
    requires AllDigits(a) && i <= |a|
    ensures (a + "/" + r)[i] == '/' <==> i == |a|
  {
  }

  /** Two '/'-joined strings whose first parts are digits split at the same place. */
  lemma SplitAtFirstSlash(a1: string, r1: string, a2: string, r2: string)
    requires AllDigits(a1) && AllDigits(a2)
    requires a1 + "/" + r1 == a2 + "/" + r2
    ensures a1 == a2 && r1 == r2
  {
    var s := a1 + "/" + r1;
    var m := if |a1| <= |a2| then |a1| else |a2|;
    SlashAt(a1, r1, m);
    SlashAt(a2, r2, m);
    assert a1 == s[..|a1|] == a2;
    assert r1 == s[|a1| + 1..] == r2;
  }

  /** Three digit runs joined by '/' can be taken apart again. */
  lemma JoinInjective(z1: string, x1: string, y1: string, z2: string, x2: string, y2: string)
    requires AllDigits(z1) && AllDigits(x1) && AllDigits(z2) && AllDigits(x2)
    requires z1 + "/" + x1 + "/" + y1 == z2 + "/" + x2 + "/" + y2
    ensures z1 == z2 && x1 == x2 && y1 == y2
  {
    assert z1 + "/" + x1 + "/" + y1 == z1 + "/" + (x1 + "/" + y1);
    assert z2 + "/" + x2 + "/" + y2 == z2 + "/" + (x2 + "/" + y2);
    SplitAtFirstSlash(z1, x1 + "/" + y1, z2, x2 + "/" + y2);
    SplitAtFirstSlash(x1, y1, x2, y2);
  }
}
