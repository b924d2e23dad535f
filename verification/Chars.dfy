/** ASCII character classes and runs of them. */
module Chars {

  predicate Digit(c: char) { '0' <= c <= '9' }
  predicate Letter(c: char) { 'a' <= c <= 'z' || 'A' <= c <= 'Z' || c == '_' }
  predicate Word(c: char) { Letter(c) || Digit(c) }

  /** How many characters at the head satisfy `p`. */
  function Run(p: char -> bool, s: string): (n: nat)
    ensures n <= |s|
  {
    if s != [] && p(s[0]) then 1 + Run(p, s[1..]) else 0
  }

  lemma {:induction false} RunEnds(p: char -> bool, s: string)
    ensures Run(p, s) < |s| ==> !p(s[Run(p, s)])
  {
    if s != [] && p(s[0]) { RunEnds(p, s[1..]); }
  }

  lemma {:induction false} RunAll(p: char -> bool, s: string, i: nat)
    requires i < Run(p, s)
    ensures p(s[i])
  {
    if i > 0 { RunAll(p, s[1..], i - 1); }
  }

  predicate All(p: char -> bool, s: string) { forall i :: 0 <= i < |s| ==> p(s[i]) }

  /** An identifier. */
  predicate IsName(s: string) { s != [] && Letter(s[0]) && All(Word, s) }

  /** Python's `part in s`. */
  predicate Contains(s: string, part: string) {
    part <= s || (s != [] && Contains(s[1..], part))
  }

  /** A run ends where the class ends. */
  lemma {:induction false} RunIs(p: char -> bool, a: string, b: string)
    requires All(p, a) && (b == [] || !p(b[0]))
    ensures Run(p, a + b) == |a|
  {
    if a == [] {
      assert a + b == b;
    } else {
      assert (a + b)[1..] == a[1..] + b;
      RunIs(p, a[1..], b);
    }
  }
}
