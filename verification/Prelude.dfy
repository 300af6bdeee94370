/** Vocabulary shared by every component of the model. */
module Prelude {

  /** A value that may be SQL NULL, Python None, or a missing row. */
  datatype Option<+T> = None | Some(value: T)

  function Min(a: int, b: int): int { if a <= b then a else b }

  predicate Blank(c: char) { c == ' ' || c == '\t' || c == '\n' || c == '\r' }

  /** The string without blanks at either end. */
  function Strip(s: string): string {
    if s == [] then [] else if Blank(s[0]) then Strip(s[1..])
    else if Blank(s[|s| - 1]) then Strip(s[..|s| - 1]) else s
  }

  /** Everything in `s` outside `s[i..j]` is blank. */
  predicate BlankOutside(s: string, i: nat, j: nat) {
    i <= j <= |s| && forall k :: 0 <= k < |s| && !(i <= k < j) ==> Blank(s[k])
  }

  /** Stripping cuts off blanks and nothing else, and leaves none at either end. */
  lemma {:induction false} StripIs(s: string) returns (i: nat, j: nat)
    ensures BlankOutside(s, i, j) && Strip(s) == s[i..j]
    ensures i < j ==> !Blank(s[i]) && !Blank(s[j - 1])
  {
    if s == [] {
      i, j := 0, 0;
    } else if Blank(s[0]) {
      var k, l := StripIs(s[1..]);
      i, j := k + 1, l + 1;
      Behind(s, k, l);
    } else if Blank(s[|s| - 1]) {
      i, j := StripIs(s[..|s| - 1]);
      assert s[..|s| - 1][i..j] == s[i..j];
    } else {
      i, j := 0, |s|;
      assert s[0..|s|] == s;
    }
  }

  lemma Behind(s: string, k: nat, l: nat)
    requires s != "" && Blank(s[0]) && BlankOutside(s[1..], k, l)
    ensures BlankOutside(s, k + 1, l + 1) && s[1..][k..l] == s[k + 1..l + 1]
  {
    forall m | 0 <= m < |s| && !(k + 1 <= m < l + 1) ensures Blank(s[m]) {
      assert m > 0 ==> s[m] == s[1..][m - 1];
    }
  }
}
