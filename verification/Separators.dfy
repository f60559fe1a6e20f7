/** Removal of the separators that sign-in treats as absent. */
module Separators {

  predicate IsSpace(c: char) { c == ' ' || 9 <= c as int <= 13 }

  /** Separators the sign-in resolver treats as absent. */
  predicate Separator(c: char) { IsSpace(c) || c == '.' || c == '_' || c == '-' }

  function Kept(c: char): string { if Separator(c) then "" else [c] }

  function Strip(s: string): string
  {
    if s == "" then "" else Kept(s[0]) + Strip(s[1..])
  }

  lemma {:induction false} StripSum(a: string, b: string)
    ensures Strip(a + b) == Strip(a) + Strip(b)
  {
    if a == "" {
      assert a + b == b;
    } else {
      var tail := a[1..];
      StripSum(tail, b);
      assert (a + b)[1..] == tail + b;
      assert Strip(a + b) == Kept(a[0]) + Strip(tail + b);
      assert Strip(a) == Kept(a[0]) + Strip(tail);
      JoinsAssociate(Kept(a[0]), Strip(tail), Strip(b));
    }
  }

  lemma JoinsAssociate(x: string, y: string, z: string)
    ensures (x + y) + z == x + (y + z)
  {}

  lemma StripOne(c: char)
    ensures Strip([c]) == Kept(c)
  {
    assert [c][1..] == "";
  }

  /** A separator more or less makes no difference to the folded text. */
  lemma StripIgnoresSeparator(a: string, c: char, b: string)
    requires c in {' ', '.', '_', '-'} || 9 <= c as int <= 13
    ensures Strip(a + [c] + b) == Strip(a + b)
  {
    StripSum(a + [c], b);
    StripSum(a, b);
    assert Strip(a + [c]) == Strip(a) by {
      StripSum(a, [c]);
      StripOne(c);
    }
  }

  /** And nothing but separators is taken away. */
  lemma {:induction false} StripKeepsTheRest(s: string)
    requires forall i :: 0 <= i < |s| ==> s[i] !in {' ', '.', '_', '-'} && !(9 <= s[i] as int <= 13)
    ensures Strip(s) == s
  {
    if s != "" { StripKeepsTheRest(s[1..]); }
  }
}
