/** Trimming and lower-casing, over ASCII. */
module AsciiText {
  import opened Separators
  import Names

  function Lower(s: string): (r: string)
    ensures |r| == |s| && forall i :: 0 <= i < |s| ==> r[i] == Names.Lower(s[i])
  {
    seq(|s|, i requires 0 <= i < |s| => Names.Lower(s[i]))
  }

  function TrimLeft(s: string, drop: char -> bool): (r: string)
    ensures r == "" || !drop(r[0])
    ensures s != "" && !drop(s[0]) ==> r == s
    ensures s != "" && r != "" ==> r[|r| - 1] == s[|s| - 1]
  {
    if s != "" && drop(s[0]) then TrimLeft(s[1..], drop) else s
  }

  function TrimRight(s: string, drop: char -> bool): (r: string)
    ensures r <= s && (r == "" || !drop(r[|r| - 1]))
    ensures s != "" && !drop(s[|s| - 1]) ==> r == s
  {
    if s != "" && drop(s[|s| - 1]) then TrimRight(s[..|s| - 1], drop) else s
  }

  function Trim(s: string): (r: string)
    ensures r == "" || (!IsSpace(r[0]) && !IsSpace(r[|r| - 1]))
  {
    TrimRight(TrimLeft(s, IsSpace), IsSpace)
  }

  function BTrim(s: string): (r: string)
    ensures r == "" || (r[0] != ' ' && r[|r| - 1] != ' ')
    ensures s == "" || (s[0] != ' ' && s[|s| - 1] != ' ') ==> r == s
  {
    TrimRight(TrimLeft(s, c => c == ' '), c => c == ' ')
  }

  /** Text that was trimmed, and lower-cased after it or not, has nothing left to trim. */
  lemma TrimmedStays(s: string)
    ensures BTrim(Trim(s)) == Trim(s) && BTrim(Lower(Trim(s))) == Lower(Trim(s))
  {
    hide Trim, BTrim;
    var t := Trim(s);
    assert |Lower(t)| == |t|;
    assert t != "" ==> t[0] != ' ' && t[|t| - 1] != ' ';
    assert t != "" ==> Lower(t)[0] != ' ' && Lower(t)[|t| - 1] != ' ';
  }

  /** What trimming takes away is white space on both sides, and nothing else. */
  lemma TrimTakesSpacesOnly(s: string) returns (before: string, after: string)
    ensures s == before + Trim(s) + after
    ensures forall c :: c in before + after ==> c in {' ', 9 as char, 10 as char, 11 as char, 12 as char, 13 as char}
  {
    before := TrimLeftTakes(s, IsSpace);
    after := TrimRightTakes(TrimLeft(s, IsSpace), IsSpace);
  }

  lemma BTrimTakesBlanksOnly(s: string) returns (before: string, after: string)
    ensures s == before + BTrim(s) + after && forall c :: c in before + after ==> c == ' '
  {
    before := TrimLeftTakes(s, c => c == ' ');
    after := TrimRightTakes(TrimLeft(s, c => c == ' '), c => c == ' ');
  }

  lemma {:induction false} TrimLeftTakes(s: string, drop: char -> bool) returns (before: string)
    ensures s == before + TrimLeft(s, drop) && forall c :: c in before ==> drop(c)
  {
    if s != "" && drop(s[0]) {
      before := TrimLeftTakes(s[1..], drop);
      before := [s[0]] + before;
    } else {
      before := "";
    }
  }

  lemma {:induction false} TrimRightTakes(s: string, drop: char -> bool) returns (after: string)
    ensures s == TrimRight(s, drop) + after && forall c :: c in after ==> drop(c)
  {
    if s != "" && drop(s[|s| - 1]) {
      after := TrimRightTakes(s[..|s| - 1], drop);
      after := after + [s[|s| - 1]];
    } else {
      after := "";
    }
  }

  lemma LowerKeeps(s: string)
    requires Names.NoUpper(s)
    ensures Lower(s) == s
  {}
}
