/** Column-name conversion between camelCase and snake_case (apps/api/src/utils.ts). */
module Names {

  predicate IsUpper(c: char) { 'A' <= c <= 'Z' }

  predicate IsLower(c: char) { 'a' <= c <= 'z' }

  /** The letter at the same place of the other alphabet. */
  function Lower(c: char): (r: char)
    ensures 'A' <= c <= 'Z' ==> 'a' <= r <= 'z' && r as int - 'a' as int == c as int - 'A' as int
    ensures !('A' <= c <= 'Z') ==> r == c
  {
    if IsUpper(c) then (c as int + 32) as char else c
  }

  function Upper(c: char): (r: char)
    ensures 'a' <= c <= 'z' ==> 'A' <= r <= 'Z' && r as int - 'A' as int == c as int - 'a' as int
    ensures !('a' <= c <= 'z') ==> r == c
  {
    if IsLower(c) then (c as int - 32) as char else c
  }

  function UpperCase(s: string): (r: string)
    ensures |r| == |s| && forall i :: 0 <= i < |s| ==> r[i] == Upper(s[i])
  {
    seq(|s|, i requires 0 <= i < |s| => Upper(s[i]))
  }

  /** Every A-Z becomes an underscore and its lower-case letter. */
  function CamelToSnake(s: string): string
  {
    if s == "" then ""
    else (if IsUpper(s[0]) then ['_', Lower(s[0])] else [s[0]]) + CamelToSnake(s[1..])
  }

  /** At position i stands an underscore that a lower-case letter follows. */
  predicate JoinsAt(s: string, i: nat)
  {
    i + 1 < |s| && s[i] == '_' && IsLower(s[i + 1])
  }

  /** Every underscore followed by a-z becomes that letter in upper case, scanning left to right. */
  function SnakeToCamel(s: string): string
  {
    if s == "" then ""
    else if JoinsAt(s, 0) then [Upper(s[1])] + SnakeToCamel(s[2..])
    else [s[0]] + SnakeToCamel(s[1..])
  }

  predicate NoUpper(s: string) { forall i :: 0 <= i < |s| ==> !IsUpper(s[i]) }

  predicate NoJoin(s: string) { forall i :: 0 <= i < |s| ==> !JoinsAt(s, i) }

  /** What a first conversion does to a name, the second conversion does not see. */
  lemma {:induction false} CamelAbsorbsSnake(s: string)
    ensures SnakeToCamel(CamelToSnake(s)) == SnakeToCamel(s)
  {
    if s != "" {
      var rest := s[1..];
      CamelAbsorbsSnake(rest);
      var t := CamelToSnake(s);
      if IsUpper(s[0]) {
        assert t[2..] == CamelToSnake(rest);
      } else {
        assert t[1..] == CamelToSnake(rest);
        if JoinsAt(s, 0) {
          assert rest[1..] == s[2..];
          CamelAbsorbsSnake(s[2..]);
          assert t[2..] == CamelToSnake(s[2..]);
        }
      }
    }
  }

  lemma {:induction false} SnakeAbsorbsCamel(s: string)
    ensures CamelToSnake(SnakeToCamel(s)) == CamelToSnake(s)
  {
    if s != "" {
      if JoinsAt(s, 0) {
        SnakeAbsorbsCamel(s[2..]);
        assert s[1..][1..] == s[2..];
        assert SnakeToCamel(s)[1..] == SnakeToCamel(s[2..]);
      } else {
        SnakeAbsorbsCamel(s[1..]);
        assert SnakeToCamel(s)[1..] == SnakeToCamel(s[1..]);
      }
    }
  }

  lemma {:induction false} SnakeFixedPoint(s: string)
    ensures |CamelToSnake(s)| >= |s|
    ensures CamelToSnake(s) == s <==> NoUpper(s)
    ensures CamelToSnake(s) != s ==> |CamelToSnake(s)| > |s|
  {
    if s != "" {
      SnakeFixedPoint(s[1..]);
      assert s == [s[0]] + s[1..];
      assert NoUpper(s) <==> !IsUpper(s[0]) && NoUpper(s[1..]);
    }
  }

  lemma {:induction false} CamelFixedPoint(s: string)
    ensures |SnakeToCamel(s)| <= |s|
    ensures SnakeToCamel(s) == s <==> NoJoin(s)
    ensures SnakeToCamel(s) != s ==> |SnakeToCamel(s)| < |s|
  {
    if s != "" {
      if JoinsAt(s, 0) {
        CamelFixedPoint(s[2..]);
      } else {
        CamelFixedPoint(s[1..]);
        assert s == [s[0]] + s[1..];
        forall i | 0 <= i < |s| - 1 ensures JoinsAt(s, i + 1) == JoinsAt(s[1..], i) {}
        assert NoJoin(s) ==> NoJoin(s[1..]);
        assert NoJoin(s[1..]) ==> NoJoin(s) by {
          forall i | 0 <= i < |s| && NoJoin(s[1..]) ensures !JoinsAt(s, i) {
            if i > 0 { assert JoinsAt(s, i - 1 + 1) == JoinsAt(s[1..], i - 1); }
          }
        }
      }
    }
  }

  /** A column name survives the round trip through camelCase exactly when it has no A-Z. */
  lemma SnakeRoundTrip(t: string)
    ensures CamelToSnake(SnakeToCamel(t)) == t <==> NoUpper(t)
  {
    SnakeAbsorbsCamel(t);
    SnakeFixedPoint(t);
  }

  /** A property name survives the round trip through snake_case exactly when no underscore precedes a-z. */
  lemma CamelRoundTrip(s: string)
    ensures SnakeToCamel(CamelToSnake(s)) == s <==> NoJoin(s)
  {
    CamelAbsorbsSnake(s);
    CamelFixedPoint(s);
  }

  /** Two names collide in camelCase exactly when they collide in snake_case. */
  lemma SameCamelIffSameSnake(a: string, b: string)
    ensures SnakeToCamel(a) == SnakeToCamel(b) <==> CamelToSnake(a) == CamelToSnake(b)
  {
    CamelAbsorbsSnake(a);
    CamelAbsorbsSnake(b);
    SnakeAbsorbsCamel(a);
    SnakeAbsorbsCamel(b);
  }

  /** The letters of a name, without underscores and whatever their case. */
  function Letter(c: char): string { if c == '_' then "" else [Lower(c)] }

  function Letters(s: string): string { if s == "" then "" else Letter(s[0]) + Letters(s[1..]) }

  lemma JoinsAssociate(x: string, y: string, z: string)
    ensures (x + y) + z == x + (y + z)
  {}

  lemma {:induction false} LettersJoin(a: string, b: string)
    ensures Letters(a + b) == Letters(a) + Letters(b)
  {
    hide Letter;
    if a == "" {
      assert a + b == b;
    } else {
      var tail := a[1..];
      LettersJoin(tail, b);
      assert (a + b)[1..] == tail + b;
      assert Letters(a + b) == Letter(a[0]) + Letters(tail + b);
      JoinsAssociate(Letter(a[0]), Letters(tail), Letters(b));
    }
  }

  lemma {:induction false} SnakeKeepsLetters(s: string)
    ensures Letters(CamelToSnake(s)) == Letters(s)
  {
    if s != "" {
      SnakeKeepsLetters(s[1..]);
      var first := if IsUpper(s[0]) then ['_', Lower(s[0])] else [s[0]];
      LettersJoin(first, CamelToSnake(s[1..]));
      if IsUpper(s[0]) { assert first[1..] == [Lower(s[0])] && [Lower(s[0])][1..] == ""; }
    }
  }

  lemma {:induction false} CamelKeepsLetters(s: string)
    ensures Letters(SnakeToCamel(s)) == Letters(s)
  {
    if s != "" {
      if JoinsAt(s, 0) {
        CamelKeepsLetters(s[2..]);
        LettersJoin([Upper(s[1])], SnakeToCamel(s[2..]));
        assert s[1..][0] == s[1] && s[1..][1..] == s[2..] && [Upper(s[1])][1..] == "";
      } else {
        CamelKeepsLetters(s[1..]);
        LettersJoin([s[0]], SnakeToCamel(s[1..]));
      }
    }
  }

  /** Both conversions keep a name letter for letter. */
  lemma ConversionsKeepLetters(s: string)
    ensures Letters(CamelToSnake(s)) == Letters(s) && Letters(SnakeToCamel(s)) == Letters(s)
  {
    SnakeKeepsLetters(s);
    CamelKeepsLetters(s);
  }

  // ------------------------------------------------------------------ rows

  /** A row as the driver hands it over: column names in order, no name twice. */
  type Entries<V> = seq<(string, V)>

  predicate DistinctColumns<V>(row: Entries<V>)
  {
    forall i, j :: 0 <= i < j < |row| ==> row[i].0 != row[j].0
  }

  /** The object the columns build up: a later column overwrites an earlier one with the same property. */
  function CamelRow<V>(row: Entries<V>): map<string, V>
  {
    if row == [] then map[]
    else var n := |row| - 1; CamelRow(row[..n])[SnakeToCamel(row[n].0) := row[n].1]
  }

  method ToCamelRow<V>(row: Entries<V>) returns (out: map<string, V>)
    ensures out == CamelRow(row)
  {
    out := map[];
    for n := 0 to |row|
      invariant out == CamelRow(row[..n])
    {
      var (k, v) := row[n];
      out := out[SnakeToCamel(k) := v];
      assert row[..n + 1][..n] == row[..n];
    }
    assert row[..|row|] == row;
  }

  /** No two columns share their snake_case form. */
  predicate ColumnsStayApart<V>(row: Entries<V>)
  {
    forall i, j :: 0 <= i < j < |row| ==> CamelToSnake(row[i].0) != CamelToSnake(row[j].0)
  }

  lemma {:induction false} CamelRowProperties<V>(row: Entries<V>)
    ensures forall i :: 0 <= i < |row| ==> SnakeToCamel(row[i].0) in CamelRow(row)
    ensures forall c :: c in CamelRow(row) ==> exists i :: 0 <= i < |row| && SnakeToCamel(row[i].0) == c
  {
    if row != [] {
      var n := |row| - 1;
      CamelRowProperties(row[..n]);
      forall i | 0 <= i < n ensures SnakeToCamel(row[i].0) in CamelRow(row) {
        assert row[i] == row[..n][i];
      }
      forall c | c in CamelRow(row) ensures exists i :: 0 <= i < |row| && SnakeToCamel(row[i].0) == c {
        if c != SnakeToCamel(row[n].0) {
          var i :| 0 <= i < n && SnakeToCamel(row[..n][i].0) == c;
          assert row[i] == row[..n][i];
        }
      }
    }
  }

  /** A column takes a property of its own exactly when no earlier column shares its snake_case form. */
  lemma NewPropertyIffApart<V>(row: Entries<V>, n: nat)
    requires n < |row|
    ensures SnakeToCamel(row[n].0) !in CamelRow(row[..n]) <==>
            forall i :: 0 <= i < n ==> CamelToSnake(row[i].0) != CamelToSnake(row[n].0)
  {
    CamelRowProperties(row[..n]);
    forall i | 0 <= i < n
      ensures SnakeToCamel(row[..n][i].0) == SnakeToCamel(row[n].0) <==>
              CamelToSnake(row[i].0) == CamelToSnake(row[n].0)
    {
      SameCamelIffSameSnake(row[i].0, row[n].0);
    }
  }

  lemma ApartStep<V>(row: Entries<V>, n: nat)
    requires n + 1 == |row|
    ensures ColumnsStayApart(row) <==>
            ColumnsStayApart(row[..n]) && forall i :: 0 <= i < n ==> CamelToSnake(row[i].0) != CamelToSnake(row[n].0)
  {}

  lemma AddedKeyCount<K, V>(m: map<K, V>, k: K, v: V)
    ensures |m[k := v]| == |m| + if k in m then 0 else 1
  {
    assert m[k := v].Keys == m.Keys + {k};
  }

  /** The converted row keeps one property per column exactly when no two columns share a snake_case form. */
  lemma {:induction false} CamelRowKeepsColumns<V>(row: Entries<V>)
    ensures |CamelRow(row)| <= |row|
    ensures |CamelRow(row)| == |row| <==> ColumnsStayApart(row)
  {
    if row != [] {
      var n := |row| - 1;
      CamelRowKeepsColumns(row[..n]);
      NewPropertyIffApart(row, n);
      ApartStep(row, n);
      AddedKeyCount(CamelRow(row[..n]), SnakeToCamel(row[n].0), row[n].1);
    }
  }

  /** A property holds the value of the last column that goes by its name. */
  lemma {:induction false} LastColumnWins<V>(row: Entries<V>, i: nat)
    requires i < |row| && forall j :: i < j < |row| ==> CamelToSnake(row[j].0) != CamelToSnake(row[i].0)
    ensures SnakeToCamel(row[i].0) in CamelRow(row) && CamelRow(row)[SnakeToCamel(row[i].0)] == row[i].1
  {
    var n := |row| - 1;
    if i < n {
      LastColumnWins(row[..n], i);
      SameCamelIffSameSnake(row[i].0, row[n].0);
    }
  }

  /** When no two columns collide, every property holds its own column's value. */
  lemma CamelRowKeepsValues<V>(row: Entries<V>, i: nat)
    requires ColumnsStayApart(row) && i < |row|
    ensures SnakeToCamel(row[i].0) in CamelRow(row) && CamelRow(row)[SnakeToCamel(row[i].0)] == row[i].1
  {
    LastColumnWins(row, i);
  }

  /** Columns without A-Z, as PostgreSQL folds them, never merge and lose no value. */
  lemma LowerCaseColumnsNeverMerge<V>(row: Entries<V>)
    requires DistinctColumns(row)
    requires forall i :: 0 <= i < |row| ==> NoUpper(row[i].0)
    ensures |CamelRow(row)| == |row|
    ensures forall i :: 0 <= i < |row| ==>
              SnakeToCamel(row[i].0) in CamelRow(row) && CamelRow(row)[SnakeToCamel(row[i].0)] == row[i].1
  {
    forall i | 0 <= i < |row| ensures CamelToSnake(row[i].0) == row[i].0 { SnakeFixedPoint(row[i].0); }
    CamelRowKeepsColumns(row);
    forall i | 0 <= i < |row|
      ensures SnakeToCamel(row[i].0) in CamelRow(row) && CamelRow(row)[SnakeToCamel(row[i].0)] == row[i].1
    {
      CamelRowKeepsValues(row, i);
    }
  }
}
