/** Multi-row INSERT statements with numbered placeholders (packages/db/src/seed-data.js). */
module BulkInsert {

  /** A record as the caller built it: names in order, no name twice. */
  type Record<C> = seq<(string, C)>

  /** The text of the statement as far as numbering goes, and the array bound to it. */
  datatype Insert<P> = Insert(placeholders: seq<seq<int>>, params: seq<P>)

  function Columns<C>(r: Record<C>): (cols: seq<string>)
    ensures |cols| == |r|
  {
    seq(|r|, i requires 0 <= i < |r| => r[i].0)
  }

  /** r[name], or absent when the record has no such name. */
  function Lookup<C>(r: Record<C>, name: string, absent: C): C
  {
    if r == [] then absent
    else if r[0].0 == name then r[0].1
    else Lookup(r[1..], name, absent)
  }

  lemma {:induction false} LookupHere<C>(r: Record<C>, i: nat, absent: C)
    requires i < |r| && forall j :: 0 <= j < i ==> r[j].0 != r[i].0
    ensures Lookup(r, r[i].0, absent) == r[i].1
  {
    if i > 0 { LookupHere(r[1..], i - 1, absent); }
  }

  /** A record without repeated names gives each name its own value, and any other name the absent one. */
  lemma {:induction false} LookupIff<C>(r: Record<C>, name: string, absent: C)
    requires forall i, j :: 0 <= i < j < |r| ==> r[i].0 != r[j].0
    ensures forall i :: 0 <= i < |r| && r[i].0 == name ==> Lookup(r, name, absent) == r[i].1
    ensures (forall i :: 0 <= i < |r| ==> r[i].0 != name) ==> Lookup(r, name, absent) == absent
  {
    if r != [] {
      LookupIff(r[1..], name, absent);
      forall i | 0 <= i < |r| && r[i].0 == name ensures Lookup(r, name, absent) == r[i].1 { LookupHere(r, i, absent); }
    }
  }

  /** The values one record contributes, in column order. */
  function Tuple<C, P>(r: Record<C>, cols: seq<string>, absent: C, json: C -> P): (t: seq<P>)
    ensures |t| == |cols|
  {
    seq(|cols|, i requires 0 <= i < |cols| => json(Lookup(r, cols[i], absent)))
  }

  function Tuples<C, P>(rows: seq<Record<C>>, cols: seq<string>, absent: C, json: C -> P): (ts: seq<seq<P>>)
    ensures |ts| == |rows| && forall i :: 0 <= i < |ts| ==> |ts[i]| == |cols|
  {
    seq(|rows|, i requires 0 <= i < |rows| => Tuple(rows[i], cols, absent, json))
  }

  function Flatten<T>(xss: seq<seq<T>>): seq<T>
  {
    if xss == [] then [] else Flatten(xss[..|xss| - 1]) + xss[|xss| - 1]
  }

  predicate Rectangular<T>(xss: seq<seq<T>>, width: nat)
  {
    forall i :: 0 <= i < |xss| ==> |xss[i]| == width
  }

  /** Every placeholder of a group names a bound value. */
  predicate RowBindable(row: seq<int>, count: nat)
  {
    forall j :: 0 <= j < |row| ==> 1 <= row[j] <= count
  }

  predicate Bindable<P>(stmt: Insert<P>)
  {
    forall i :: 0 <= i < |stmt.placeholders| ==> RowBindable(stmt.placeholders[i], |stmt.params|)
  }

  /** One group as the database reads it: placeholder $k stands for the k-th bound value. */
  function BoundRow<P>(row: seq<int>, params: seq<P>): (r: seq<P>)
    requires RowBindable(row, |params|)
    ensures |r| == |row| && forall j :: 0 <= j < |row| ==> r[j] == params[row[j] - 1]
  {
    seq(|row|, j requires 0 <= j < |row| => params[row[j] - 1])
  }

  /** The rows the database receives. */
  function Bound<P>(stmt: Insert<P>): (r: seq<seq<P>>)
    requires Bindable(stmt)
    ensures |r| == |stmt.placeholders|
    ensures forall i :: 0 <= i < |r| ==> r[i] == BoundRow(stmt.placeholders[i], stmt.params)
  {
    seq(|stmt.placeholders|, i requires 0 <= i < |stmt.placeholders| => BoundRow(stmt.placeholders[i], stmt.params))
  }

  lemma CellIndex(i: nat, j: nat, width: nat, height: nat)
    requires i < height && j < width
    ensures 0 <= i * width + j < height * width
  {
    assert (i + 1) * width <= height * width;
  }

  lemma {:induction false} FlattenIndex<T>(xss: seq<seq<T>>, width: nat, i: nat, j: nat)
    requires Rectangular(xss, width) && i < |xss| && j < width
    ensures |Flatten(xss)| == |xss| * width
    ensures i * width + j < |xss| * width
    ensures Flatten(xss)[i * width + j] == xss[i][j]
  {
    FlattenLength(xss, width);
    CellIndex(i, j, width, |xss|);
    var n := |xss| - 1;
    FlattenLength(xss[..n], width);
    if i < n {
      FlattenIndex(xss[..n], width, i, j);
    }
  }

  lemma {:induction false} FlattenLength<T>(xss: seq<seq<T>>, width: nat)
    requires Rectangular(xss, width)
    ensures |Flatten(xss)| == |xss| * width
  {
    if xss != [] {
      FlattenLength(xss[..|xss| - 1], width);
      assert |xss| * width == (|xss| - 1) * width + width;
    }
  }

  /** Row ri of the numbering: the placeholders ri * width + 1 up to (ri + 1) * width. */
  function NumberedRow(ri: nat, width: nat): (r: seq<int>)
    ensures |r| == width
  {
    seq(width, ci requires 0 <= ci < width => ri * width + ci + 1)
  }

  function Numbering(height: nat, width: nat): (r: seq<seq<int>>)
    ensures |r| == height && Rectangular(r, width)
  {
    seq(height, ri requires 0 <= ri < height => NumberedRow(ri, width))
  }

  /** Read row by row, the placeholders are 1, 2, 3 and so on, without a gap or a repeat. */
  lemma {:induction false} NumberingCounts(height: nat, width: nat)
    ensures Flatten(Numbering(height, width)) == seq(height * width, k => k + 1)
  {
    if height > 0 {
      NumberingCounts(height - 1, width);
      var xss := Numbering(height, width);
      assert xss[..height - 1] == Numbering(height - 1, width);
      assert height * width == (height - 1) * width + width;
    }
  }

  lemma NumberingBindsRow<P>(tuples: seq<seq<P>>, width: nat, i: nat)
    requires Rectangular(tuples, width) && i < |tuples|
    ensures var row := NumberedRow(i, width);
            RowBindable(row, |Flatten(tuples)|) && BoundRow(row, Flatten(tuples)) == tuples[i]
  {
    var row := NumberedRow(i, width);
    forall j | 0 <= j < width
      ensures 1 <= row[j] <= |Flatten(tuples)| && Flatten(tuples)[row[j] - 1] == tuples[i][j]
    {
      FlattenIndex(tuples, width, i, j);
    }
  }

  /** Numbering the cells of the tuples row by row binds every tuple to itself. */
  lemma NumberingBindsRows<P>(tuples: seq<seq<P>>, width: nat)
    requires Rectangular(tuples, width)
    ensures var stmt := Insert(Numbering(|tuples|, width), Flatten(tuples));
            Bindable(stmt) && Bound(stmt) == tuples
  {
    var stmt := Insert(Numbering(|tuples|, width), Flatten(tuples));
    forall i | 0 <= i < |tuples|
      ensures RowBindable(stmt.placeholders[i], |stmt.params|)
      ensures BoundRow(stmt.placeholders[i], stmt.params) == tuples[i]
    {
      NumberingBindsRow(tuples, width, i);
    }
  }

  /** Builds the parenthesised placeholder groups while pushing one parameter per cell. */
  method Number<C, P>(rows: seq<Record<C>>, cols: seq<string>, absent: C, json: C -> P) returns (stmt: Insert<P>)
    ensures stmt == Insert(Numbering(|rows|, |cols|), Flatten(Tuples(rows, cols, absent, json)))
  {
    var params, placeholders := [], [];
    ghost var tuples := Tuples(rows, cols, absent, json);
    for ri := 0 to |rows|
      invariant placeholders == Numbering(ri, |cols|)
      invariant params == Flatten(tuples[..ri])
    {
      var parts: seq<int> := [];
      for ci := 0 to |cols|
        invariant parts == NumberedRow(ri, |cols|)[..ci]
        invariant params == Flatten(tuples[..ri]) + tuples[ri][..ci]
      {
        params := params + [json(Lookup(rows[ri], cols[ci], absent))];
        parts := parts + [ri * |cols| + ci + 1];
      }
      assert parts == NumberedRow(ri, |cols|);
      placeholders := placeholders + [parts];
      assert placeholders == Numbering(ri + 1, |cols|);
      assert tuples[..ri + 1][..ri] == tuples[..ri];
    }
    assert tuples[..|rows|] == tuples;
    stmt := Insert(placeholders, params);
  }

  datatype Statement<P> = NoStatement | Send(cols: seq<string>, stmt: Insert<P>)

  /** The columns of the first record decide; an empty batch sends nothing. */
  method BulkInsert<C, P>(rows: seq<Record<C>>, absent: C, json: C -> P) returns (out: Statement<P>)
    ensures rows == [] ==> out.NoStatement?
    ensures rows != [] ==> out.Send? && out.cols == Columns(rows[0]) && Bindable(out.stmt)
    ensures rows != [] ==> |out.cols| == |rows[0]| && forall j :: 0 <= j < |rows[0]| ==> out.cols[j] == rows[0][j].0
    ensures rows != [] ==> Bound(out.stmt) == Tuples(rows, Columns(rows[0]), absent, json)
    ensures rows != [] ==>
              && |Bound(out.stmt)| == |rows|
              && (forall i :: 0 <= i < |rows| ==> |Bound(out.stmt)[i]| == |rows[0]|)
              && forall i, j :: 0 <= i < |rows| && 0 <= j < |rows[0]| ==>
                   Bound(out.stmt)[i][j] == json(Lookup(rows[i], rows[0][j].0, absent))
    ensures rows != [] ==> |out.stmt.params| == |rows| * |rows[0]|
    ensures rows != [] ==> Flatten(out.stmt.placeholders) == seq(|out.stmt.params|, k => k + 1)
  {
    if rows == [] {
      return NoStatement;
    }
    var cols := Columns(rows[0]);
    var stmt := Number(rows, cols, absent, json);
    var tuples := Tuples(rows, cols, absent, json);
    NumberingBindsRows(tuples, |cols|);
    NumberingCounts(|rows|, |cols|);
    FlattenLength(tuples, |cols|);
    return Send(cols, stmt);
  }

  // ------------------------------------------------------------------ batches

  /** What the loop over the permissions sends: full batches of the given size, then the remainder. */
  function Batches<T>(xs: seq<T>, size: nat): seq<seq<T>>
    requires size > 0
  {
    if xs == [] then []
    else if |xs| <= size then [xs]
    else [xs[..size]] + Batches(xs[size..], size)
  }

  function Join<T>(xss: seq<seq<T>>): seq<T>
  {
    if xss == [] then [] else xss[0] + Join(xss[1..])
  }

  /** The batches cover every element once and in order; none is empty or over size. */
  lemma {:induction false} BatchesCover<T>(xs: seq<T>, size: nat)
    requires size > 0
    ensures Join(Batches(xs, size)) == xs
    ensures forall b :: b in Batches(xs, size) ==> 0 < |b| <= size
    ensures forall i :: 0 <= i < |Batches(xs, size)| - 1 ==> |Batches(xs, size)[i]| == size
  {
    if |xs| > size {
      BatchesCover(xs[size..], size);
      assert xs == xs[..size] + xs[size..];
    }
  }
}
