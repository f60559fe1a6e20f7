/** A JavaScript Set as its elements in insertion order. */
module OrderedSets {

  predicate NoDup<T(==)>(xs: seq<T>) { forall i, j :: 0 <= i < j < |xs| ==> xs[i] != xs[j] }

  function Elements<T>(xs: seq<T>): set<T> { set x | x in xs }

  lemma ElementsOfSum<T>(xs: seq<T>, ys: seq<T>)
    ensures Elements(xs + ys) == Elements(xs) + Elements(ys)
  {}

  lemma ElementsNext<T>(xs: seq<T>, i: nat)
    requires i < |xs|
    ensures Elements(xs[..i + 1]) == Elements(xs[..i]) + {xs[i]}
  {
    assert xs[..i + 1] == xs[..i] + [xs[i]];
  }

  function Add<T(==)>(xs: seq<T>, x: T): (r: seq<T>)
    ensures Elements(r) == Elements(xs) + {x}
    ensures NoDup(xs) ==> NoDup(r)
  {
    if x in xs then xs else xs + [x]
  }

  /** Set.delete: the order of the others stays. */
  function Delete<T(==)>(xs: seq<T>, x: T): (r: seq<T>)
    ensures Elements(r) == Elements(xs) - {x}
    ensures NoDup(xs) ==> NoDup(r)
  {
    if xs == [] then []
    else
      var rest := Delete(xs[1..], x);
      ElementsOfSum([xs[0]], xs[1..]);
      ElementsOfSum([xs[0]], rest);
      assert xs == [xs[0]] + xs[1..];
      assert NoDup(xs) ==> NoDup(xs[1..]) && xs[0] !in Elements(xs[1..]);
      assert xs[0] !in Elements(xs[1..]) ==> xs[0] !in rest by { assert Elements(rest) <= Elements(xs[1..]); }
      if xs[0] == x then rest else [xs[0]] + rest
  }

  method AddAll<T(==)>(into: seq<T>, hits: seq<T>) returns (out: seq<T>)
    requires NoDup(into)
    ensures NoDup(out) && Elements(out) == Elements(into) + Elements(hits)
  {
    out := into;
    for i := 0 to |hits|
      invariant NoDup(out) && Elements(out) == Elements(into) + Elements(hits[..i])
    {
      out := Add(out, hits[i]);
      ElementsNext(hits, i);
    }
    assert hits[..|hits|] == hits;
  }

  method DeleteAll<T(==)>(into: seq<T>, hits: seq<T>) returns (out: seq<T>)
    requires NoDup(into)
    ensures NoDup(out) && Elements(out) == Elements(into) - Elements(hits)
  {
    out := into;
    for i := 0 to |hits|
      invariant NoDup(out) && Elements(out) == Elements(into) - Elements(hits[..i])
    {
      out := Delete(out, hits[i]);
      ElementsNext(hits, i);
    }
    assert hits[..|hits|] == hits;
  }

  /** A number above all of a set, so one that is not in it. */
  lemma {:induction false} FreshNumber(used: set<nat>) returns (n: nat)
    ensures forall x :: x in used ==> x < n
    decreases |used|
  {
    if used == {} { return 0; }
    var x :| x in used;
    var m := FreshNumber(used - {x});
    n := if m > x then m else x + 1;
    forall y | y in used ensures y < n {
      if y != x { assert y in used - {x}; }
    }
  }

  lemma Inhabited<T>(s: set<T>)
    requires |s| > 0
    ensures exists x :: x in s
  {
    assert s != {};
  }

  /** Some element of a set. */
  ghost function Any<T>(s: set<T>): (x: T)
    requires |s| > 0
    ensures x in s
  {
    Inhabited(s);
    var x :| x in s;
    x
  }
}
