/** `sorted(names)`: the strings of a set in code-point order. */
module Names {

  predicate Leq(a: string, b: string) {
    a == "" || (b != "" && (a[0] < b[0] || (a[0] == b[0] && Leq(a[1..], b[1..]))))
  }

  lemma Total(a: string, b: string)
    ensures Leq(a, b) || Leq(b, a)
  {}

  lemma {:induction false} Antisymmetric(a: string, b: string)
    requires Leq(a, b) && Leq(b, a)
    ensures a == b
  {
    if a != "" {
      Antisymmetric(a[1..], b[1..]);
      assert a == [a[0]] + a[1..] && b == [b[0]] + b[1..];
    }
  }

  lemma {:induction false} Transitive(a: string, b: string, c: string)
    requires Leq(a, b) && Leq(b, c)
    ensures Leq(a, c)
  {
    if a != "" && a[0] == b[0] == c[0] {
      Transitive(a[1..], b[1..], c[1..]);
    }
  }

  ghost predicate IsLeast(x: string, names: set<string>) {
    x in names && forall y :: y in names ==> Leq(x, y)
  }

  lemma {:induction false} LeastExists(names: set<string>) returns (x: string)
    requires names != {}
    ensures IsLeast(x, names)
  {
    var y :| y in names;
    var rest := names - {y};
    Total(y, y);
    if rest == {} {
      assert names == {y};
      x := y;
    } else {
      var z := LeastExists(rest);
      Total(y, z);
      if Leq(y, z) {
        forall w | w in names ensures Leq(y, w) {
          if w != y { Transitive(y, z, w); }
        }
        x := y;
      } else {
        x := z;
      }
    }
  }

  ghost function Least(names: set<string>): (x: string)
    requires names != {}
    ensures IsLeast(x, names)
  {
    assert exists x :: IsLeast(x, names) by { var y := LeastExists(names); }
    var x :| IsLeast(x, names); x
  }

  ghost function Sorted(names: set<string>): (r: seq<string>)
    decreases |names|
  {
    if names == {} then [] else [Least(names)] + Sorted(names - {Least(names)})
  }

  /** Sorting keeps exactly the given names, each once, in ascending order. */
  lemma {:induction false} SortedMeaning(names: set<string>)
    ensures forall x :: x in Sorted(names) <==> x in names
    ensures forall i, j :: 0 <= i < j < |Sorted(names)| ==>
      Sorted(names)[i] != Sorted(names)[j] && Leq(Sorted(names)[i], Sorted(names)[j])
    decreases |names|
  {
    if names != {} {
      SortedMeaning(names - {Least(names)});
    }
  }

  /** The selection that a call of `sorted` on a set performs. */
  method Sort(names: set<string>) returns (r: seq<string>)
    ensures r == Sorted(names)
  {
    r := [];
    var rest := names;
    while rest != {}
      invariant r + Sorted(rest) == Sorted(names)
    {
      ghost var least := Least(rest);
      var x :| x in rest && forall y :: y in rest ==> Leq(x, y);
      Antisymmetric(x, least);
      assert r + Sorted(rest) == (r + [x]) + Sorted(rest - {x});
      r, rest := r + [x], rest - {x};
    }
  }

  /** Code-point order: a beginning comes first, otherwise the first differing character decides. */
  lemma {:induction false} LeqMeans(a: string, b: string, i: nat)
    requires i <= |a| && i <= |b| && a[..i] == b[..i]
    ensures i == |a| ==> Leq(a, b)
    ensures i == |b| < |a| ==> !Leq(a, b)
    ensures i < |a| && i < |b| && a[i] != b[i] ==> (Leq(a, b) <==> a[i] < b[i])
    decreases i
  {
    if i > 0 {
      assert a[0] == a[..i][0] == b[..i][0] == b[0];
      assert a[1..][..i - 1] == a[..i][1..] == b[..i][1..] == b[1..][..i - 1];
      LeqMeans(a[1..], b[1..], i - 1);
    }
  }
}
