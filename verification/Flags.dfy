// Flag lists: the sorted, duplicate-free lists Python's sorted(set) leaves in
// the flags column, ordered by code point.
module Flags {

  predicate LexLe(a: string, b: string) {
    a == "" || (b != "" && (a[0] < b[0] || (a[0] == b[0] && LexLe(a[1..], b[1..]))))
  }

  lemma {:induction false} LexTotal(a: string, b: string)
    ensures LexLe(a, b) || LexLe(b, a)
    ensures LexLe(a, b) && LexLe(b, a) ==> a == b
  {
    if a != "" && b != "" {
      LexTotal(a[1..], b[1..]);
      assert a == [a[0]] + a[1..] && b == [b[0]] + b[1..];
    }
  }

  lemma {:induction false} LexTransitive(a: string, b: string, c: string)
    requires LexLe(a, b) && LexLe(b, c)
    ensures LexLe(a, c)
  {
    if a != "" && a[0] == b[0] == c[0] {
      LexTransitive(a[1..], b[1..], c[1..]);
    }
  }

  predicate IsLeast(m: string, s: set<string>) {
    m in s && forall x :: x in s ==> LexLe(m, x)
  }

  lemma {:induction false} HasLeast(s: set<string>)
    requires s != {}
    ensures exists m :: IsLeast(m, s)
  {
    var a :| a in s;
    var rest := s - {a};
    LexTotal(a, a);
    if rest == {} {
      assert s == {a};
      assert IsLeast(a, s);
    } else {
      HasLeast(rest);
      var m :| IsLeast(m, rest);
      LexTotal(a, m);
      var best := if LexLe(a, m) then a else m;
      forall x | x in s ensures LexLe(best, x) {
        if x != a && best == a {
          LexTransitive(a, m, x);
        }
      }
      assert IsLeast(best, s);
    }
  }

  lemma LeastUnique(s: set<string>)
    ensures forall m, n :: IsLeast(m, s) && IsLeast(n, s) ==> m == n
  {
    forall m, n | IsLeast(m, s) && IsLeast(n, s) ensures m == n {
      LexTotal(m, n);
    }
  }

  predicate Sorted(xs: seq<string>) {
    forall i, j :: 0 <= i < j < |xs| ==> LexLe(xs[i], xs[j]) && xs[i] != xs[j]
  }

  function AsSet(xs: seq<string>): set<string> {
    set x | x in xs
  }

  lemma ConsSet(m: string, rest: seq<string>)
    ensures AsSet([m] + rest) == {m} + AsSet(rest)
  {
    forall x ensures x in AsSet([m] + rest) <==> x in {m} + AsSet(rest) {
      assert x in [m] + rest <==> x == m || x in rest;
    }
  }

  /** sorted() of a set of flags. */
  function SortedFlags(s: set<string>): (r: seq<string>)
    ensures Sorted(r) && AsSet(r) == s
  {
    if s == {} then []
    else
      HasLeast(s);
      LeastUnique(s);
      var m :| IsLeast(m, s);
      var rest := SortedFlags(s - {m});
      assert forall i :: 0 <= i < |rest| ==> rest[i] in AsSet(rest);
      ConsSet(m, rest);
      [m] + rest
  }
}
