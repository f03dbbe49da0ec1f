/** The order in which `sort` and ORDER BY put strings. */
module StringOrder {

  /** `a` comes before `b`. */
  predicate Before(a: string, b: string) {
    b != "" && (a == "" || a[0] < b[0] || (a[0] == b[0] && Before(a[1..], b[1..])))
  }

  /** The first difference decides. */
  lemma {:induction false} FirstDifference(p: string, a: string, b: string)
    requires a != "" && b != "" && a[0] < b[0]
    ensures Before(p + a, p + b)
  {
    if p == "" {
      assert p + a == a && p + b == b;
    } else {
      FirstDifference(p[1..], a, b);
      assert (p + a)[1..] == p[1..] + a && (p + b)[1..] == p[1..] + b;
    }
  }

  /** A string comes before the longer ones that begin with it. */
  lemma {:induction false} BeginningFirst(p: string, b: string)
    requires b != ""
    ensures Before(p, p + b)
  {
    if p == "" {
      assert p + b == b;
    } else {
      BeginningFirst(p[1..], b);
      assert (p + b)[1..] == p[1..] + b;
    }
  }

  lemma {:induction false} Total(a: string, b: string)
    ensures Before(a, b) || Before(b, a) || a == b
  {
    if a != "" && b != "" && a[0] == b[0] {
      Total(a[1..], b[1..]);
      assert a == [a[0]] + a[1..] && b == [b[0]] + b[1..];
    }
  }

  lemma {:induction false} Transitive(a: string, b: string, c: string)
    requires Before(a, b) && Before(b, c)
    ensures Before(a, c)
  {
    if a != "" && a[0] == b[0] && b[0] == c[0] {
      Transitive(a[1..], b[1..], c[1..]);
    }
  }

  lemma {:induction false} Irreflexive(a: string)
    ensures !Before(a, a)
  {
    if a != "" {
      Irreflexive(a[1..]);
    }
  }

  ghost predicate Ascending(s: seq<string>) {
    forall i, j | 0 <= i < j < |s| :: Before(s[i], s[j])
  }

  /** Of finitely many strings one is the last. */
  lemma {:induction false} LastExists(all: set<string>) returns (last: string)
    requires all != {}
    ensures last in all && forall s | s in all && s != last :: Before(s, last)
  {
    var any :| any in all;
    if all == {any} {
      last := any;
    } else {
      var rest := LastExists(all - {any});
      Total(any, rest);
      last := if Before(any, rest) then rest else any;
      forall s | s in all && s != last
        ensures Before(s, last)
      {
        if s != rest && s != any && last == any {
          Transitive(s, rest, any);
        }
      }
    }
  }

  /** Distinct strings in ascending order. */
  method SortDistinct(all: set<string>) returns (sorted: seq<string>)
    ensures Ascending(sorted) && forall s :: s in sorted <==> s in all
  {
    var todo := all;
    sorted := [];
    while todo != {}
      invariant todo <= all && forall s :: s in sorted <==> s in all - todo
      invariant Ascending(sorted) && forall i, s | 0 <= i < |sorted| && s in todo :: Before(s, sorted[i])
    {
      ghost var last := LastExists(todo);
      var s :| s in todo && forall t | t in todo && t != s :: Before(t, s);
      sorted := [s] + sorted;
      todo := todo - {s};
    }
  }

  /** An ascending sequence is determined by its elements. */
  lemma {:induction false} AscendingUnique(s: seq<string>, t: seq<string>)
    requires Ascending(s) && Ascending(t) && forall x :: x in s <==> x in t
    ensures s == t
  {
    NoElements(s);
    NoElements(t);
    if s != [] {
      var m, n := |s| - 1, |t| - 1;
      assert s[m] in t && t[n] in s;
      if s[m] != t[n] {
        var i :| 0 <= i < |t| && t[i] == s[m];
        var j :| 0 <= j < |s| && s[j] == t[n];
        Transitive(s[m], t[n], s[m]);
        Irreflexive(s[m]);
      }
      forall x
        ensures x in s[..m] <==> x in t[..n]
      {
        WithoutLast(s, x);
        WithoutLast(t, x);
      }
      AscendingUnique(s[..m], t[..n]);
      assert s == s[..m] + [s[m]] && t == t[..n] + [t[n]];
    }
  }

  lemma NoElements(s: seq<string>)
    ensures s == [] <==> forall x :: x !in s
  {
    if s != [] {
      assert s[0] in s;
    }
  }

  lemma WithoutLast(s: seq<string>, x: string)
    requires Ascending(s) && s != []
    ensures x in s[..|s| - 1] <==> x in s && x != s[|s| - 1]
  {
    var m := |s| - 1;
    Irreflexive(s[m]);
    assert s == s[..m] + [s[m]];
  }
}
