/** Shared vocabulary: optional values, fallible results, bytes and the ordering of names. */
module Core {
  type byte = b: int | 0 <= b < 256

  datatype Option<+T> = None | Some(value: T)

  datatype Result<+T, +E> = Success(value: T) | Failure(error: E)

  ghost predicate NoDuplicates<T>(s: seq<T>) {
    forall i, j :: 0 <= i < j < |s| ==> s[i] != s[j]
  }

  /** The integers below n. */
  ghost function Below(n: nat): (s: set<byte>)
    requires n <= 256
    ensures |s| == n
    ensures forall b: byte :: b in s <==> b < n
  {
    if n == 0 then {} else Below(n - 1) + {n - 1}
  }

  lemma SubsetCardinality<T>(a: set<T>, b: set<T>)
    requires a <= b
    ensures |a| <= |b|
    ensures |a| == |b| ==> a == b
  {
    assert b == a + (b - a);
    assert |b| == |a| + |b - a|;
    if |a| == |b| {
      assert b - a == {};
    }
  }
}

/** Names in BTreeMap order: lexicographic by code point. */
module Names {
  import opened Core

  predicate Leq(a: string, b: string) {
    if a == [] then true
    else if b == [] then false
    else if a[0] != b[0] then a[0] < b[0]
    else Leq(a[1..], b[1..])
  }

  lemma Total(a: string, b: string)
    ensures Leq(a, b) || Leq(b, a)
  {
  }

  lemma {:induction false} Antisymmetric(a: string, b: string)
    requires Leq(a, b) && Leq(b, a)
    ensures a == b
  {
    if a != [] && b != [] {
      Antisymmetric(a[1..], b[1..]);
      assert a == [a[0]] + a[1..] && b == [b[0]] + b[1..];
    }
  }

  lemma {:induction false} Transitive(a: string, b: string, c: string)
    requires Leq(a, b) && Leq(b, c)
    ensures Leq(a, c)
  {
    if a != [] && b != [] && c != [] && a[0] == b[0] == c[0] {
      Transitive(a[1..], b[1..], c[1..]);
    }
  }

  predicate IsLeast(m: string, s: set<string>) {
    m in s && forall x :: x in s ==> Leq(m, x)
  }

  predicate IsGreatest(m: string, s: set<string>) {
    m in s && forall x :: x in s ==> Leq(x, m)
  }

  lemma {:induction false} LeastExists(s: set<string>)
    requires s != {}
    ensures exists m :: IsLeast(m, s)
    ensures forall m, n :: IsLeast(m, s) && IsLeast(n, s) ==> m == n
    decreases |s|
  {
    forall m, n | IsLeast(m, s) && IsLeast(n, s)
      ensures m == n
    {
      Antisymmetric(m, n);
    }
    var a :| a in s;
    var rest := s - {a};
    Total(a, a);
    if rest == {} {
      assert s == {a};
      assert IsLeast(a, s);
    } else {
      LeastExists(rest);
      var m :| IsLeast(m, rest);
      Total(a, m);
      var w := if Leq(a, m) then a else m;
      forall x | x in s
        ensures Leq(w, x)
      {
        if x != a && w == a {
          Transitive(a, m, x);
        }
      }
      assert IsLeast(w, s);
    }
  }

  lemma {:induction false} GreatestExists(s: set<string>)
    requires s != {}
    ensures exists m :: IsGreatest(m, s)
    ensures forall m, n :: IsGreatest(m, s) && IsGreatest(n, s) ==> m == n
    decreases |s|
  {
    forall m, n | IsGreatest(m, s) && IsGreatest(n, s)
      ensures m == n
    {
      Antisymmetric(m, n);
    }
    var a :| a in s;
    var rest := s - {a};
    Total(a, a);
    if rest == {} {
      assert s == {a};
      assert IsGreatest(a, s);
    } else {
      GreatestExists(rest);
      var m :| IsGreatest(m, rest);
      Total(a, m);
      var w := if Leq(m, a) then a else m;
      forall x | x in s
        ensures Leq(x, w)
      {
        if x != a && w == a {
          Transitive(x, m, a);
        }
      }
      assert IsGreatest(w, s);
    }
  }

  function Least(s: set<string>): (m: string)
    requires s != {}
    ensures IsLeast(m, s)
  {
    LeastExists(s);
    var m :| IsLeast(m, s);
    m
  }

  function Greatest(s: set<string>): (m: string)
    requires s != {}
    ensures IsGreatest(m, s)
  {
    GreatestExists(s);
    var m :| IsGreatest(m, s);
    m
  }

  /** The keys of a BTreeMap in iteration order. */
  function Sorted(s: set<string>): (ks: seq<string>)
    ensures forall x :: x in ks <==> x in s
    ensures NoDuplicates(ks)
    ensures |ks| == |s|
    decreases |s|
  {
    if s == {} then []
    else
      var m := Least(s);
      [m] + Sorted(s - {m})
  }

  /** Sorted lists its names in order. */
  lemma {:induction false} SortedAscends(s: set<string>, i: nat, j: nat)
    requires i < j < |s|
    ensures Leq(Sorted(s)[i], Sorted(s)[j])
    decreases |s|
  {
    hide Leq, IsLeast;
    var m := Least(s);
    var rest := Sorted(s - {m});
    assert Sorted(s) == [m] + rest;
    if i > 0 {
      SortedAscends(s - {m}, i - 1, j - 1);
    } else {
      LeastIsLeq(s, m, rest[j - 1]);
    }
  }

  lemma LeastIsLeq(s: set<string>, m: string, x: string)
    requires IsLeast(m, s) && x in s
    ensures Leq(m, x)
  {
  }
}
