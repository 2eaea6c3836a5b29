/** The few Python string operations the modelled code relies on. */
module Text {

  // ----- str.replace and str.strip -----

  /** Python's s.replace(from, to): leftmost, non-overlapping, for a non-empty pattern. */
  function Replace(s: string, from: string, to: string): string
    requires from != ""
  {
    if |s| < |from| then s
    else if s[..|from|] == from then to + Replace(s[|from|..], from, to)
    else [s[0]] + Replace(s[1..], from, to)
  }

  function StripLeft(s: string, c: char): string {
    if s != "" && s[0] == c then StripLeft(s[1..], c) else s
  }

  lemma {:induction false} StripLeftIsSuffix(s: string, c: char)
    ensures var r := StripLeft(s, c);
            && |r| <= |s| && r == s[|s| - |r|..]
            && (r == "" || r[0] != c)
            && forall i | 0 <= i < |s| - |r| :: s[i] == c
  {
    if s != "" && s[0] == c {
      StripLeftIsSuffix(s[1..], c);
      var r := StripLeft(s, c);
      forall i | 0 <= i < |s| - |r| ensures s[i] == c {
        if i > 0 { assert s[i] == s[1..][i - 1]; }
      }
    }
  }

  function StripRight(s: string, c: char): string {
    if s != "" && s[|s| - 1] == c then StripRight(s[..|s| - 1], c) else s
  }

  lemma StripRightIsPrefix(s: string, c: char)
    ensures var r := StripRight(s, c);
            r <= s && (r == "" || r[|r| - 1] != c) && forall i | |r| <= i < |s| :: s[i] == c
  {}

  /** Python's s.strip(c) for a one-character set. */
  function Strip(s: string, c: char): string {
    StripRight(StripLeft(s, c), c)
  }

  predicate HasEdge(s: string, c: char) {
    s != "" && (s[0] == c || s[|s| - 1] == c)
  }

  lemma StripChangesEdges(s: string, c: char)
    ensures Strip(s, c) == s <==> !HasEdge(s, c)
    ensures Strip(s, c) != s ==> |Strip(s, c)| < |s|
    ensures !HasEdge(Strip(s, c), c)
  {
    var l := StripLeft(s, c);
    var r := StripRight(l, c);
    StripLeftIsSuffix(s, c);
    StripRightIsPrefix(l, c);
    if r != "" {
      assert r[0] == l[0];
    }
  }

  // ----- the order Python gives to str -----

  /** a <= b in code-point order. */
  predicate StrLe(a: string, b: string) {
    a == "" || (b != "" && (a[0] < b[0] || (a[0] == b[0] && StrLe(a[1..], b[1..]))))
  }

  predicate FirstDifference(a: string, b: string, k: nat) {
    k < |a| && k < |b| && a[..k] == b[..k] && a[k] != b[k]
  }

  /** One string is at most another exactly when it is a prefix of it, or holds the
      smaller character where the two first differ. */
  lemma {:induction false} StrLeMeaning(a: string, b: string)
    ensures StrLe(a, b) <==> a <= b || exists k: nat :: FirstDifference(a, b, k) && a[k] < b[k]
  {
    if a != "" && b != "" {
      if a[0] != b[0] {
        assert FirstDifference(a, b, 0);
        assert forall k: nat | FirstDifference(a, b, k) :: k > 0 ==> a[..k][0] == b[..k][0];
      } else {
        var a', b' := a[1..], b[1..];
        StrLeMeaning(a', b');
        assert a == [a[0]] + a' && b == [b[0]] + b';
        forall k: nat ensures FirstDifference(a', b', k) <==> FirstDifference(a, b, k + 1) {
          if k < |a'| && k < |b'| {
            assert a[..k + 1] == [a[0]] + a'[..k] && b[..k + 1] == [b[0]] + b'[..k];
            assert a[..k + 1][1..] == a'[..k] && b[..k + 1][1..] == b'[..k];
          }
        }
        if k: nat :| FirstDifference(a', b', k) && a'[k] < b'[k] { assert FirstDifference(a, b, k + 1); }
        if k: nat :| FirstDifference(a, b, k) && a[k] < b[k] { assert k > 0; assert FirstDifference(a', b', k - 1); }
      }
    }
  }

  lemma StrLeTotal(a: string, b: string)
    ensures StrLe(a, b) || StrLe(b, a)
  {
    if a != "" && b != "" && a[0] == b[0] {
      StrLeTotal(a[1..], b[1..]);
    }
  }

  lemma StrLeReflexive(a: string)
    ensures StrLe(a, a)
  {
    StrLeTotal(a, a);
  }

  lemma StrLeAntisymmetric(a: string, b: string)
    requires StrLe(a, b) && StrLe(b, a)
    ensures a == b
  {
    if a != "" {
      StrLeAntisymmetric(a[1..], b[1..]);
      assert a == [a[0]] + a[1..] && b == [b[0]] + b[1..];
    }
  }

  lemma StrLeTransitive(a: string, b: string, c: string)
    requires StrLe(a, b) && StrLe(b, c)
    ensures StrLe(a, c)
  {
    if a != "" && a[0] == b[0] && b[0] == c[0] {
      StrLeTransitive(a[1..], b[1..], c[1..]);
    }
  }

  ghost predicate IsLeast(x: string, s: set<string>) {
    x in s && forall y | y in s :: StrLe(x, y)
  }

  lemma LeastExists(s: set<string>)
    requires s != {}
    ensures exists x :: IsLeast(x, s)
    decreases |s|
  {
    var z :| z in s;
    StrLeReflexive(z);
    if s == {z} {
      assert IsLeast(z, s);
    } else {
      var rest := s - {z};
      LeastExists(rest);
      var x :| IsLeast(x, rest);
      StrLeTotal(x, z);
      if StrLe(x, z) {
        assert IsLeast(x, s);
      } else {
        forall y | y in s ensures StrLe(z, y) {
          if y != z { StrLeTransitive(z, x, y); }
        }
        assert IsLeast(z, s);
      }
    }
  }

  ghost function Least(s: set<string>): (x: string)
    requires s != {}
    ensures IsLeast(x, s)
  {
    LeastExists(s);
    var x :| IsLeast(x, s);
    x
  }

  ghost predicate StrictlySorted(r: seq<string>) {
    forall i, j | 0 <= i < j < |r| :: r[i] != r[j] && StrLe(r[i], r[j])
  }

  /** Python's sorted(s) of a set of strings. */
  ghost function SortedSet(s: set<string>): (r: seq<string>)
    ensures forall x :: x in r <==> x in s
    ensures |r| == |s|
    decreases |s|
  {
    if s == {} then [] else
      var x := Least(s);
      [x] + SortedSet(s - {x})
  }

  lemma {:induction false} SortedSetIsSorted(s: set<string>)
    ensures StrictlySorted(SortedSet(s))
    decreases |s|
  {
    if s != {} {
      var x := Least(s);
      var rest := SortedSet(s - {x});
      SortedSetIsSorted(s - {x});
      forall j | 0 <= j < |rest| ensures rest[j] != x && StrLe(x, rest[j]) {
        assert rest[j] in s - {x};
      }
    }
  }

  lemma Shift<T>(a: seq<T>, x: T, b: seq<T>)
    ensures a + ([x] + b) == (a + [x]) + b
  {}

  lemma SortedSetShift(prefix: seq<string>, s: set<string>)
    requires s != {}
    ensures prefix + SortedSet(s) == (prefix + [Least(s)]) + SortedSet(s - {Least(s)})
  {
    Shift(prefix, Least(s), SortedSet(s - {Least(s)}));
  }

  /** Sorting by repeated removal of the least element; the executable form of SortedSet. */
  method Sort(s: set<string>) returns (r: seq<string>)
    ensures r == SortedSet(s)
  {
    r := [];
    var rest := s;
    while rest != {}
      invariant r + SortedSet(rest) == SortedSet(s)
      decreases |rest|
    {
      var x := LeastOf(rest);
      SortedSetShift(r, rest);
      r := r + [x];
      rest := rest - {x};
    }
  }

  method LeastOf(s: set<string>) returns (x: string)
    requires s != {}
    ensures x == Least(s)
  {
    x :| x in s;
    var rest := s - {x};
    ghost var done := {x};
    StrLeReflexive(x);
    while rest != {}
      invariant done + rest == s && done != {}
      invariant x in done && IsLeast(x, done)
      decreases |rest|
    {
      var y :| y in rest;
      rest := rest - {y};
      StrLeTotal(x, y);
      StrLeReflexive(y);
      if !StrLe(x, y) {
        forall z | z in done ensures StrLe(y, z) { StrLeTransitive(y, x, z); }
        x := y;
      }
      done := done + {y};
    }
    assert done == s;
    StrLeAntisymmetric(x, Least(s));
  }
}
