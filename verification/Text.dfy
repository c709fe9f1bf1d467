/** Strings as the program orders and prints them: lexicographic comparison (what a BTreeMap key
    or a sort by id uses) and the decimal job names handed out by the in-memory driver. */
module Text {

  datatype Option<+T> = None | Some(value: T)

  /** Lexicographic order by code point. */
  predicate Le(a: string, b: string) {
    a == [] || (b != [] && (a[0] < b[0] || (a[0] == b[0] && Le(a[1..], b[1..]))))
  }

  predicate Lt(a: string, b: string) {
    a != b && Le(a, b)
  }

  lemma LeReflexive(a: string)
    ensures Le(a, a)
  {
    if a != [] { LeReflexive(a[1..]); }
  }

  lemma LeTotal(a: string, b: string)
    ensures Le(a, b) || Le(b, a)
  {
    if a != [] && b != [] && a[0] == b[0] { LeTotal(a[1..], b[1..]); }
  }

  lemma {:induction false} LeAntisymmetric(a: string, b: string)
    requires Le(a, b) && Le(b, a)
    ensures a == b
  {
    if a != [] && b != [] {
      LeAntisymmetric(a[1..], b[1..]);
      assert a == [a[0]] + a[1..] && b == [b[0]] + b[1..];
    }
  }

  lemma {:induction false} LeTransitive(a: string, b: string, c: string)
    requires Le(a, b) && Le(b, c)
    ensures Le(a, c)
  {
    if a != [] && a[0] == b[0] && b[0] == c[0] {
      LeTransitive(a[1..], b[1..], c[1..]);
    }
  }

  /** `a` and `b` agree up to place `i` and `a` has the smaller character there. */
  ghost predicate SmallerAt(a: string, b: string, i: nat) {
    i < |a| && i < |b| && a[..i] == b[..i] && a[i] < b[i]
  }

  ghost predicate IsPrefix(a: string, b: string) {
    |a| <= |b| && b[..|a|] == a
  }

  lemma HeadsAgree(a: string, b: string)
    requires a != "" && b != ""
    ensures IsPrefix(a, b) ==> a[0] == b[0]
    ensures forall i: nat :: SmallerAt(a, b, i) && i > 0 ==> a[0] == b[0]
  {
    if IsPrefix(a, b) { assert b[..|a|][0] == b[0]; }
    forall i: nat | SmallerAt(a, b, i) && i > 0 ensures a[0] == b[0] {
      assert a[..i][0] == a[0] && b[..i][0] == b[0];
    }
  }

  /** The order in its own terms: a prefix comes first, otherwise the first difference decides. */
  lemma {:induction false} LeMeans(a: string, b: string)
    ensures Le(a, b) <==> IsPrefix(a, b) || exists i :: SmallerAt(a, b, i)
    decreases |a|
  {
    if a == [] || b == [] {
    } else if a[0] != b[0] {
      if a[0] < b[0] { assert SmallerAt(a, b, 0); }
      HeadsAgree(a, b);
    } else {
      var p, q := a[1..], b[1..];
      assert a == [a[0]] + p && b == [b[0]] + q;
      LeMeans(p, q);
      assert IsPrefix(p, q) <==> IsPrefix(a, b) by {
        if IsPrefix(a, b) { assert q[..|p|] == b[..|a|][1..]; }
        if IsPrefix(p, q) { assert b[..|a|] == [b[0]] + q[..|p|]; }
      }
      if i: nat :| SmallerAt(p, q, i) {
        assert a[..i + 1] == [a[0]] + p[..i] && b[..i + 1] == [b[0]] + q[..i];
        assert SmallerAt(a, b, i + 1);
      }
      if i: nat :| SmallerAt(a, b, i) {
        assert i > 0;
        assert p[..i - 1] == a[..i][1..] && q[..i - 1] == b[..i][1..];
        assert SmallerAt(p, q, i - 1);
      }
    }
  }

  /** The least string of a nonempty set: the first key of a BTreeSet. */
  ghost predicate IsLeast(x: string, s: set<string>) {
    x in s && forall y :: y in s ==> Le(x, y)
  }

  lemma {:induction false} LeastExists(s: set<string>)
    requires s != {}
    ensures exists x :: IsLeast(x, s)
    decreases |s|
  {
    var y :| y in s;
    LeReflexive(y);
    if s == {y} {
      assert IsLeast(y, s);
    } else {
      var t := s - {y};
      assert s == t + {y};
      LeastExists(t);
      var x :| IsLeast(x, t);
      LeTotal(x, y);
      if Le(x, y) {
        assert IsLeast(x, s);
      } else {
        forall z | z in s ensures Le(y, z) {
          if z != y { LeTransitive(y, x, z); }
        }
        assert IsLeast(y, s);
      }
    }
  }

  function Least(s: set<string>): (x: string)
    requires s != {}
    ensures IsLeast(x, s)
  {
    LeastExists(s);
    assert exists x :: x in s && forall y :: y in s ==> Le(x, y) by {
      var x :| IsLeast(x, s);
    }
    assert forall x, y | (x in s && forall z :: z in s ==> Le(x, z)) &&
                         (y in s && forall z :: z in s ==> Le(y, z)) :: x == y by {
      forall x, y | (x in s && forall z :: z in s ==> Le(x, z)) &&
                    (y in s && forall z :: z in s ==> Le(y, z)) ensures x == y
      { LeAntisymmetric(x, y); }
    }
    var x :| x in s && forall y :: y in s ==> Le(x, y);
    x
  }

  /** The elements of a set in ascending order: the iteration order of a BTreeSet or BTreeMap. */
  function Ascending(s: set<string>): (r: seq<string>)
    ensures |r| == |s| && (forall x :: x in r <==> x in s)
    ensures forall i, j :: 0 <= i < j < |r| ==> Lt(r[i], r[j])
    decreases |s|
  {
    if s == {} then [] else
      var x := Least(s);
      var rest := Ascending(s - {x});
      [x] + rest
  }

  lemma SubsetSize(a: set<string>, b: set<string>)
    requires a <= b
    ensures |a| <= |b|
  {
    assert b == a + (b - a);
  }

  // ---- decimal numerals --------------------------------------------------------------------

  function Digit(n: nat): (c: char)
    requires n < 10
    ensures '0' <= c <= '9' && c as int == '0' as int + n
  {
    '0' + (n as char)
  }

  function Decimal(n: nat): (s: string)
    ensures s != []
  {
    if n < 10 then [Digit(n)] else Decimal(n / 10) + [Digit(n % 10)]
  }

  lemma {:induction false} DecimalInjective(a: nat, b: nat)
    requires Decimal(a) == Decimal(b)
    ensures a == b
    decreases a
  {
    var s, t := Decimal(a), Decimal(b);
    assert s[|s| - 1] == Digit(a % 10) && t[|t| - 1] == Digit(b % 10);
    assert a % 10 == b % 10;
    if a >= 10 && b >= 10 {
      assert Decimal(a / 10) == s[..|s| - 1] && Decimal(b / 10) == t[..|t| - 1];
      DecimalInjective(a / 10, b / 10);
    }
  }
}
