/** Python's ordering of str values (code point by code point, a proper
    prefix first) and sorted() applied to a collection of distinct names. */
module Order {

  /** a < b on Python str values. */
  predicate Less(a: string, b: string)
    decreases |a|
  {
    if a == [] then b != []
    else b != [] && (a[0] < b[0] || (a[0] == b[0] && Less(a[1..], b[1..])))
  }

  lemma {:induction false} LessIrreflexive(a: string)
    ensures !Less(a, a)
    decreases |a|
  {
    if a != [] {
      LessIrreflexive(a[1..]);
    }
  }

  lemma {:induction false} LessTransitive(a: string, b: string, c: string)
    requires Less(a, b) && Less(b, c)
    ensures Less(a, c)
    decreases |a|
  {
    if a != [] && a[0] == b[0] && b[0] == c[0] {
      LessTransitive(a[1..], b[1..], c[1..]);
    }
  }

  lemma {:induction false} LessTotal(a: string, b: string)
    ensures a == b || Less(a, b) || Less(b, a)
    decreases |a|
  {
    if a != [] && b != [] && a[0] == b[0] {
      LessTotal(a[1..], b[1..]);
      if a[1..] == b[1..] {
        assert a == [a[0]] + a[1..] && b == [b[0]] + b[1..];
      }
    }
  }

  lemma LessAsymmetricAll()
    ensures forall a: string, b: string :: !(Less(a, b) && Less(b, a))
  {
    forall a: string, b: string | Less(a, b) && Less(b, a)
      ensures false
    {
      LessTransitive(a, b, a);
      LessIrreflexive(a);
    }
  }

  predicate IsLeast(m: string, s: set<string>) {
    m in s && forall y :: y in s && y != m ==> Less(m, y)
  }

  /** Every finite non-empty set of names has a least element. */
  lemma {:induction false} LeastExists(s: set<string>)
    requires s != {}
    ensures exists m :: IsLeast(m, s)
    decreases |s|
  {
    var x :| x in s;
    if s == {x} {
      assert IsLeast(x, s);
    } else {
      var rest := s - {x};
      LeastExists(rest);
      var m :| IsLeast(m, rest);
      LessTotal(x, m);
      if Less(x, m) {
        forall y | y in s && y != x
          ensures Less(x, y)
        {
          if y != m {
            LessTransitive(x, m, y);
          }
        }
        assert IsLeast(x, s);
      } else {
        assert Less(m, x);
        forall y | y in s && y != m
          ensures Less(m, y)
        {
          if y != x {
            assert y in rest;
          }
        }
        assert IsLeast(m, s);
      }
    }
  }

  predicate StrictlySorted(r: seq<string>) {
    forall i, j :: 0 <= i < j < |r| ==> Less(r[i], r[j])
  }

  /** sorted() of a collection of distinct names. */
  function SortedNames(s: set<string>): seq<string>
    decreases s
  {
    if s == {} then []
    else
      LeastExists(s);
      LessAsymmetricAll();
      var m :| IsLeast(m, s);
      [m] + SortedNames(s - {m})
  }

  /** sorted() lists each name once, in increasing order. */
  lemma {:induction false} SortedNamesFacts(s: set<string>)
    ensures |SortedNames(s)| == |s|
    ensures forall x :: x in SortedNames(s) <==> x in s
    ensures StrictlySorted(SortedNames(s))
    decreases s
  {
    if s != {} {
      LeastExists(s);
      LessAsymmetricAll();
      var m :| IsLeast(m, s);
      var rest := SortedNames(s - {m});
      SortedNamesFacts(s - {m});
      assert SortedNames(s) == [m] + rest;
      forall i, j | 0 <= i < j < |SortedNames(s)|
        ensures Less(SortedNames(s)[i], SortedNames(s)[j])
      {
        if i > 0 {
          assert SortedNames(s)[i] == rest[i - 1] && SortedNames(s)[j] == rest[j - 1];
        } else {
          assert SortedNames(s)[j] == rest[j - 1];
        }
      }
    }
  }
}
