/**
 * Firestore returns the documents of a query in ascending document-id order,
 * and `snapshot.forEach` visits them in that order. Handlers that keep
 * overwriting a variable inside `forEach` therefore end with the match whose
 * id is greatest. This module defines that order on ids (code point by code
 * point) and the greatest element of a non-empty set of ids.
 */
module DocOrder {

  /** `a` sorts at or before `b`. */
  predicate Below(a: string, b: string)
    decreases |a|
  {
    |a| == 0 || (|b| > 0 && (a[0] < b[0] || (a[0] == b[0] && Below(a[1..], b[1..]))))
  }

  lemma {:induction false} BelowReflexive(a: string)
    ensures Below(a, a)
    decreases |a|
  {
    if |a| > 0 {
      BelowReflexive(a[1..]);
    }
  }

  lemma {:induction false} BelowTotal(a: string, b: string)
    ensures Below(a, b) || Below(b, a)
    decreases |a|
  {
    if |a| > 0 && |b| > 0 && a[0] == b[0] {
      BelowTotal(a[1..], b[1..]);
    }
  }

  lemma {:induction false} BelowAntisymmetric(a: string, b: string)
    requires Below(a, b) && Below(b, a)
    ensures a == b
    decreases |a|
  {
    if |a| > 0 {
      BelowAntisymmetric(a[1..], b[1..]);
      assert a == [a[0]] + a[1..];
      assert b == [b[0]] + b[1..];
    }
  }

  lemma {:induction false} BelowTransitive(a: string, b: string, c: string)
    requires Below(a, b) && Below(b, c)
    ensures Below(a, c)
    decreases |a|
  {
    if |a| > 0 && a[0] == b[0] && b[0] == c[0] {
      BelowTransitive(a[1..], b[1..], c[1..]);
    }
  }

  /** `m` is the greatest id of `s`. */
  predicate IsLast(s: set<string>, m: string) {
    m in s && forall k | k in s :: Below(k, m)
  }

  lemma {:induction false} LastExists(s: set<string>)
    requires s != {}
    ensures exists m :: IsLast(s, m)
    decreases |s|
  {
    var x :| x in s;
    if s == {x} {
      BelowReflexive(x);
      assert IsLast(s, x);
    } else {
      var rest := s - {x};
      LastExists(rest);
      var m :| IsLast(rest, m);
      BelowTotal(x, m);
      if Below(x, m) {
        assert IsLast(s, m);
      } else {
        forall k | k in s
          ensures Below(k, x)
        {
          if k == x {
            BelowReflexive(x);
          } else {
            BelowTransitive(k, m, x);
          }
        }
        assert IsLast(s, x);
      }
    }
  }

  lemma LastUnique(s: set<string>, m1: string, m2: string)
    requires IsLast(s, m1) && IsLast(s, m2)
    ensures m1 == m2
  {
    BelowAntisymmetric(m1, m2);
  }

  /** The id of the document a `forEach` over the query visits last. */
  function Last(s: set<string>): (m: string)
    requires s != {}
    ensures m in s
    ensures forall k | k in s :: Below(k, m)
  {
    LastExists(s);
    forall m1, m2 | IsLast(s, m1) && IsLast(s, m2)
      ensures m1 == m2
    {
      LastUnique(s, m1, m2);
    }
    var m :| IsLast(s, m);
    m
  }

  /** With a single match, that match is the one visited last. */
  lemma LastOfSingleton(k: string)
    ensures Last({k}) == k
  {
  }
}
