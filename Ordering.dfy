/**
 * Rust's `Ord` on `String` and on `Vec<String>`: lexicographic. `String`
 * compares its UTF-8 bytes, which orders exactly as comparing the characters'
 * code points one by one, as done here.
 */
module Ordering {

  predicate StringLess(a: string, b: string)
    decreases |a|
  {
    if a == [] then b != []
    else if b == [] then false
    else if a[0] < b[0] then true
    else a[0] == b[0] && StringLess(a[1..], b[1..])
  }

  lemma {:induction false} StringLessIrreflexive(a: string)
    ensures !StringLess(a, a)
    decreases |a|
  {
    if a != [] { StringLessIrreflexive(a[1..]); }
  }

  lemma {:induction false} StringLessTransitive(a: string, b: string, c: string)
    requires StringLess(a, b) && StringLess(b, c)
    ensures StringLess(a, c)
    decreases |a|
  {
    if a != [] && a[0] == b[0] && b[0] == c[0] {
      StringLessTransitive(a[1..], b[1..], c[1..]);
    }
  }

  lemma {:induction false} StringLessTotal(a: string, b: string)
    ensures a == b || StringLess(a, b) || StringLess(b, a)
    decreases |a|
  {
    if a != [] && b != [] && a[0] == b[0] {
      StringLessTotal(a[1..], b[1..]);
      if a[1..] == b[1..] {
        assert a == [a[0]] + a[1..] && b == [b[0]] + b[1..];
      }
    }
  }

  lemma {:induction false} StringLessAsymmetric(a: string, b: string)
    requires StringLess(a, b)
    ensures !StringLess(b, a)
    decreases |a|
  {
    if a != [] && a[0] == b[0] {
      StringLessAsymmetric(a[1..], b[1..]);
    }
  }

  predicate StringsLess(a: seq<string>, b: seq<string>)
    decreases |a|
  {
    if a == [] then b != []
    else if b == [] then false
    else if StringLess(a[0], b[0]) then true
    else a[0] == b[0] && StringsLess(a[1..], b[1..])
  }

  lemma {:induction false} StringsLessIrreflexive(a: seq<string>)
    ensures !StringsLess(a, a)
    decreases |a|
  {
    if a != [] {
      StringLessIrreflexive(a[0]);
      StringsLessIrreflexive(a[1..]);
    }
  }

  lemma {:induction false} StringsLessTransitive(a: seq<string>, b: seq<string>, c: seq<string>)
    requires StringsLess(a, b) && StringsLess(b, c)
    ensures StringsLess(a, c)
    decreases |a|
  {
    if a != [] {
      if StringLess(a[0], b[0]) && StringLess(b[0], c[0]) {
        StringLessTransitive(a[0], b[0], c[0]);
      } else if a[0] == b[0] && b[0] == c[0] {
        StringsLessTransitive(a[1..], b[1..], c[1..]);
      }
    }
  }

  lemma {:induction false} StringsLessTotal(a: seq<string>, b: seq<string>)
    ensures a == b || StringsLess(a, b) || StringsLess(b, a)
    decreases |a|
  {
    if a != [] && b != [] {
      StringLessTotal(a[0], b[0]);
      if a[0] == b[0] {
        StringsLessTotal(a[1..], b[1..]);
        if a[1..] == b[1..] {
          assert a == [a[0]] + a[1..] && b == [b[0]] + b[1..];
        }
      }
    }
  }

  lemma {:induction false} StringsLessAsymmetric(a: seq<string>, b: seq<string>)
    requires StringsLess(a, b)
    ensures !StringsLess(b, a)
    decreases |a|
  {
    if a != [] {
      if StringLess(a[0], b[0]) {
        StringLessAsymmetric(a[0], b[0]);
      } else {
        StringLessIrreflexive(a[0]);
        StringsLessAsymmetric(a[1..], b[1..]);
      }
    }
  }

  /** Strictly ascending, hence duplicate-free: what `sort_unstable` leaves of a set. */
  predicate StringsAscending(s: seq<string>) {
    forall i, j :: 0 <= i < j < |s| ==> StringLess(s[i], s[j])
  }

  predicate CharsAscending(s: seq<char>) {
    forall i, j :: 0 <= i < j < |s| ==> s[i] < s[j]
  }

  /** A non-empty finite set of strings has a least element. */
  lemma {:induction false} StringSetHasMinimum(s: set<string>)
    requires s != {}
    ensures exists m :: m in s && forall y :: y in s && y != m ==> StringLess(m, y)
    decreases |s|
  {
    var x :| x in s;
    var rest := s - {x};
    if rest == {} {
      assert s == {x};
    } else {
      StringSetHasMinimum(rest);
      var m :| m in rest && forall y :: y in rest && y != m ==> StringLess(m, y);
      StringLessTotal(x, m);
      if StringLess(x, m) {
        forall y | y in s && y != x ensures StringLess(x, y) {
          if y != m { StringLessTransitive(x, m, y); }
        }
      } else {
        assert forall y :: y in s && y != m ==> StringLess(m, y);
      }
    }
  }

  lemma {:induction false} CharSetHasMinimum(s: set<char>)
    requires s != {}
    ensures exists m :: m in s && forall y :: y in s && y != m ==> m < y
    decreases |s|
  {
    var x :| x in s;
    var rest := s - {x};
    if rest == {} {
      assert s == {x};
    } else {
      CharSetHasMinimum(rest);
      var m :| m in rest && forall y :: y in rest && y != m ==> m < y;
      if x < m {
        forall y | y in s && y != x ensures x < y {
          assert y in rest;
        }
      } else {
        forall y | y in s && y != m ensures m < y {
          if y != x { assert y in rest; }
        }
      }
    }
  }

  /** Two ascending sequences with the same elements are the same sequence. */
  lemma {:induction false} StringsAscendingUnique(a: seq<string>, b: seq<string>)
    requires StringsAscending(a) && StringsAscending(b)
    requires forall x :: x in a <==> x in b
    ensures a == b
    decreases |a|
  {
    assert a != [] ==> a[0] in a;
    assert b != [] ==> b[0] in b;
    if a != [] && b != [] {
      if a[0] != b[0] {
        assert b[0] in a;
        var i :| 0 <= i < |a| && a[i] == b[0];
        assert a[0] in b;
        var j :| 0 <= j < |b| && b[j] == a[0];
        assert StringLess(a[0], b[0]);
        assert StringLess(b[0], a[0]);
        StringLessAsymmetric(a[0], b[0]);
      }
      StringLessIrreflexive(a[0]);
      forall x ensures x in a[1..] <==> x in b[1..] {
        if x in a[1..] {
          var i :| 1 <= i < |a| && a[i] == x;
          assert x != a[0];
          assert x in b;
          var j :| 0 <= j < |b| && b[j] == x;
          assert j != 0;
          assert b[1..][j - 1] == x;
        }
        if x in b[1..] {
          var i :| 1 <= i < |b| && b[i] == x;
          assert x != b[0];
          assert x in a;
          var j :| 0 <= j < |a| && a[j] == x;
          assert j != 0;
          assert a[1..][j - 1] == x;
        }
      }
      StringsAscendingUnique(a[1..], b[1..]);
      assert a == [a[0]] + a[1..] && b == [b[0]] + b[1..];
    }
  }
}
