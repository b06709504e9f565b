/** Options, the byte order on strings, and the three-part ranks that every ordering in the stores uses. */
module Basics {

  datatype Option<+T> = None | Some(value: T)

  /** The order `<` on strings: first difference decides, a proper prefix comes first. */
  predicate StrLess(a: string, b: string)
  {
    b != "" && (a == "" || a[0] < b[0] || (a[0] == b[0] && StrLess(a[1..], b[1..])))
  }

  lemma {:induction false} StrLessTotal(a: string, b: string)
    ensures StrLess(a, b) || a == b || StrLess(b, a)
  {
    if a != "" && b != "" && a[0] == b[0] {
      StrLessTotal(a[1..], b[1..]);
      assert a[1..] == b[1..] ==> [a[0]] + a[1..] == [b[0]] + b[1..];
    }
  }

  lemma {:induction false} StrLessAsymmetric(a: string, b: string)
    requires StrLess(a, b)
    ensures !StrLess(b, a) && a != b
  {
    if a != "" && a[0] == b[0] {
      StrLessAsymmetric(a[1..], b[1..]);
    }
  }

  lemma {:induction false} StrLessTransitive(a: string, b: string, c: string)
    requires StrLess(a, b) && StrLess(b, c)
    ensures StrLess(a, c)
  {
    if a != "" && a[0] == b[0] == c[0] {
      StrLessTransitive(a[1..], b[1..], c[1..]);
    }
  }

  /** A sort key: two integers and an id that breaks ties. */
  datatype Rank = Rank(major: int, minor: int, id: string)

  predicate RankLess(a: Rank, b: Rank)
  {
    a.major < b.major
    || (a.major == b.major && (a.minor < b.minor || (a.minor == b.minor && StrLess(a.id, b.id))))
  }

  lemma RankTotal(a: Rank, b: Rank)
    ensures RankLess(a, b) || a == b || RankLess(b, a)
    ensures RankLess(a, b) ==> !RankLess(b, a) && a != b
  {
    StrLessTotal(a.id, b.id);
    if StrLess(a.id, b.id) {
      StrLessAsymmetric(a.id, b.id);
    }
  }

  lemma RankTransitive(a: Rank, b: Rank, c: Rank)
    requires RankLess(a, b) && RankLess(b, c)
    ensures RankLess(a, c)
  {
    if StrLess(a.id, b.id) && StrLess(b.id, c.id) {
      StrLessTransitive(a.id, b.id, c.id);
    }
  }

  /** Removing one element of a set lowers its size by one. */
  lemma CardMinusOne<T>(s: set<T>, x: T)
    requires x in s
    ensures |s - {x}| == |s| - 1
  {
    assert s == (s - {x}) + {x};
  }

  lemma CardMonotone<T>(a: set<T>, b: set<T>)
    requires a <= b
    ensures |a| <= |b|
    ensures |a| == |b| ==> a == b
  {
    assert b == a + (b - a);
  }
}
