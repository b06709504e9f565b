/** What the string functions of the stores and services mean: the order of ids, trimming, and the length in bytes. */
module Texts {
  import opened Basics
  import opened Worker
  import opened Runs

  /** `a` and `b` agree up to place `n`, where `a` ends or has the smaller character. */
  predicate LessAt(a: string, b: string, n: nat)
  {
    n <= |a| && n < |b| && a[..n] == b[..n] && (n == |a| || a[n] < b[n])
  }

  lemma {:induction false} LessShows(a: string, b: string) returns (n: nat)
    requires StrLess(a, b)
    ensures LessAt(a, b, n)
  {
    n := 0;
    if a != "" && !(a[0] < b[0]) {
      n := LessShows(a[1..], b[1..]);
      assert a[..n + 1] == [a[0]] + a[1..][..n] && b[..n + 1] == [b[0]] + b[1..][..n];
      n := n + 1;
    }
  }

  lemma {:induction false} ShownLess(a: string, b: string, n: nat)
    requires LessAt(a, b, n)
    ensures StrLess(a, b)
    decreases n
  {
    if n > 0 {
      assert a[0] == a[..n][0] && b[0] == b[..n][0];
      assert a[1..][..n - 1] == a[..n][1..] && b[1..][..n - 1] == b[..n][1..];
      ShownLess(a[1..], b[1..], n - 1);
    }
  }

  /** The order of ids is the dictionary order: the first difference decides, and a proper beginning comes first. */
  lemma DictionaryOrder(a: string, b: string)
    ensures StrLess(a, b) <==> exists n :: LessAt(a, b, n)
  {
    if StrLess(a, b) {
      var n := LessShows(a, b);
    }
    if n :| LessAt(a, b, n) {
      ShownLess(a, b, n);
    }
  }

  predicate AllSpace(s: string)
  {
    forall n :: 0 <= n < |s| ==> IsSpace(s[n])
  }

  lemma {:induction false} TrimsLeft(s: string) returns (k: nat)
    ensures k <= |s| && TrimLeft(s) == s[k..] && AllSpace(s[..k]) && (k < |s| ==> !IsSpace(s[k]))
  {
    k := 0;
    if s != "" && IsSpace(s[0]) {
      k := TrimsLeft(s[1..]);
      assert s[..k + 1] == [s[0]] + s[1..][..k] && s[k + 1..] == s[1..][k..];
      k := k + 1;
    }
  }

  lemma {:induction false} TrimsRight(s: string) returns (k: nat)
    ensures k <= |s| && TrimRight(s) == s[..k] && AllSpace(s[k..]) && (k > 0 ==> !IsSpace(s[k - 1]))
  {
    k := |s|;
    if s != "" && IsSpace(s[|s| - 1]) {
      var init := s[..|s| - 1];
      k := TrimsRight(init);
      assert s[k..] == init[k..] + [s[|s| - 1]] && s[..k] == init[..k];
    }
  }

  /** Trimming takes white space off both ends and nothing else: what is left is a part of the text with nothing but
      white space before and after it, and neither begins nor ends with white space. */
  lemma TrimExactly(s: string) returns (from: nat, to: nat)
    ensures from <= to <= |s| && TrimSpace(s) == s[from..to] && AllSpace(s[..from]) && AllSpace(s[to..])
    ensures from < to ==> !IsSpace(s[from]) && !IsSpace(s[to - 1])
  {
    from := TrimsLeft(s);
    var k := TrimsRight(s[from..]);
    to := from + k;
    assert s[from..][..k] == s[from..to] && s[from..][k..] == s[to..];
  }

  /** So a text is blank exactly when it is all white space. */
  lemma BlankExactly(s: string)
    ensures TrimSpace(s) == "" <==> AllSpace(s)
  {
    var from, to := TrimExactly(s);
    assert s == s[..from] + s[from..to] + s[to..];
    if from < to {
      assert !IsSpace(s[from]);
    } else {
      assert forall n :: 0 <= n < |s| ==> s[n] == if n < from then s[..from][n] else s[to..][n - to];
    }
  }

  /** And has no white space around it exactly when it is empty or begins and ends with something else. */
  lemma TrimmedExactly(s: string)
    ensures TrimSpace(s) == s <==> s == "" || (!IsSpace(s[0]) && !IsSpace(s[|s| - 1]))
  {
    var from, to := TrimExactly(s);
    if s != "" {
      assert from > 0 ==> s[..from][0] == s[0];
      assert to < |s| ==> s[to..][|s| - 1 - to] == s[|s| - 1];
    }
  }

  /** The number of characters from `bound` on. */
  function AtLeast(s: string, bound: char): nat
  {
    if s == "" then 0 else (if s[0] >= bound then 1 else 0) + AtLeast(s[1..], bound)
  }

  /** A text takes one byte per character in UTF-8, one more for each from U+0080 on, again from U+0800 on and again from
      U+10000 on (section 3 of RFC 3629). */
  lemma {:induction false} ByteLength(s: string)
    ensures Utf8Length(s) == |s| + AtLeast(s, '\U{80}') + AtLeast(s, '\U{800}') + AtLeast(s, '\U{10000}')
  {
    if s != "" {
      ByteLength(s[1..]);
    }
  }
}
