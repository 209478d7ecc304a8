/**
 * String and sequence helpers shared by the route gate, the problem search
 * and the problem picker: prefix tests, ASCII lower-casing, substring
 * search, an order-preserving filter and the subsequence relation.
 */
module Text {

  function Min(a: nat, b: nat): nat
  {
    if a < b then a else b
  }

  /** JavaScript's `s.startsWith(prefix)`. */
  predicate StartsWith(s: string, prefix: string)
  {
    prefix <= s
  }

  /** ASCII lower-casing of one character. */
  function LowerChar(c: char): (r: char)
    ensures 'A' <= c <= 'Z' ==> r as int == c as int + 32
    ensures !('A' <= c <= 'Z') ==> r == c
    ensures !('A' <= r <= 'Z')
  {
    if 'A' <= c <= 'Z' then (c as int + 32) as char else c
  }

  /** `s.toLowerCase()` restricted to ASCII letters. */
  function ToLower(s: string): (r: string)
    ensures |r| == |s|
    ensures forall i :: 0 <= i < |s| ==> r[i] == LowerChar(s[i])
  {
    if s == [] then [] else [LowerChar(s[0])] + ToLower(s[1..])
  }

  lemma ToLowerIdempotent(s: string)
    ensures ToLower(ToLower(s)) == ToLower(s)
  {
  }

  /** `s.includes(sub)`: `sub` occurs in `s` at some position. */
  predicate Contains(s: string, sub: string)
  {
    exists i | 0 <= i <= |s| - |sub| :: sub <= s[i..]
  }

  /** `xs.filter(keep)`: the elements that `keep` accepts, in their order. */
  function Filter<T>(xs: seq<T>, keep: T -> bool): (r: seq<T>)
    ensures |r| <= |xs|
    ensures forall i :: 0 <= i < |r| ==> r[i] in xs && keep(r[i])
    ensures forall i :: 0 <= i < |xs| && keep(xs[i]) ==> xs[i] in r
  {
    if xs == [] then []
    else if keep(xs[0]) then [xs[0]] + Filter(xs[1..], keep)
    else Filter(xs[1..], keep)
  }

  /**
   * Text order: strings compared character by character by code, a proper
   * prefix before its extensions.
   */
  predicate TextLe(a: string, b: string)
    decreases |a|
  {
    a == [] || (b != [] && (a[0] < b[0] || (a[0] == b[0] && TextLe(a[1..], b[1..]))))
  }

  lemma {:induction false} TextLeTotal(a: string, b: string)
    ensures TextLe(a, b) || TextLe(b, a)
    decreases |a|
  {
    if a != [] && b != [] && a[0] == b[0] {
      TextLeTotal(a[1..], b[1..]);
    }
  }

  lemma {:induction false} TextLeTransitive(a: string, b: string, c: string)
    requires TextLe(a, b) && TextLe(b, c)
    ensures TextLe(a, c)
    decreases |a|
  {
    if a != [] && a[0] == b[0] && b[0] == c[0] {
      TextLeTransitive(a[1..], b[1..], c[1..]);
    }
  }

  /** Filtering keeps every copy of a kept value and no copy of another. */
  lemma {:induction false} FilterMultiset<T>(xs: seq<T>, keep: T -> bool, x: T)
    ensures multiset(Filter(xs, keep))[x] == if keep(x) then multiset(xs)[x] else 0
    decreases |xs|
  {
    if xs != [] {
      FilterMultiset(xs[1..], keep, x);
      assert xs == [xs[0]] + xs[1..];
    }
  }

  /** `xs` can be obtained from `ys` by deleting elements. */
  ghost predicate IsSubsequence<T>(xs: seq<T>, ys: seq<T>)
    decreases |ys|
  {
    if xs == [] then true
    else if ys == [] then false
    else (xs[0] == ys[0] && IsSubsequence(xs[1..], ys[1..])) || IsSubsequence(xs, ys[1..])
  }

  lemma {:induction false} FilterIsSubsequence<T>(xs: seq<T>, keep: T -> bool)
    ensures IsSubsequence(Filter(xs, keep), xs)
    decreases |xs|
  {
    if xs != [] {
      FilterIsSubsequence(xs[1..], keep);
      if !keep(xs[0]) {
        var r := Filter(xs[1..], keep);
        if r != [] {
          assert IsSubsequence(r, xs[1..]);
        }
      }
    }
  }

  lemma {:induction false} PrefixIsSubsequence<T>(xs: seq<T>, ys: seq<T>, k: nat)
    requires IsSubsequence(xs, ys)
    requires k <= |xs|
    ensures IsSubsequence(xs[..k], ys)
    decreases |ys|
  {
    if k > 0 {
      if xs[0] == ys[0] && IsSubsequence(xs[1..], ys[1..]) {
        PrefixIsSubsequence(xs[1..], ys[1..], k - 1);
        assert xs[..k][1..] == xs[1..][..k - 1];
      } else {
        PrefixIsSubsequence(xs, ys[1..], k);
      }
    }
  }

  lemma {:induction false} SubsequenceTransitive<T>(a: seq<T>, b: seq<T>, c: seq<T>)
    requires IsSubsequence(a, b) && IsSubsequence(b, c)
    ensures IsSubsequence(a, c)
    decreases |c|
  {
    if a != [] {
      if b[0] == c[0] && IsSubsequence(b[1..], c[1..]) {
        if a[0] == b[0] && IsSubsequence(a[1..], b[1..]) {
          SubsequenceTransitive(a[1..], b[1..], c[1..]);
        } else {
          SubsequenceTransitive(a, b[1..], c[1..]);
        }
      } else {
        SubsequenceTransitive(a, b, c[1..]);
      }
    }
  }
}
