/**
 * The three string operations the pages rely on: `toLowerCase`, `includes`
 * and `split(sep)[0]`. Lower-casing is modelled on ASCII letters only.
 */
module Text {

  predicate IsUpper(c: char) {
    'A' <= c <= 'Z'
  }

  /** `toLowerCase` on one character, restricted to ASCII. */
  function LowerChar(c: char): (r: char)
    ensures !IsUpper(r)
    ensures !IsUpper(c) ==> r == c
    ensures IsUpper(c) ==> r as int == c as int + 32
  {
    if IsUpper(c) then (c as int - 'A' as int + 'a' as int) as char else c
  }

  /** `toLowerCase` on a string: every character lower-cased, in place. */
  function Lower(s: string): (r: string)
    ensures |r| == |s|
    ensures forall i :: 0 <= i < |s| ==> r[i] == LowerChar(s[i])
  {
    if s == [] then [] else [LowerChar(s[0])] + Lower(s[1..])
  }

  lemma LowerIdempotent(s: string)
    ensures Lower(Lower(s)) == Lower(s)
  {
  }

  /** `q` appears in `s` starting at index `i`. */
  predicate OccursAt(s: string, q: string, i: int) {
    0 <= i && i + |q| <= |s| && s[i..i + |q|] == q
  }

  /** `s.includes(q)`: `q` occurs somewhere in `s`. */
  function Contains(s: string, q: string): (r: bool)
    ensures r <==> exists i :: OccursAt(s, q, i)
    decreases |s|
  {
    if q <= s then
      assert OccursAt(s, q, 0);
      true
    else if s == [] then
      false
    else
      var r := Contains(s[1..], q);
      assert forall i :: OccursAt(s, q, i + 1) <==> OccursAt(s[1..], q, i) by {
        forall i ensures OccursAt(s, q, i + 1) <==> OccursAt(s[1..], q, i) {
          if 0 <= i && i + 1 + |q| <= |s| {
            assert s[i + 1..i + 1 + |q|] == s[1..][i..i + |q|];
          }
        }
      }
      assert !OccursAt(s, q, 0);
      assert forall i :: OccursAt(s, q, i) ==> OccursAt(s[1..], q, i - 1);
      r
  }

  /** A string cannot contain a query one of whose characters it lacks. */
  lemma ContainsNeedsChar(s: string, q: string, j: int)
    requires 0 <= j < |q| && q[j] !in s
    ensures !Contains(s, q)
  {
  }

  /** Lower-casing introduces a lower-case letter only where it or its capital was. */
  lemma LowerAvoids(s: string, c: char)
    requires 'a' <= c <= 'z'
    requires c !in s && (c as int - 32) as char !in s
    ensures c !in Lower(s)
  {
  }

  /** `s.split(sep)[0]`: the part of `s` before the first `sep`, or all of `s`. */
  function SplitFirst(s: string, sep: char): (r: string)
    ensures r <= s
    ensures sep !in r
    ensures |r| < |s| ==> s[|r|] == sep
  {
    if s == [] || s[0] == sep then [] else [s[0]] + SplitFirst(s[1..], sep)
  }

  /** Anything before the first separator that ends at a separator (or at the end) is that prefix. */
  lemma {:induction false} SplitFirstUnique(s: string, sep: char, p: string)
    requires p <= s && sep !in p && (|p| < |s| ==> s[|p|] == sep)
    ensures SplitFirst(s, sep) == p
  {
    if s != [] && s[0] != sep {
      assert p != [] && p[0] == s[0];
      SplitFirstUnique(s[1..], sep, p[1..]);
    }
  }
}
