/**
 * String and slash-separated path helpers used by the directory and proxy
 * code: the parts of Go's `strings` and `path` packages that the core calls
 * (HasPrefix, TrimPrefix, path.Dir, path.Join) and Go's `<` on strings, plus
 * `Cut`, a first-separator split that the model's own URL reader uses.
 */
module Paths {

  /** strings.HasPrefix: `prefix` is an initial segment of `s`. */
  predicate HasPrefix(s: string, prefix: string)
  {
    prefix <= s
  }

  /** strings.TrimPrefix: `s` without `prefix`, or `s` unchanged when it does not start with it. */
  function TrimPrefix(s: string, prefix: string): (r: string)
    ensures HasPrefix(s, prefix) ==> prefix + r == s
    ensures !HasPrefix(s, prefix) ==> r == s
  {
    if HasPrefix(s, prefix) then s[|prefix|..] else s
  }

  /**
   * The text before and after the first `c` in `s`, and whether there was
   * one (the behaviour of Go's strings.Cut, used here only to read URLs back).
   */
  function Cut(s: string, c: char): (r: (string, string, bool))
    ensures r.2 ==> s == r.0 + [c] + r.1 && c !in r.0
    ensures !r.2 ==> r.0 == s && r.1 == "" && c !in s
  {
    if |s| == 0 then ("", "", false)
    else if s[0] == c then ("", s[1..], true)
    else
      var (before, after, found) := Cut(s[1..], c);
      ([s[0]] + before, after, found)
  }

  /** Cut finds the first separator: any split at a `c` with no earlier `c` is the one Cut returns. */
  lemma {:induction false} CutAt(a: string, c: char, b: string)
    requires c !in a
    ensures Cut(a + [c] + b, c) == (a, b, true)
  {
    if |a| > 0 {
      assert (a + [c] + b)[1..] == a[1..] + [c] + b;
      CutAt(a[1..], c, b);
      assert [a[0]] + a[1..] == a;
    }
  }

  /** Cut of a string without the separator finds nothing. */
  lemma CutAbsent(s: string, c: char)
    requires c !in s
    ensures Cut(s, c) == (s, "", false)
  {
  }

  /** The index of the last `c` in `s`, or -1 when there is none. */
  function LastIndex(s: string, c: char): (r: int)
    ensures -1 <= r < |s|
    ensures 0 <= r ==> s[r] == c
    ensures forall i :: r < i < |s| ==> s[i] != c
  {
    if |s| == 0 then -1
    else if s[|s| - 1] == c then |s| - 1
    else LastIndex(s[..|s| - 1], c)
  }

  /**
   * path.Dir for clean relative paths: everything before the last slash, or
   * "." when the path has no slash.
   */
  function Dir(p: string): (r: string)
    ensures '/' !in p ==> r == "."
    ensures '/' in p ==> HasPrefix(p, r + "/") && forall i :: |r| < i < |p| ==> p[i] != '/'
  {
    var k := LastIndex(p, '/');
    if k < 0 then "."
    else
      assert p[..k] + "/" == p[..k + 1];
      p[..k]
  }

  /**
   * path.Join of two clean relative elements: empty elements and "." add
   * nothing, otherwise the elements are joined by one slash.
   */
  function Join(a: string, b: string): (r: string)
    ensures a != "" && b != "" && b != "." ==> r == a + "/" + b
    ensures b == "" || b == "." ==> r == (if a == "" then b else a)
    ensures a == "" ==> r == b
  {
    if a == "" then b
    else if b == "" || b == "." then a
    else a + "/" + b
  }

  /**
   * Go's `<` on strings: lexicographic order of the characters (for UTF-8
   * text the order of the bytes and of the code points agree).
   */
  predicate LexLess(a: string, b: string)
  {
    if |a| == 0 then |b| > 0
    else if |b| == 0 then false
    else if a[0] != b[0] then a[0] < b[0]
    else LexLess(a[1..], b[1..])
  }

  /** No string comes before itself, and of two strings at most one comes first. */
  lemma {:induction false} LexLessAsymmetric(a: string, b: string)
    ensures !(LexLess(a, b) && LexLess(b, a))
  {
    if |a| > 0 && |b| > 0 && a[0] == b[0] {
      LexLessAsymmetric(a[1..], b[1..]);
    }
  }

  /** Two different strings are always ordered one way or the other. */
  lemma {:induction false} LexLessTotal(a: string, b: string)
    requires a != b
    ensures LexLess(a, b) || LexLess(b, a)
  {
    if |a| > 0 && |b| > 0 && a[0] == b[0] {
      assert a == [a[0]] + a[1..] && b == [b[0]] + b[1..];
      LexLessTotal(a[1..], b[1..]);
    }
  }

  /** "Not after" is transitive: the order sort.Slice sorts by is a total preorder. */
  lemma {:induction false} LexLeqTransitive(a: string, b: string, c: string)
    requires !LexLess(b, a) && !LexLess(c, b)
    ensures !LexLess(c, a)
  {
    if |a| > 0 && |b| > 0 && |c| > 0 && a[0] == b[0] == c[0] {
      LexLeqTransitive(a[1..], b[1..], c[1..]);
    }
  }
}
