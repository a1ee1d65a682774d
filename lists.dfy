/**
 * The two list operations every table page applies to its state:
 * `Array.prototype.filter` and a `map` that rewrites only the entries
 * a predicate selects.
 */
module Lists {

  /** `s.filter(p)`: the entries satisfying `p`, in their original order. */
  function Filter<T>(s: seq<T>, p: T -> bool): (r: seq<T>)
    ensures |r| <= |s|
    ensures forall i :: 0 <= i < |r| ==> r[i] in s && p(r[i])
    ensures forall i :: 0 <= i < |s| ==> (s[i] in r <==> p(s[i]))
    decreases |s|
  {
    if s == [] then []
    else if p(s[0]) then [s[0]] + Filter(s[1..], p)
    else Filter(s[1..], p)
  }

  /** `s.map(x => p(x) ? f(x) : x)`: rewrites the selected entries in place. */
  function Replace<T>(s: seq<T>, p: T -> bool, f: T -> T): seq<T>
  {
    seq(|s|, i requires 0 <= i < |s| => if p(s[i]) then f(s[i]) else s[i])
  }

  /**
   * Filtering distributes over concatenation: entries of an earlier part
   * stay before entries of a later part, so survivors keep their order.
   */
  lemma {:induction false} FilterConcat<T>(a: seq<T>, b: seq<T>, p: T -> bool)
    ensures Filter(a + b, p) == Filter(a, p) + Filter(b, p)
    decreases |a|
  {
    if a != [] {
      assert (a + b)[0] == a[0];
      assert (a + b)[1..] == a[1..] + b;
      FilterConcat(a[1..], b, p);
      if p(a[0]) {
        calc {
          Filter(a + b, p);
          [a[0]] + Filter(a[1..] + b, p);
          [a[0]] + (Filter(a[1..], p) + Filter(b, p));
          ([a[0]] + Filter(a[1..], p)) + Filter(b, p);
        }
      }
    } else {
      assert a + b == b;
    }
  }

  /** A filter that drops nothing returns the list unchanged. */
  lemma {:induction false} FilterKeepsAll<T>(s: seq<T>, p: T -> bool)
    requires forall i :: 0 <= i < |s| ==> p(s[i])
    ensures Filter(s, p) == s
    decreases |s|
  {
    if s != [] {
      FilterKeepsAll(s[1..], p);
    }
  }

  /** When nothing is selected the list comes back unchanged. */
  lemma ReplaceNothing<T>(s: seq<T>, p: T -> bool, f: T -> T)
    requires forall i :: 0 <= i < |s| ==> !p(s[i])
    ensures Replace(s, p, f) == s
  {
  }

  /**
   * Rewriting again changes nothing when a rewritten entry stays selected
   * and rewriting it once more leaves it as it is.
   */
  lemma ReplaceIdempotent<T>(s: seq<T>, p: T -> bool, f: T -> T)
    requires forall x :: p(x) ==> p(f(x)) && f(f(x)) == f(x)
    ensures Replace(Replace(s, p, f), p, f) == Replace(s, p, f)
  {
  }

  /**
   * The rewrite works entry by entry: on a concatenation it is the
   * concatenation of the rewrites, so no entry moves.
   */
  lemma ReplaceConcat<T>(a: seq<T>, b: seq<T>, p: T -> bool, f: T -> T)
    ensures Replace(a + b, p, f) == Replace(a, p, f) + Replace(b, p, f)
  {
  }
}
