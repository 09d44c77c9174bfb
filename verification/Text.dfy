/** String search, and what it means for a marker to occur in a concatenation. */
module Text {
  function LowerAscii(c: char): char { if 'A' <= c <= 'Z' then c - 'A' + 'a' else c }

  predicate At(s: string, p: string, i: int) {
    0 <= i && i + |p| <= |s| && s[i..i + |p|] == p
  }

  /** `p` occurs nowhere in `s`. */
  ghost predicate Free(s: string, p: string) {
    forall i :: !At(s, p, i)
  }

  /** `indexOf`: the first occurrence at or after `from`, or -1. */
  function IndexOf(s: string, p: string, from: nat): (r: int)
    ensures r == -1 ==> forall i | from <= i :: !At(s, p, i)
    ensures r != -1 ==> from <= r && At(s, p, r) && forall i | from <= i < r :: !At(s, p, i)
    decreases |s| - from
  {
    if from + |p| > |s| then -1
    else if At(s, p, from) then from
    else IndexOf(s, p, from + 1)
  }

  /** A marker opens with its only '<', closes with its only '>' and stays on one line. */
  ghost predicate IsMarker(m: string) {
    && 1 < |m| && m[0] == '<' && m[|m| - 1] == '>'
    && (forall k | 0 < k < |m| :: m[k] != '<')
    && (forall k | 0 <= k < |m| - 1 :: m[k] != '>')
    && (forall k | 0 <= k < |m| :: m[k] != '\n')
  }

  /** No marker can run across the seam of `a + b`. */
  predicate Seam(a: string, b: string) {
    a == "" || b == "" || b[0] == '<' || b[0] == '\n' || a[|a| - 1] == '>' || a[|a| - 1] == '\n'
  }

  lemma AtIndex(s: string, p: string, i: int, k: nat)
    requires At(s, p, i) && k < |p|
    ensures s[i + k] == p[k]
  {
    assert s[i..i + |p|][k] == s[i + k];
  }

  lemma NoStraddle(a: string, b: string, m: string, i: int)
    requires IsMarker(m) && Seam(a, b) && At(a + b, m, i)
    ensures i + |m| <= |a| || |a| <= i
  {
    if i < |a| < i + |m| {
      AtIndex(a + b, m, i, |a| - i);
      AtIndex(a + b, m, i, |a| - i - 1);
    }
  }

  lemma AtLeft(a: string, b: string, p: string, i: int)
    requires i + |p| <= |a|
    ensures At(a + b, p, i) <==> At(a, p, i)
  {
    if 0 <= i {
      assert (a + b)[i..i + |p|] == a[i..i + |p|];
    }
  }

  lemma AtRight(a: string, b: string, p: string, i: int)
    requires |a| <= i
    ensures At(a + b, p, i) <==> At(b, p, i - |a|)
  {
    if i + |p| <= |a| + |b| {
      assert (a + b)[i..i + |p|] == b[i - |a|..i - |a| + |p|];
    }
  }

  /** Over a seam, an occurrence in the whole is an occurrence in one part. */
  lemma AtSeam(a: string, b: string, m: string, i: int)
    requires IsMarker(m) && Seam(a, b)
    ensures At(a + b, m, i) <==> At(a, m, i) || At(b, m, i - |a|)
  {
    if At(a + b, m, i) {
      NoStraddle(a, b, m, i);
    }
    if i + |m| <= |a| { AtLeft(a, b, m, i); }
    if |a| <= i { AtRight(a, b, m, i); }
  }

  lemma FreeSeam(a: string, b: string, m: string)
    requires IsMarker(m) && Seam(a, b)
    ensures Free(a + b, m) <==> Free(a, m) && Free(b, m)
  {
    forall i ensures At(a + b, m, i) <==> At(a, m, i) || At(b, m, i - |a|) { AtSeam(a, b, m, i); }
    if Free(a + b, m) {
      forall i ensures !At(b, m, i) { AtSeam(a, b, m, i + |a|); }
    }
  }

  /** The first occurrence of `m` is the one that follows `a`. */
  lemma FirstAfter(a: string, m: string, b: string)
    requires IsMarker(m) && Free(a, m)
    ensures IndexOf(a + m + b, m, 0) == |a|
  {
    assert a + m + b == a + (m + b);
    assert At(a + (m + b), m, |a|) by {
      AtRight(a, m + b, m, |a|);
      assert (m + b)[0..|m|] == m;
    }
    forall i | 0 <= i < |a| ensures !At(a + (m + b), m, i) { AtSeam(a, m + b, m, i); }
  }

  /** A marker occurs in another only when the two are the same. */
  lemma MarkersApart(a: string, b: string)
    requires IsMarker(a) && IsMarker(b) && a != b
    ensures Free(a, b)
  {
    forall i ensures !At(a, b, i) {}
  }

  lemma Regroup(p: string, b: string, mid: string, e: string, t: string)
    ensures p + b + mid + e + t == p + b + (mid + e + t)
    ensures p + b + mid + e + t == p + (b + mid + e) + t
  {
  }

  /** Reading a part back out of a concatenation. */
  lemma Parts(p: string, m: string, t: string)
    ensures (p + m + t)[..|p|] == p
    ensures (p + m + t)[|p + m|..] == t
  {
  }

  /** Searching from the start of a marker `a` finds the first other marker `b` after it. */
  lemma NextAfter(pre: string, a: string, mid: string, b: string, post: string)
    requires IsMarker(a) && IsMarker(b) && a != b && Free(mid, b)
    ensures IndexOf(pre + a + mid + b + post, b, |pre|) == |pre| + |a| + |mid|
  {
    var rest := a + mid + (b + post);
    assert pre + a + mid + b + post == pre + rest;
    MarkersApart(a, b);
    FreeSeam(a, mid, b);
    var e := |a| + |mid|;
    assert At(rest, b, e) by {
      AtRight(a + mid, b + post, b, e);
      assert (b + post)[0..|b|] == b;
    }
    AtRight(pre, rest, b, |pre| + e);
    forall i | |pre| <= i < |pre| + e ensures !At(pre + rest, b, i) {
      AtRight(pre, rest, b, i);
      AtSeam(a + mid, b + post, b, i - |pre|);
    }
  }

  lemma OccursInside(a: string, mid: string, b: string, post: string) returns (i: nat)
    requires IsMarker(b) && !Free(mid, b)
    ensures |a| <= i < |a| + |mid| && At(a + (mid + post), b, i)
  {
    var k :| At(mid, b, k);
    AtLeft(mid, post, b, k);
    AtRight(a, mid + post, b, |a| + k);
    i := |a| + k;
  }

  lemma NotInOther(a: string, rest: string, b: string, i: nat)
    requires IsMarker(a) && IsMarker(b) && a != b && i < |a|
    ensures !At(a + rest, b, i)
  {
    AtSeam(a, rest, b, i);
    MarkersApart(a, b);
  }

  /** When `b` also occurs inside `mid`, the search stops there instead. */
  lemma NextInside(pre: string, a: string, mid: string, b: string, post: string)
    requires IsMarker(a) && IsMarker(b) && a != b && !Free(mid, b)
    ensures |pre| + |a| <= IndexOf(pre + a + mid + b + post, b, |pre|) < |pre| + |a| + |mid|
  {
    var whole, rest := pre + a + mid + b + post, a + (mid + (b + post));
    assert whole == pre + rest;
    var i := OccursInside(a, mid, b, b + post);
    AtRight(pre, rest, b, |pre| + i);
    var r := IndexOf(whole, b, |pre|);
    AtRight(pre, rest, b, r);
    if r < |pre| + |a| { NotInOther(a, mid + (b + post), b, r - |pre|); }
  }
}
