/** What the clean-up after a removal does to a text that holds markers: newline runs shrink one by
    one, and no marker appears or moves. */
module Tidying {
  import opened Slugs
  import opened Text
  import opened Sections

  /** No newline run crosses from `a` into `b`. */
  predicate Apart(a: string, b: string) {
    a == "" || b == "" || a[|a| - 1] != '\n' || b[0] != '\n'
  }

  lemma RunEndsAt(a: string, b: string)
    requires NewlineRun(a) == |a| && b != "" && b[0] != '\n'
    ensures NewlineRun(a + b) == |a|
  {
    var n := NewlineRun(a + b);
    assert forall k | 0 <= k < |a| :: (a + b)[k] == a[k];
    assert (a + b)[|a|] == b[0];
  }

  lemma {:induction false} CollapseApart(a: string, b: string)
    requires Apart(a, b)
    ensures CollapseNewlines(a + b) == CollapseNewlines(a) + CollapseNewlines(b)
    decreases |a|
  {
    if a == "" {
      assert a + b == b;
    } else if b == "" {
      assert a + b == a;
    } else if NewlineRun(a) == |a| {
      RunEndsAt(a, b);
      assert (a + b)[|a|..] == b && (a + b)[..|a|] == a && a[|a|..] == "";
      assert a[..|a|] == a;
    } else {
      var k, head := CollapseStep(a, b);
      CollapseApart(a[k..], b);
    }
  }

  // --------------------------------------------------------------------------- markers

  predicate OnOneLine(m: string) { forall k | 0 <= k < |m| :: m[k] != '\n' }

  /** A prefix without newlines is not a product of the collapse. */
  lemma {:induction false} PrefixSurvives(m: string, s: string)
    requires OnOneLine(m) && m <= CollapseNewlines(s)
    ensures m <= s
  {
    if m != "" {
      assert m[0] == CollapseNewlines(s)[0];
      assert NewlineRun(s) == 0;
      assert CollapseNewlines(s)[1..] == CollapseNewlines(s[1..]);
      PrefixSurvives(m[1..], s[1..]);
    }
  }

  lemma SliceOfSlice(s: string, i: nat, j: nat, k: nat, n: nat)
    requires i <= j <= |s| && k + n <= j - i
    ensures s[i..j][k..k + n] == s[i + k..i + k + n]
  {
    var t, x, y := s[i..j], s[i..j][k..k + n], s[i + k..i + k + n];
    forall q | 0 <= q < n ensures x[q] == y[q] { assert x[q] == t[k + q]; }
  }

  lemma FreeSlice(s: string, m: string, i: nat, j: nat)
    requires Free(s, m) && i <= j <= |s|
    ensures Free(s[i..j], m)
  {
    forall k ensures !At(s[i..j], m, k) {
      if 0 <= k && k + |m| <= j - i {
        SliceOfSlice(s, i, j, k, |m|);
        assert !At(s, m, i + k);
      }
    }
  }

  lemma NewlinesFree(w: string, m: string)
    requires AllNewlines(w) && IsMarker(m)
    ensures Free(w, m)
  {
    forall i ensures !At(w, m, i) {
      if 0 <= i && i + |m| <= |w| {
        assert w[i] in w && w[i..i + |m|][0] == w[i];
      }
    }
  }

  lemma FreeCons(c: char, rest: string, m: string)
    requires Free(rest, m) && m != "" && !(m <= [c] + rest)
    ensures Free([c] + rest, m)
  {
    forall i ensures !At([c] + rest, m, i) {
      if At([c] + rest, m, i) && i > 0 { AtRight([c], rest, m, i); }
    }
  }

  lemma PrefixIsAt(s: string, m: string)
    ensures m <= s ==> At(s, m, 0)
  {
    if m <= s { assert s[0..|m|] == m; }
  }

  /** Collapsing newlines brings no marker into being. */
  lemma {:induction false} CollapseFree(s: string, m: string)
    requires IsMarker(m) && Free(s, m)
    ensures Free(CollapseNewlines(s), m)
    decreases |s|
  {
    if s != "" {
      var n := NewlineRun(s);
      var k := if n == 0 then 1 else n;
      assert s[k..|s|] == s[k..];
      FreeSlice(s, m, k, |s|);
      CollapseFree(s[k..], m);
      if n == 0 {
        PrefixIsAt(s, m);
        if m <= CollapseNewlines(s) { PrefixSurvives(m, s); }
        FreeCons(s[0], CollapseNewlines(s[1..]), m);
      } else {
        var head := if n >= 3 then "\n\n" else s[..n];
        NewlinesFree(head, m);
        FreeSeam(head, CollapseNewlines(s[n..]), m);
      }
    }
  }

  // -------------------------------------------------------------- the content of a section

  predicate EndsLine(s: string) { s != "" && s[|s| - 1] == '\n' }

  lemma EndsLater(s: string, k: nat)
    requires EndsLine(s) && k < |s|
    ensures EndsLine(s[k..])
  {
  }

  lemma EndsBehind(a: string, b: string)
    requires EndsLine(b)
    ensures EndsLine(a + b)
  {
  }

  lemma {:induction false} CollapseKeepsEnds(s: string)
    requires EndsLine(s)
    ensures EndsLine(CollapseNewlines(s))
    decreases |s|
  {
    var n := NewlineRun(s);
    var k := if n == 0 then 1 else n;
    var head := if n == 0 then [s[0]] else if n >= 3 then "\n\n" else s[..n];
    assert CollapseNewlines(s) == head + CollapseNewlines(s[k..]);
    if k < |s| {
      EndsLater(s, k);
      CollapseKeepsEnds(s[k..]);
      EndsBehind(head, CollapseNewlines(s[k..]));
    } else {
      assert s[k..] == "" && EndsLine(head);
      assert head + "" == head;
    }
  }

  lemma CollapseFrame(content: string)
    ensures var r := CollapseNewlines("\n" + content + "\n"); 2 <= |r| && r[0] == '\n' && r[|r| - 1] == '\n'
  {
    var s := "\n" + content + "\n";
    CollapseKeepsEnds(s);
    var n := NewlineRun(s);
    if n == 1 { CollapseKeepsEnds(s[1..]); }
  }

  /** The content a section is left with: its newline runs are collapsed together with the line
      breaks that set it off from its markers. */
  function Squeezed(content: string): (r: string)
    ensures "\n" + r + "\n" == CollapseNewlines("\n" + content + "\n")
  {
    CollapseFrame(content);
    var c := CollapseNewlines("\n" + content + "\n");
    c[1..|c| - 1]
  }

  lemma Unframe(a: string, b: string)
    ensures "\n" + a + "\n" == "\n" + b + "\n" <==> a == b
  {
    assert ("\n" + a + "\n")[1..1 + |a|] == a && ("\n" + b + "\n")[1..1 + |b|] == b;
    if "\n" + a + "\n" == "\n" + b + "\n" { assert |a| == |b|; }
  }

  /** A section keeps its content exactly when no three newlines meet in it or at its edges. */
  lemma SqueezedFixed(content: string)
    ensures Squeezed(content) == content <==> NoTriple("\n" + content + "\n")
  {
    Unframe(Squeezed(content), content);
    CollapseNoTriple("\n" + content + "\n");
    if NoTriple("\n" + content + "\n") { CollapseFixed("\n" + content + "\n"); }
  }

  lemma SqueezedTwice(content: string)
    ensures Squeezed(Squeezed(content)) == Squeezed(content)
  {
    CollapseNoTriple("\n" + content + "\n");
    SqueezedFixed(Squeezed(content));
  }

  lemma SqueezedFree(content: string, m: string)
    requires IsMarker(m) && Free(content, m)
    ensures Free(Squeezed(content), m)
  {
    NewlinesFree("\n", m);
    FreeSeam("\n", content, m);
    FreeSeam("\n" + content, "\n", m);
    CollapseFree("\n" + content + "\n", m);
    CollapseFrame(content);
    var c := CollapseNewlines("\n" + content + "\n");
    FreeSlice(c, m, 1, |c| - 1);
    assert c[1..|c| - 1] == Squeezed(content);
  }

  lemma MarkerFixed(m: string)
    requires IsMarker(m)
    ensures CollapseNewlines(m) == m
  {
    CollapseFixed(m);
  }

  lemma CollapseBetween(b: string, mid: string, e: string)
    requires IsMarker(b) && IsMarker(e)
    ensures CollapseNewlines(b + (mid + e)) == b + (CollapseNewlines(mid) + e)
  {
    CollapseApart(b, mid + e);
    CollapseApart(mid, e);
    MarkerFixed(b);
    MarkerFixed(e);
  }

  lemma Grouped(b: string, content: string, e: string)
    ensures b + "\n" + content + "\n" + e == b + (("\n" + content + "\n") + e)
  {
  }

  /** Around visible text, a section collapses part by part. */
  lemma CollapseSection(b: string, content: string, e: string)
    requires IsMarker(b) && IsMarker(e)
    ensures CollapseNewlines(b + "\n" + content + "\n" + e) == b + "\n" + Squeezed(content) + "\n" + e
  {
    Grouped(b, content, e);
    Grouped(b, Squeezed(content), e);
    CollapseBetween(b, "\n" + content + "\n", e);
  }

  /** Trailing space is trimmed behind the last visible character only. */
  lemma TrimBehind(p: string, t: string)
    requires p != "" && !IsSpace(p[|p| - 1])
    ensures TrimEnd(p + t) == p + TrimEnd(t)
  {
    var r := TrimEnd(t);
    assert (p + t)[|p + r|..] == t[|r|..];
    TrimEndUnique(p + t, p + r);
  }
}
