/** Marker-delimited sections in a shared instruction file
    (packages/cli/src/lib/section-manager.ts). */
module Sections {
  import opened Slugs
  import opened Text

  datatype Result = Ok(text: string) | MissingEnd(slug: string)

  function Begin(slug: string): string { "<!-- skillspell-begin: " + slug + " -->" }

  function End(slug: string): string { "<!-- skillspell-end: " + slug + " -->" }

  function Section(slug: string, content: string): string {
    Begin(slug) + "\n" + content + "\n" + End(slug)
  }

  /** `existing.trim() === ''` */
  predicate Blank(s: string) {
    forall c <- s :: IsSpace(c)
  }

  /** A section block is closed by at least one newline. */
  function NormalTail(t: string): string {
    if t != "" && t[0] == '\n' then t else "\n" + t
  }

  function Upsert(existing: string, slug: string, content: string): (r: Result) {
    UpsertBetween(existing, Begin(slug), End(slug), content, slug)
  }

  function Remove(existing: string, slug: string): (r: Result) {
    RemoveBetween(existing, Begin(slug), End(slug), slug)
  }

  function UpsertBetween(existing: string, begin: string, end: string, content: string, slug: string): Result {
    var section := begin + "\n" + content + "\n" + end;
    var startIdx := IndexOf(existing, begin, 0);
    if startIdx == -1 then
      Ok(existing + (if Blank(existing) then "" else "\n\n") + section + "\n")
    else
      var endIdx := IndexOf(existing, end, startIdx);
      if endIdx == -1 then MissingEnd(slug)
      else Ok(existing[..startIdx] + section + NormalTail(existing[endIdx + |end|..]))
  }

  function RemoveBetween(existing: string, begin: string, end: string, slug: string): Result {
    var startIdx := IndexOf(existing, begin, 0);
    if startIdx == -1 then Ok(existing)
    else
      var endIdx := IndexOf(existing, end, startIdx);
      if endIdx == -1 then MissingEnd(slug)
      else Ok(TrimEnd(CollapseNewlines(existing[..startIdx] + existing[endIdx + |end|..])) + "\n")
  }

  /** The length of the run of newlines that `s` opens with. */
  function NewlineRun(s: string): (n: nat)
    ensures n <= |s|
    ensures forall i | 0 <= i < n :: s[i] == '\n'
    ensures n < |s| ==> s[n] != '\n'
  {
    if s != "" && s[0] == '\n' then 1 + NewlineRun(s[1..]) else 0
  }

  /** Replaces every run of three or more newlines with two. */
  function CollapseNewlines(s: string): (r: string)
    decreases |s|
  {
    var n := NewlineRun(s);
    if s == "" then ""
    else if n == 0 then [s[0]] + CollapseNewlines(s[1..])
    else (if n >= 3 then "\n\n" else s[..n]) + CollapseNewlines(s[n..])
  }

  function TrimEnd(s: string): (r: string)
    ensures r <= s && Blank(s[|r|..])
    ensures r != "" ==> !IsSpace(r[|r| - 1])
  {
    if s != "" && IsSpace(s[|s| - 1]) then TrimEnd(s[..|s| - 1]) else s
  }

  // ------------------------------------------------------------------ markers

  /** A slug that cannot break out of its marker. */
  predicate Plain(slug: string) {
    forall c <- slug :: c != '<' && c != '>' && c != '\n'
  }

  lemma SlugsArePlain(name: string)
    ensures Plain(ToSlug(name))
  {
    SlugIsCanonical(name);
  }

  lemma MarkersWellFormed(slug: string)
    requires Plain(slug)
    ensures IsMarker(Begin(slug)) && IsMarker(End(slug)) && Begin(slug) != End(slug)
  {
    assert forall k | 0 <= k < |slug| :: slug[k] in slug;
    assert Begin(slug)[16] == 'b' && End(slug)[16] == 'e';
  }

  /** Markers are injective: two of them meet only when the kind and the slug agree. */
  lemma MarkersInjective(s: string, t: string)
    requires Plain(s) && Plain(t)
    ensures Begin(s) == Begin(t) <==> s == t
    ensures End(s) == End(t) <==> s == t
    ensures Begin(s) != End(t)
  {
    if Begin(s) == Begin(t) {
      assert Begin(s)[23..|Begin(s)| - 4] == s && Begin(t)[23..|Begin(t)| - 4] == t;
    }
    if End(s) == End(t) {
      assert End(s)[21..|End(s)| - 4] == s && End(t)[21..|End(t)| - 4] == t;
    }
    assert Begin(s)[16] == 'b' && End(t)[16] == 'e';
  }

  // ------------------------------------------------------------- any file at all

  /** A begin and an end marker that can only be told apart. */
  ghost predicate Pair(b: string, e: string) {
    IsMarker(b) && IsMarker(e) && b != e
  }

  /** Where the first section sits in a file that has one. */
  lemma Locate(p: string, b: string, mid: string, e: string, t: string)
    requires Pair(b, e) && Free(p, b) && Free(mid, e)
    ensures var f := p + b + mid + e + t;
      && IndexOf(f, b, 0) == |p|
      && IndexOf(f, e, |p|) == |p| + |b| + |mid|
      && f[..|p|] == p
      && f[|p| + |b| + |mid| + |e|..] == t
  {
    Regroup(p, b, mid, e, t);
    FirstAfter(p, b, mid + e + t);
    NextAfter(p, b, mid, e, t);
    Parts(p, b + mid + e, t);
  }

  lemma UpsertReplaces(p: string, b: string, mid: string, e: string, t: string, content: string, slug: string)
    requires Pair(b, e) && Free(p, b) && Free(mid, e)
    ensures UpsertBetween(p + b + mid + e + t, b, e, content, slug)
         == Ok(p + (b + "\n" + content + "\n" + e) + NormalTail(t))
  {
    Locate(p, b, mid, e, t);
  }

  lemma UpsertAppends(f: string, b: string, e: string, content: string, slug: string)
    requires Free(f, b)
    ensures UpsertBetween(f, b, e, content, slug)
         == Ok(f + (if Blank(f) then "" else "\n\n") + (b + "\n" + content + "\n" + e) + "\n")
  {
    assert IndexOf(f, b, 0) == -1;
  }

  lemma RemoveCuts(p: string, b: string, mid: string, e: string, t: string, slug: string)
    requires Pair(b, e) && Free(p, b) && Free(mid, e)
    ensures RemoveBetween(p + b + mid + e + t, b, e, slug) == Ok(Tidied(p + t))
  {
    Locate(p, b, mid, e, t);
  }

  lemma FreeBefore(f: string, m: string, start: nat)
    requires start <= |f| && forall i | 0 <= i < start :: !At(f, m, i)
    ensures m != "" ==> Free(f[..start], m)
  {
    assert f == f[..start] + f[start..];
    forall i | m != "" ensures !At(f[..start], m, i) {
      if At(f[..start], m, i) { AtLeft(f[..start], f[start..], m, i); }
    }
  }

  /** Every file splits around the section that an upsert writes: what precedes it and what
      follows it do not depend on the content. */
  lemma UpsertFrame(f: string, b: string, e: string, probe: string, slug: string) returns (p: string, t: string)
    requires Pair(b, e) && UpsertBetween(f, b, e, probe, slug).Ok?
    ensures Free(p, b) && t != "" && t[0] == '\n'
    ensures forall c :: UpsertBetween(f, b, e, c, slug) == Ok(p + (b + "\n" + c + "\n" + e) + t)
    ensures Free(f, b) ==> t == "\n" && p == f + (if Blank(f) then "" else "\n\n")
  {
    var start := IndexOf(f, b, 0);
    if start == -1 {
      p, t := AppendFrame(f, b, e, probe, slug);
    } else {
      p, t := f[..start], NormalTail(f[IndexOf(f, e, start) + |e|..]);
      FreeBefore(f, b, start);
    }
  }

  lemma AppendFrame(f: string, b: string, e: string, probe: string, slug: string) returns (p: string, t: string)
    requires Pair(b, e) && IndexOf(f, b, 0) == -1
    ensures Free(p, b) && t == "\n" && p == f + (if Blank(f) then "" else "\n\n")
    ensures forall c :: UpsertBetween(f, b, e, c, slug) == Ok(p + (b + "\n" + c + "\n" + e) + t)
  {
    p, t := f + (if Blank(f) then "" else "\n\n"), "\n";
    FreeSeam(f, if Blank(f) then "" else "\n\n", b);
  }

  lemma WholeSection(p: string, b: string, c: string, e: string, t: string)
    ensures p + (b + "\n" + c + "\n" + e) + t == p + b + ("\n" + c + "\n") + e + t
  {
  }

  lemma OverFree(p: string, b: string, mid: string, e: string, t: string, c2: string, slug: string)
    requires Pair(b, e) && Free(p, b) && Free(mid, e) && t != "" && t[0] == '\n'
    ensures UpsertBetween(p + b + mid + e + t, b, e, c2, slug) == Ok(p + (b + "\n" + c2 + "\n" + e) + t)
  {
    UpsertReplaces(p, b, mid, e, t, c2, slug);
  }

  lemma CutShort(f: string, n: nat, r: nat, e: string, t: string)
    requires |f| == n + |e| + |t| && r < n
    ensures |NormalTail(f[r + |e|..])| > |t|
  {
  }

  /** An end marker inside the section cuts it short: more than `t` is left behind the new section. */
  lemma OverHit(p: string, b: string, mid: string, e: string, t: string, c2: string, slug: string)
    requires Pair(b, e) && Free(p, b) && !Free(mid, e)
    ensures UpsertBetween(p + b + mid + e + t, b, e, c2, slug) != Ok(p + (b + "\n" + c2 + "\n" + e) + t)
  {
    var f := p + b + mid + e + t;
    Regroup(p, b, mid, e, t);
    FirstAfter(p, b, mid + e + t);
    NextInside(p, b, mid, e, t);
    var r := IndexOf(f, e, |p|);
    CutShort(f, |p| + |b| + |mid|, r, e, t);
    var section := b + "\n" + c2 + "\n" + e;
    LongerTail(f[..|p|] + section, p + section, NormalTail(f[r + |e|..]), t);
  }

  lemma LongerTail(x: string, y: string, rest: string, t: string)
    requires |x| == |y| && |rest| > |t|
    ensures x + rest != y + t
  {
    assert |x + rest| > |y + t|;
  }

  lemma UpsertOver(p: string, b: string, c1: string, e: string, t: string, c2: string, slug: string)
    requires Pair(b, e) && Free(p, b) && t != "" && t[0] == '\n'
    ensures UpsertBetween(p + (b + "\n" + c1 + "\n" + e) + t, b, e, c2, slug) == Ok(p + (b + "\n" + c2 + "\n" + e) + t)
       <==> Free(c1, e)
  {
    var mid := "\n" + c1 + "\n";
    FreeSeam("\n", c1, e);
    FreeSeam("\n" + c1, "\n", e);
    WholeSection(p, b, c1, e, t);
    if Free(c1, e) {
      OverFree(p, b, mid, e, t, c2, slug);
    } else {
      OverHit(p, b, mid, e, t, c2, slug);
    }
  }

  /** Last write wins: a second upsert erases the first exactly when the first content does
      not itself contain the slug's end marker. */
  lemma LastWriteWins(f: string, slug: string, c1: string, c2: string)
    requires Plain(slug) && Upsert(f, slug, c1).Ok?
    ensures Upsert(Upsert(f, slug, c1).text, slug, c2) == Upsert(f, slug, c2)
       <==> Free(c1, End(slug))
  {
    MarkersWellFormed(slug);
    var p, t := UpsertFrame(f, Begin(slug), End(slug), c1, slug);
    UpsertOver(p, Begin(slug), c1, End(slug), t, c2, slug);
  }

  // -------------------------------------------------- newlines and trailing space

  ghost predicate AllNewlines(s: string) {
    forall c <- s :: c == '\n'
  }

  /** No run of three newlines, which is what `CollapseNewlines` looks for. */
  predicate NoTriple(s: string) {
    forall i | 0 <= i < |s| :: !TripleAt(s, i)
  }

  predicate TripleAt(s: string, i: int) {
    0 <= i < |s| - 2 && s[i] == '\n' && s[i + 1] == '\n' && s[i + 2] == '\n'
  }

  lemma TrimEndUnique(s: string, r: string)
    requires r <= s && Blank(s[|r|..]) && (r != "" ==> !IsSpace(r[|r| - 1]))
    ensures TrimEnd(s) == r
  {
    var t := TrimEnd(s);
    BlankFrom(s, |t|);
    BlankFrom(s, |r|);
  }

  lemma BlankFrom(s: string, n: nat)
    requires n <= |s| && Blank(s[n..])
    ensures forall k | n <= k < |s| :: IsSpace(s[k])
  {
    assert forall k | n <= k < |s| :: s[k] == s[n..][k - n];
  }

  lemma TrimEndAppend(a: string, w: string)
    requires Blank(w)
    ensures TrimEnd(a + w) == TrimEnd(a)
  {
    var r := TrimEnd(a);
    assert (a + w)[|r|..] == a[|r|..] + w;
    TrimEndUnique(a + w, r);
  }

  lemma RunOfNewlines(s: string)
    requires AllNewlines(s)
    ensures NewlineRun(s) == |s|
  {
    assert forall i | 0 <= i < |s| :: s[i] in s;
  }

  /** What comes after a text does not change how its first run or character is collapsed. */
  lemma CollapseStep(a: string, w: string) returns (k: nat, head: string)
    requires NewlineRun(a) < |a|
    ensures 0 < k <= |a|
    ensures CollapseNewlines(a) == head + CollapseNewlines(a[k..])
    ensures CollapseNewlines(a + w) == head + CollapseNewlines(a[k..] + w)
  {
    var n := NewlineRun(a);
    RunStops(a, w);
    k := if n == 0 then 1 else n;
    head := if n == 0 then [a[0]] else if n >= 3 then "\n\n" else a[..n];
    assert (a + w)[k..] == a[k..] + w && (a + w)[..k] == a[..k];
  }

  lemma CollapseRun(s: string)
    requires AllNewlines(s)
    ensures CollapseNewlines(s) == if |s| >= 3 then "\n\n" else s
  {
    RunOfNewlines(s);
    assert s[|s|..] == "" && s[..|s|] == s;
  }

  /** Newlines appended to a text only append newlines to its collapsed form. */
  lemma CollapseOnlyNewlines(a: string, w: string) returns (tail: string)
    requires AllNewlines(w) && NewlineRun(a) == |a|
    ensures CollapseNewlines(a + w) == CollapseNewlines(a) + tail && AllNewlines(tail)
  {
    assert AllNewlines(a) && AllNewlines(a + w);
    CollapseRun(a);
    CollapseRun(a + w);
    if |a| >= 3 {
      tail := "";
    } else if |a| + |w| >= 3 {
      tail := "\n\n"[|a|..];
      assert forall i | 0 <= i < |a| :: a[i] in a;
      assert a + tail == "\n\n";
    } else {
      tail := w;
    }
  }

  lemma {:induction false} CollapseAppend(a: string, w: string) returns (tail: string)
    requires AllNewlines(w)
    ensures CollapseNewlines(a + w) == CollapseNewlines(a) + tail && AllNewlines(tail)
    decreases |a|
  {
    var n := NewlineRun(a);
    if n == |a| {
      tail := CollapseOnlyNewlines(a, w);
    } else {
      var k, head := CollapseStep(a, w);
      tail := CollapseAppend(a[k..], w);
    }
  }

  lemma {:induction false} RunStops(a: string, w: string)
    requires NewlineRun(a) < |a|
    ensures NewlineRun(a + w) == NewlineRun(a)
  {
    if a[0] == '\n' {
      assert (a + w)[1..] == a[1..] + w;
      RunStops(a[1..], w);
    }
  }

  predicate EndsVisibly(s: string) { s == "" || !IsSpace(s[|s| - 1]) }

  lemma VisibleLater(s: string, k: nat)
    requires EndsVisibly(s) && k <= |s|
    ensures EndsVisibly(s[k..])
  {
  }

  lemma Associate(a: string, b: string, c: string)
    ensures a + (b + c) == (a + b) + c
  {
  }

  /** Whitespace appended after a visible character stays whitespace. */
  lemma {:induction false} CollapseAfterVisible(a: string, w: string) returns (tail: string)
    requires Blank(w) && EndsVisibly(a)
    ensures CollapseNewlines(a + w) == CollapseNewlines(a) + tail && Blank(tail)
    decreases |a|
  {
    if a == "" {
      assert a + w == w;
      CollapseBlank(w);
      tail := CollapseNewlines(w);
    } else {
      var k, head := CollapseStep(a, w);
      VisibleLater(a, k);
      tail := CollapseAfterVisible(a[k..], w);
      Associate(head, CollapseNewlines(a[k..]), tail);
    }
  }

  lemma {:induction false} CollapseBlank(w: string)
    requires Blank(w)
    ensures Blank(CollapseNewlines(w))
    decreases |w|
  {
    if w != "" {
      assert w[0] in w;
      var n := NewlineRun(w);
      CollapseBlank(w[if n == 0 then 1 else n..]);
    }
  }

  /** A text without triple newlines can follow newlines only if it starts visibly. */
  lemma NoTripleJoin(head: string, rest: string)
    requires NoTriple(head) && NoTriple(rest)
    requires rest == "" || rest[0] != '\n' || (head != "" && head[|head| - 1] != '\n')
    ensures NoTriple(head + rest)
  {
    forall i | 0 <= i < |head + rest| ensures !TripleAt(head + rest, i) {
      if i < |head| {
        assert !TripleAt(head, i);
      } else {
        assert !TripleAt(rest, i - |head|);
      }
    }
  }

  /** A collapsed text has no triple newline. */
  lemma {:induction false} CollapseNoTriple(s: string)
    ensures NoTriple(CollapseNewlines(s))
    ensures CollapseNewlines(s) != "" ==> s != "" && (CollapseNewlines(s)[0] == '\n' ==> s[0] == '\n')
    decreases |s|
  {
    if s != "" {
      var n := NewlineRun(s);
      var k := if n == 0 then 1 else n;
      CollapseNoTriple(s[k..]);
      NoTripleJoin(if n == 0 then [s[0]] else if n >= 3 then "\n\n" else s[..n], CollapseNewlines(s[k..]));
    }
  }

  /** Only texts with a triple newline are changed. */
  lemma NoTripleTail(s: string, k: nat)
    requires NoTriple(s) && k <= |s|
    ensures NoTriple(s[k..])
  {
    forall i | 0 <= i < |s[k..]| ensures !TripleAt(s[k..], i) { assert !TripleAt(s, i + k); }
  }

  lemma {:induction false} CollapseFixed(s: string)
    requires NoTriple(s)
    ensures CollapseNewlines(s) == s
    decreases |s|
  {
    if s != "" {
      var n := NewlineRun(s);
      assert !TripleAt(s, 0);
      var k := if n == 0 then 1 else n;
      NoTripleTail(s, k);
      CollapseFixed(s[k..]);
    }
  }

  /** What a removal does to the text it leaves behind. */
  function Tidied(f: string): string {
    TrimEnd(CollapseNewlines(f)) + "\n"
  }

  /** A file that already looks the way a removal leaves it: no triple newline, and exactly
      one newline after the last visible character. */
  predicate Tidy(f: string) {
    && NoTriple(f)
    && f != "" && f[|f| - 1] == '\n'
    && (1 < |f| ==> !IsSpace(f[|f| - 2]))
  }

  lemma TidyStays(f: string)
    requires Tidy(f)
    ensures Tidied(f) == f
  {
    CollapseFixed(f);
    TrimLastNewline(f);
  }

  lemma TrimLastNewline(f: string)
    requires f != "" && f[|f| - 1] == '\n' && (1 < |f| ==> !IsSpace(f[|f| - 2]))
    ensures TrimEnd(f) == f[..|f| - 1] && f == f[..|f| - 1] + "\n"
  {
    assert f[|f| - 1..] == "\n";
    TrimEndUnique(f, f[..|f| - 1]);
  }

  lemma TidyFixed(f: string)
    ensures Tidied(f) == f <==> Tidy(f)
  {
    if Tidy(f) { TidyStays(f); }
    TidiedIsTidy(f);
  }

  lemma TidiedIsTidy(f: string)
    ensures Tidy(Tidied(f))
  {
    CollapseNoTriple(f);
    var c := CollapseNewlines(f);
    var t := TrimEnd(c);
    assert c == t + c[|t|..];
    forall i | 0 <= i < |t| ensures !TripleAt(t, i) { assert !TripleAt(c, i); }
    forall i | 0 <= i < |t + "\n"| ensures !TripleAt(t + "\n", i) { assert i < |t| ==> !TripleAt(t, i); }
  }

  lemma {:induction false} CollapseKeepsLast(t: string)
    requires t != "" && !IsSpace(t[|t| - 1])
    ensures var c := CollapseNewlines(t); c != "" && c[|c| - 1] == t[|t| - 1]
    decreases |t|
  {
    var n := NewlineRun(t);
    var k := if n == 0 then 1 else n;
    if t[k..] != "" {
      CollapseKeepsLast(t[k..]);
    }
  }

  /** Tidying only trims the end exactly when the visible part has no triple newline. */
  lemma TidiedVerbatim(f: string)
    ensures Tidied(f) == TrimEnd(f) + "\n" <==> NoTriple(TrimEnd(f))
  {
    var t := TrimEnd(f);
    var w := f[|t|..];
    assert f == t + w;
    var tail := CollapseAfterVisible(t, w);
    var c := CollapseNewlines(t);
    TrimEndAppend(c, tail);
    if t != "" { CollapseKeepsLast(t); }
    TrimEndUnique(c, c);
    CollapseNoTriple(t);
    if NoTriple(t) { CollapseFixed(t); }
    assert Tidied(f) == c + "\n";
    assert c + "\n" == t + "\n" ==> c == (c + "\n")[..|c|] == t;
  }

  // ------------------------------------------------------------------- round trip

  /** Removing a freshly appended section gives back the file, tidied. */
  lemma RemoveUndoesUpsert(f: string, slug: string, content: string)
    requires Plain(slug) && Free(f, Begin(slug)) && Free(content, End(slug))
    ensures Upsert(f, slug, content).Ok?
    ensures Remove(Upsert(f, slug, content).text, slug) == Ok(Tidied(f))
  {
    MarkersWellFormed(slug);
    CutSection(f, Begin(slug), content, End(slug), slug);
  }

  lemma CutSection(f: string, b: string, content: string, e: string, slug: string)
    requires Pair(b, e) && Free(f, b) && Free(content, e)
    ensures UpsertBetween(f, b, e, content, slug).Ok?
    ensures RemoveBetween(UpsertBetween(f, b, e, content, slug).text, b, e, slug) == Ok(Tidied(f))
  {
    assert IndexOf(f, b, 0) == -1;
    var p, t := UpsertFrame(f, b, e, content, slug);
    var mid := "\n" + content + "\n";
    FreeSeam("\n", content, e);
    FreeSeam("\n" + content, "\n", e);
    assert p + (b + "\n" + content + "\n" + e) + t == p + b + mid + e + t;
    Locate(p, b, mid, e, t);
    TidiedAppend(f, p + t);
  }

  lemma TidiedAppend(f: string, g: string)
    requires g == f + (if Blank(f) then "" else "\n\n") + "\n"
    ensures Tidied(g) == Tidied(f)
  {
    var w := (if Blank(f) then "" else "\n\n") + "\n";
    assert g == f + w;
    var tail := CollapseAppend(f, w);
    TrimEndAppend(CollapseNewlines(f), tail);
  }

  /** Remove is the inverse that the documentation promises exactly on tidy files. */
  lemma RemoveIsInverse(f: string, slug: string, content: string)
    requires Plain(slug) && Free(f, Begin(slug)) && Free(content, End(slug))
    ensures Remove(Upsert(f, slug, content).text, slug) == Ok(f) <==> Tidy(f)
  {
    RemoveUndoesUpsert(f, slug, content);
    TidyFixed(f);
  }
}
