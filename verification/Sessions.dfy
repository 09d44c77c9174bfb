/** Installs and uninstalls in one shared file, one after the other: every step leaves the rendering
    of a well-formed document, and the whole refines edits of a map from slugs to contents. */
module Sessions {
  import opened Common
  import opened Slugs
  import opened Text
  import opened Sections
  import opened Tidying
  import opened Documents

  // -------------------------------------------------------------- the document after a clean-up

  function SqueezedEntry(e: Entry): Entry { Entry(e.slug, Squeezed(e.content), CollapseNewlines(e.tail)) }

  function SqueezedAll(es: seq<Entry>): seq<Entry> {
    seq(|es|, i requires 0 <= i < |es| => SqueezedEntry(es[i]))
  }

  function SqueezedDoc(d: Doc): Doc { Doc(CollapseNewlines(d.head), SqueezedAll(d.entries)) }

  /** The trailing space of a document is in its last piece of free text. */
  function TrimmedDoc(d: Doc): Doc {
    if d.entries == [] then Doc(TrimEnd(d.head) + "\n", [])
    else
      var n := |d.entries| - 1;
      d.(entries := d.entries[..n] + [d.entries[n].(tail := TrimEnd(d.entries[n].tail) + "\n")])
  }

  function TidiedDoc(d: Doc): Doc { TrimmedDoc(SqueezedDoc(d)) }

  lemma CollapseEntry(e: Entry)
    requires GoodEntry(e)
    ensures CollapseNewlines(RenderEntry(e)) == RenderEntry(SqueezedEntry(e))
  {
    MarkersWellFormed(e.slug);
    SectionOpens(e.slug, e.content);
    CollapseApart(Section(e.slug, e.content), e.tail);
    CollapseSection(Begin(e.slug), e.content, End(e.slug));
  }

  lemma CollapseEntryThen(e: Entry, rest: string)
    requires GoodEntry(e) && (rest == "" || rest[0] == '<')
    ensures CollapseNewlines(RenderEntry(e) + rest) == RenderEntry(SqueezedEntry(e)) + CollapseNewlines(rest)
  {
    CollapseEntry(e);
    CollapseApart(RenderEntry(e), rest);
  }

  lemma SqueezedCons(es: seq<Entry>)
    requires es != []
    ensures RenderAll(SqueezedAll(es)) == RenderEntry(SqueezedEntry(es[0])) + RenderAll(SqueezedAll(es[1..]))
  {
    assert SqueezedAll(es)[0] == SqueezedEntry(es[0]) && SqueezedAll(es)[1..] == SqueezedAll(es[1..]);
  }

  lemma {:induction false} CollapseAll(es: seq<Entry>)
    requires forall e <- es :: GoodEntry(e)
    ensures CollapseNewlines(RenderAll(es)) == RenderAll(SqueezedAll(es))
  {
    if es != [] {
      assert es[0] in es;
      CollapseAll(es[1..]);
      RenderAllSeam("", es[1..]);
      CollapseEntryThen(es[0], RenderAll(es[1..]));
      SqueezedCons(es);
    }
  }

  lemma CollapseRender(d: Doc)
    requires WellFormed(d)
    ensures CollapseNewlines(Render(d)) == Render(SqueezedDoc(d))
  {
    RenderAllSeam("", d.entries);
    CollapseApart(d.head, RenderAll(d.entries));
    CollapseAll(d.entries);
  }

  lemma TrimText(head: string)
    ensures TrimEnd(Render(Doc(head, []))) + "\n" == Render(TrimmedDoc(Doc(head, [])))
  {
    assert Render(Doc(head, [])) == head;
    assert Render(Doc(TrimEnd(head) + "\n", [])) == TrimEnd(head) + "\n";
  }

  lemma TrimLast(head: string, front: seq<Entry>, e: Entry)
    ensures TrimEnd(Render(Doc(head, front + [e]))) + "\n"
         == Render(Doc(head, front + [e.(tail := TrimEnd(e.tail) + "\n")]))
  {
    var p := Render(Doc(head, front)) + Section(e.slug, e.content);
    RenderLast(head, front, e);
    RenderLast(head, front, e.(tail := TrimEnd(e.tail) + "\n"));
    SectionOpens(e.slug, e.content);
    TrimBehind(p, e.tail);
    Grouping(p, TrimEnd(e.tail));
  }

  lemma Grouping(p: string, t: string)
    ensures p + t + "\n" == p + (t + "\n")
  {
  }

  lemma TrimRender(d: Doc)
    ensures TrimEnd(Render(d)) + "\n" == Render(TrimmedDoc(d))
  {
    if d.entries == [] {
      TrimText(d.head);
    } else {
      var n := |d.entries| - 1;
      assert d.entries[..n] + [d.entries[n]] == d.entries;
      TrimLast(d.head, d.entries[..n], d.entries[n]);
    }
  }

  /** Tidying the text is tidying the document. */
  lemma TidiedRender(d: Doc)
    requires WellFormed(d)
    ensures Tidied(Render(d)) == Render(TidiedDoc(d))
  {
    CollapseRender(d);
    TrimRender(SqueezedDoc(d));
  }

  // ------------------------------------------------------- the tidied document is well formed

  lemma MarkerFreeCollapsed(t: string)
    requires MarkerFree(t)
    ensures MarkerFree(CollapseNewlines(t)) && MarkerFree(Squeezed(t))
  {
    forall slug | Plain(slug)
      ensures Free(CollapseNewlines(t), Begin(slug)) && Free(CollapseNewlines(t), End(slug))
      ensures Free(Squeezed(t), Begin(slug)) && Free(Squeezed(t), End(slug))
    {
      MarkersWellFormed(slug);
      CollapseFree(t, Begin(slug));
      CollapseFree(t, End(slug));
      SqueezedFree(t, Begin(slug));
      SqueezedFree(t, End(slug));
    }
  }

  lemma MarkerFreeTrimmed(t: string)
    requires MarkerFree(t)
    ensures MarkerFree(TrimEnd(t) + "\n")
  {
    var r := TrimEnd(t);
    forall slug | Plain(slug) ensures Free(r, Begin(slug)) && Free(r, End(slug)) {
      assert t[0..|r|] == r;
      FreeSlice(t, Begin(slug), 0, |r|);
      FreeSlice(t, End(slug), 0, |r|);
    }
    MarkerFreeNewlines("\n");
    MarkerFreeJoin(r, "\n");
  }

  lemma CollapseOpens(t: string)
    requires t == "" || t[0] == '\n'
    ensures CollapseNewlines(t) == "" || CollapseNewlines(t)[0] == '\n'
  {
  }

  lemma SqueezedGood(e: Entry)
    requires GoodEntry(e)
    ensures GoodEntry(SqueezedEntry(e))
  {
    MarkerFreeCollapsed(e.content);
    MarkerFreeCollapsed(e.tail);
    CollapseOpens(e.tail);
  }

  lemma SqueezedWellFormed(d: Doc)
    requires WellFormed(d)
    ensures WellFormed(SqueezedDoc(d))
  {
    MarkerFreeCollapsed(d.head);
    forall e <- SqueezedAll(d.entries) ensures GoodEntry(e) {
      var i :| 0 <= i < |d.entries| && SqueezedAll(d.entries)[i] == e;
      assert d.entries[i] in d.entries;
      SqueezedGood(d.entries[i]);
    }
  }

  lemma TrimmedWellFormed(d: Doc)
    requires WellFormed(d)
    ensures WellFormed(TrimmedDoc(d))
  {
    if d.entries == [] {
      MarkerFreeTrimmed(d.head);
    } else {
      var n := |d.entries| - 1;
      assert d.entries[n] in d.entries;
      MarkerFreeTrimmed(d.entries[n].tail);
      var tail := TrimEnd(d.entries[n].tail);
      assert tail != "" ==> tail[0] == d.entries[n].tail[0];
      assert forall i | 0 <= i < n :: d.entries[i] in d.entries;
    }
  }

  lemma SameIndex(d: Doc, d': Doc, s: string)
    requires Distinct(d.entries) && Distinct(d'.entries) && |d.entries| == |d'.entries|
    requires forall i | 0 <= i < |d.entries| :: d'.entries[i].slug == d.entries[i].slug
    ensures Index(d'.entries, s) == Index(d.entries, s)
  {
    var k, k' := Index(d.entries, s), Index(d'.entries, s);
    assert forall i | 0 <= i < |d.entries| :: d.entries[i] in d.entries && d'.entries[i] in d'.entries;
  }

  function Squeezing(r: Option<string>): Option<string> { if r.Some? then Some(Squeezed(r.value)) else None }

  lemma TidiedEntries(d: Doc)
    ensures |TidiedDoc(d).entries| == |d.entries|
    ensures forall i | 0 <= i < |d.entries| ::
      TidiedDoc(d).entries[i].slug == d.entries[i].slug
          && TidiedDoc(d).entries[i].content == Squeezed(d.entries[i].content)
  {
  }

  lemma TidiedWellFormed(d: Doc)
    requires WellFormed(d)
    ensures WellFormed(TidiedDoc(d))
  {
    SqueezedWellFormed(d);
    TrimmedWellFormed(SqueezedDoc(d));
  }

  lemma TidiedReading(d: Doc, s: string)
    requires WellFormed(d)
    ensures Lookup(TidiedDoc(d), s) == Squeezing(Lookup(d, s))
  {
    var t := TidiedDoc(d);
    TidiedWellFormed(d);
    TidiedEntries(d);
    SameIndex(d, t, s);
  }

  // ---------------------------------------------------------------- one removal on documents

  /** What a removal leaves of a document. */
  function Uninstalled(d: Doc, slug: string): Doc {
    if Lookup(d, slug).Some? then TidiedDoc(DocRemove(d, slug)) else d
  }

  /** Removing from the file never throws and again leaves the rendering of a well-formed document:
      the removed slug is gone, and every other section keeps its content with newline runs
      collapsed. An absent slug leaves everything as it was. */
  lemma RemoveYields(d: Doc, slug: string)
    requires WellFormed(d) && Plain(slug)
    ensures Remove(Render(d), slug) == Ok(Render(Uninstalled(d, slug))) && WellFormed(Uninstalled(d, slug))
    ensures forall s :: Lookup(Uninstalled(d, slug), s)
                     == if Lookup(d, slug).None? then Lookup(d, s)
                        else if s == slug then None else Squeezing(Lookup(d, s))
  {
    RemoveRefines(d, slug);
    if Lookup(d, slug).Some? {
      RemoveEffect(d, slug);
      var rest := DocRemove(d, slug);
      TidiedRender(rest);
      TidiedWellFormed(rest);
      forall s ensures Lookup(TidiedDoc(rest), s) == if s == slug then None else Squeezing(Lookup(d, s)) {
        TidiedReading(rest, s);
      }
    }
  }

  /** So removing one section changes another exactly when three newlines in a row occur in the other
      one, counting the line breaks that set its content off from its markers. */
  lemma RemoveRewritesOthers(d: Doc, slug: string, other: string)
    requires WellFormed(d) && Plain(slug) && Lookup(d, slug).Some? && other != slug && Lookup(d, other).Some?
    ensures var d2 := Uninstalled(d, slug); var content := Lookup(d, other).value;
            && Remove(Render(d), slug) == Ok(Render(d2)) && WellFormed(d2)
            && Lookup(d2, other) == Some(Squeezed(content))
            && (Lookup(d2, other) != Lookup(d, other) <==> !NoTriple("\n" + content + "\n"))
  {
    RemoveYields(d, slug);
    SqueezedFixed(Lookup(d, other).value);
  }

  lemma ShortIsMarkerFree(t: string)
    requires |t| < 20
    ensures MarkerFree(t)
  {
  }

  /** Three newlines between two visible lines become two. */
  lemma ThreeBetween(x: string, y: string)
    requires x != "" && OnOneLine(x) && y != "" && OnOneLine(y)
    ensures Squeezed(x + "\n\n\n" + y) == x + "\n\n" + y
  {
    var l, r := "\n" + x, y + "\n";
    CollapseFixed(l);
    CollapseFixed(r);
    CollapseRun("\n\n\n");
    CollapseApart(l, "\n\n\n");
    CollapseApart(l + "\n\n\n", r);
    Framed(x, "\n\n\n", y);
    Framed(x, "\n\n", y);
    Unframe(Squeezed(x + "\n\n\n" + y), x + "\n\n" + y);
  }

  lemma Framed(x: string, m: string, y: string)
    ensures "\n" + (x + m + y) + "\n" == ("\n" + x) + m + (y + "\n")
  {
  }

  lemma CollapseExample()
    ensures Squeezed("p\n\n\nq") == "p\n\nq"
  {
    ThreeBetween("p", "q");
    assert "p" + "\n\n\n" + "q" == "p\n\n\nq" && "p" + "\n\n" + "q" == "p\n\nq";
  }

  const TWO_SECTIONS := Doc("", [Entry("a", "x", "\n"), Entry("b", "p\n\n\nq", "\n")])

  lemma TwoSections()
    ensures WellFormed(TWO_SECTIONS)
    ensures Lookup(TWO_SECTIONS, "a") == Some("x") && Lookup(TWO_SECTIONS, "b") == Some("p\n\n\nq")
  {
    ShortIsMarkerFree("");
    ShortIsMarkerFree("\n");
    ShortIsMarkerFree("x");
    ShortIsMarkerFree("p\n\n\nq");
    IndexIs(TWO_SECTIONS.entries, 0);
    IndexIs(TWO_SECTIONS.entries, 1);
  }

  /** A two-section file: removing section "a" turns the content of section "b" into another one. */
  lemma RemoveIsNotLocal()
    ensures exists d, d2 ::
              && WellFormed(d) && WellFormed(d2) && Remove(Render(d), "a") == Ok(Render(d2))
              && Lookup(d, "b") == Some("p\n\n\nq") && Lookup(d2, "b") == Some("p\n\nq")
  {
    TwoSections();
    RemoveRewritesOthers(TWO_SECTIONS, "a", "b");
    CollapseExample();
    assert Lookup(Uninstalled(TWO_SECTIONS, "a"), "b") == Some("p\n\nq");
  }

  // ------------------------------------------------------------------------ whole sessions

  datatype Edit = Put(slug: string, content: string) | Drop(slug: string)

  ghost predicate GoodEdits(edits: seq<Edit>) {
    forall e <- edits :: Plain(e.slug) && (e.Put? ==> MarkerFree(e.content))
  }

  function Edited(file: string, e: Edit): Result {
    match e
    case Put(slug, content) => Upsert(file, slug, content)
    case Drop(slug) => Remove(file, slug)
  }

  /** Installing, updating and uninstalling skills in the same file; an error would end the session. */
  function EditAll(file: string, edits: seq<Edit>): Result
    decreases |edits|
  {
    if edits == [] then Ok(file)
    else
      var r := Edited(file, edits[0]);
      if r.Ok? then EditAll(r.text, edits[1..]) else r
  }

  /** The same on a map from slugs to contents: a removal of a slug that is there squeezes the rest. */
  function MapEdit(m: map<string, string>, e: Edit): map<string, string> {
    match e
    case Put(slug, content) => m[slug := content]
    case Drop(slug) => if slug in m then map s | s in m && s != slug :: Squeezed(m[s]) else m
  }

  function MapEdits(m: map<string, string>, edits: seq<Edit>): map<string, string>
    decreases |edits|
  {
    if edits == [] then m else MapEdits(MapEdit(m, edits[0]), edits[1..])
  }

  /** The sections of a document as a map. */
  function Contents(d: Doc): map<string, string> {
    map s | s in (set e <- d.entries :: e.slug) && Lookup(d, s).Some? :: Lookup(d, s).value
  }

  lemma ContentsRead(d: Doc, s: string)
    ensures Lookup(d, s) == if s in Contents(d) then Some(Contents(d)[s]) else None
  {
    var k := Index(d.entries, s);
    if k != -1 { assert d.entries[k] in d.entries; }
  }

  lemma ContentsAre(d: Doc, m: map<string, string>)
    requires forall s :: Lookup(d, s) == if s in m then Some(m[s]) else None
    ensures Contents(d) == m
  {
    forall s ensures s in Contents(d) <==> s in m { ContentsRead(d, s); }
  }

  lemma EditRefines(d: Doc, e: Edit) returns (d': Doc)
    requires WellFormed(d) && Plain(e.slug) && (e.Put? ==> MarkerFree(e.content))
    ensures WellFormed(d') && Edited(Render(d), e) == Ok(Render(d')) && Contents(d') == MapEdit(Contents(d), e)
  {
    match e {
      case Put(slug, content) =>
        UpsertRefines(d, slug, content);
        UpsertEffect(d, slug, content);
        d' := DocUpsert(d, slug, content);
      case Drop(slug) =>
        RemoveYields(d, slug);
        d' := Uninstalled(d, slug);
    }
    ContentsRead(d, e.slug);
    forall s ensures Lookup(d', s) == if s in MapEdit(Contents(d), e) then Some(MapEdit(Contents(d), e)[s]) else None {
      ContentsRead(d, s);
    }
    ContentsAre(d', MapEdit(Contents(d), e));
  }

  /** No session of installs, updates and uninstalls throws on a well-formed file, and the file it
      leaves is that of a well-formed document whose contents are the initial ones after the same
      edits on a map. */
  lemma {:induction false} SessionRefines(d: Doc, edits: seq<Edit>) returns (d': Doc)
    requires WellFormed(d) && GoodEdits(edits)
    ensures WellFormed(d') && EditAll(Render(d), edits) == Ok(Render(d'))
    ensures Contents(d') == MapEdits(Contents(d), edits)
    decreases |edits|
  {
    if edits == [] {
      d' := d;
    } else {
      var e := edits[0];
      assert e in edits;
      var next := EditRefines(d, e);
      d' := SessionRefines(next, edits[1..]);
    }
  }

  // --------------------------------------------------------------- what a session leaves behind

  /** Some edit of the session removes a section that is there at the time. */
  predicate RemovesSome(m: map<string, string>, edits: seq<Edit>)
    decreases |edits|
  {
    edits != [] && ((edits[0].Drop? && edits[0].slug in m) || RemovesSome(MapEdit(m, edits[0]), edits[1..]))
  }

  /** A slug that the session does not name is squeezed at the first effective removal, and not again. */
  lemma {:induction false} Unnamed(m: map<string, string>, edits: seq<Edit>, slug: string)
    requires forall e <- edits :: e.slug != slug
    ensures slug in MapEdits(m, edits) <==> slug in m
    ensures slug in m ==> MapEdits(m, edits)[slug] == if RemovesSome(m, edits) then Squeezed(m[slug]) else m[slug]
    decreases |edits|
  {
    if edits != [] {
      assert edits[0] in edits;
      Unnamed(MapEdit(m, edits[0]), edits[1..], slug);
      if slug in m { SqueezedTwice(m[slug]); }
    }
  }

  lemma {:induction false} MapEditsAppend(m: map<string, string>, a: seq<Edit>, b: seq<Edit>)
    ensures MapEdits(m, a + b) == MapEdits(MapEdits(m, a), b)
    decreases |a|
  {
    if a == [] {
      assert a + b == b;
    } else {
      assert (a + b)[0] == a[0] && (a + b)[1..] == a[1..] + b;
      MapEditsAppend(MapEdit(m, a[0]), a[1..], b);
    }
  }

  /** Last write wins over a whole session: a slug reads the content last written to it, squeezed if
      an effective removal came later; it reads nothing if it was removed last. */
  lemma LastEditCounts(d: Doc, before: seq<Edit>, last: Edit, after: seq<Edit>) returns (d': Doc)
    requires WellFormed(d) && GoodEdits(before + [last] + after)
    requires forall e <- after :: e.slug != last.slug
    ensures WellFormed(d') && EditAll(Render(d), before + [last] + after) == Ok(Render(d'))
    ensures Lookup(d', last.slug) ==
            if last.Drop? then None
            else if RemovesSome(MapEdits(Contents(d), before + [last]), after) then Some(Squeezed(last.content))
            else Some(last.content)
  {
    var m := Contents(d);
    d' := SessionRefines(d, before + [last] + after);
    MapEditsAppend(m, before + [last], after);
    MapEditsAppend(m, before, [last]);
    var mid := MapEdits(m, before);
    assert [last][1..] == [] && MapEdits(mid, [last]) == MapEdit(mid, last);
    Unnamed(MapEdit(mid, last), after, last.slug);
    ContentsRead(d', last.slug);
  }
}
