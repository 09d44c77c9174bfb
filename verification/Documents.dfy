/** The shared instruction file as a document: free text interleaved with one section per
    slug. The string edits of `Sections` refine edits of this document. */
module Documents {
  import opened Common
  import opened Slugs
  import opened Text
  import opened Sections

  /** A section and the free text that follows it. */
  datatype Entry = Entry(slug: string, content: string, tail: string)

  datatype Doc = Doc(head: string, entries: seq<Entry>)

  function RenderEntry(e: Entry): string {
    Section(e.slug, e.content) + e.tail
  }

  function RenderAll(es: seq<Entry>): string {
    if es == [] then "" else RenderEntry(es[0]) + RenderAll(es[1..])
  }

  function Render(d: Doc): string {
    d.head + RenderAll(d.entries)
  }

  ghost predicate MarkerFree(t: string) {
    forall slug | Plain(slug) :: Free(t, Begin(slug)) && Free(t, End(slug))
  }

  ghost predicate GoodEntry(e: Entry) {
    Plain(e.slug) && MarkerFree(e.content) && MarkerFree(e.tail) && (e.tail == "" || e.tail[0] == '\n')
  }

  predicate Distinct(es: seq<Entry>) {
    forall i, j | 0 <= i < j < |es| :: es[i].slug != es[j].slug
  }

  ghost predicate WellFormed(d: Doc) {
    MarkerFree(d.head) && (forall e <- d.entries :: GoodEntry(e)) && Distinct(d.entries)
  }

  function Index(es: seq<Entry>, slug: string): (r: int)
    ensures r == -1 ==> forall e <- es :: e.slug != slug
    ensures r != -1 ==> 0 <= r < |es| && es[r].slug == slug && forall i | 0 <= i < r :: es[i].slug != slug
  {
    if es == [] then -1
    else if es[0].slug == slug then 0
    else var r := Index(es[1..], slug); if r == -1 then -1 else r + 1
  }

  /** What a reader of the document finds under a slug. */
  function Lookup(d: Doc, slug: string): Option<string> {
    var k := Index(d.entries, slug);
    if k == -1 then None else Some(d.entries[k].content)
  }

  function AddText(d: Doc, t: string): Doc {
    if d.entries == [] then Doc(d.head + t, [])
    else
      var last := d.entries[|d.entries| - 1];
      d.(entries := d.entries[..|d.entries| - 1] + [last.(tail := last.tail + t)])
  }

  function DocUpsert(d: Doc, slug: string, content: string): Doc {
    var k := Index(d.entries, slug);
    if k == -1 then
      var padded := AddText(d, if d.entries == [] && Blank(d.head) then "" else "\n\n");
      padded.(entries := padded.entries + [Entry(slug, content, "\n")])
    else
      d.(entries := d.entries[k := Entry(slug, content, NormalTail(d.entries[k].tail))])
  }

  function DocRemove(d: Doc, slug: string): Doc {
    var k := Index(d.entries, slug);
    if k == -1 then d
    else
      var front := AddText(Doc(d.head, d.entries[..k]), d.entries[k].tail);
      front.(entries := front.entries + d.entries[k + 1..])
  }

  // ------------------------------------------------------------------- rendering

  lemma {:induction false} RenderAppend(a: seq<Entry>, b: seq<Entry>)
    ensures RenderAll(a + b) == RenderAll(a) + RenderAll(b)
  {
    if a == [] {
      assert a + b == b;
    } else {
      assert (a + b)[0] == a[0] && (a + b)[1..] == a[1..] + b;
      RenderAppend(a[1..], b);
    }
  }

  lemma RenderOne(e: Entry)
    ensures RenderAll([e]) == RenderEntry(e)
  {
    assert RenderAll([e][1..]) == "";
  }

  /** A document splits around its k-th section. */
  lemma RenderSplit(d: Doc, k: nat)
    requires k < |d.entries|
    ensures Render(d) == Render(Doc(d.head, d.entries[..k])) + RenderEntry(d.entries[k]) + RenderAll(d.entries[k + 1..])
  {
    var es := d.entries;
    assert es == es[..k] + ([es[k]] + es[k + 1..]);
    RenderAppend(es[..k], [es[k]] + es[k + 1..]);
    RenderAppend([es[k]], es[k + 1..]);
    RenderOne(es[k]);
    Assoc4(d.head, RenderAll(es[..k]), RenderEntry(es[k]), RenderAll(es[k + 1..]));
  }

  /** A document ends with its last section and the free text behind it. */
  lemma RenderLast(head: string, front: seq<Entry>, e: Entry)
    ensures Render(Doc(head, front + [e])) == Render(Doc(head, front)) + Section(e.slug, e.content) + e.tail
  {
    RenderAppend(front, [e]);
    RenderOne(e);
    Assoc4(head, RenderAll(front), Section(e.slug, e.content), e.tail);
  }

  lemma RenderAddText(d: Doc, t: string)
    ensures Render(AddText(d, t)) == Render(d) + t
  {
    if d.entries != [] {
      var n := |d.entries| - 1;
      var front, last := d.entries[..n], d.entries[n];
      assert d.entries == front + [last];
      RenderLast(d.head, front, last);
      RenderLast(d.head, front, last.(tail := last.tail + t));
      Assoc4("", Render(Doc(d.head, front)) + Section(last.slug, last.content), last.tail, t);
    }
  }

  /** A rendered section list opens with a marker. */
  lemma RenderAllSeam(a: string, es: seq<Entry>)
    ensures Seam(a, RenderAll(es))
    ensures es != [] ==> RenderAll(es) != "" && RenderAll(es)[0] == '<'
  {
    if es != [] {
      SectionOpens(es[0].slug, es[0].content);
    }
  }

  lemma SectionOpens(slug: string, content: string)
    ensures Section(slug, content) != "" && Section(slug, content)[0] == '<'
    ensures Section(slug, content)[|Section(slug, content)| - 1] == '>'
  {
  }

  lemma SectionFree(b: string, content: string, e: string, m: string)
    requires IsMarker(m) && IsMarker(b) && IsMarker(e) && m != b && m != e && Free(content, m)
    ensures Free(b + "\n" + content + "\n" + e, m)
  {
    MarkersApart(b, m);
    MarkersApart(e, m);
    FreeSeam(b, "\n", m);
    FreeSeam(b + "\n", content, m);
    FreeSeam(b + "\n" + content, "\n", m);
    FreeSeam(b + "\n" + content + "\n", e, m);
  }

  lemma EntryFree(e: Entry, m: string)
    requires GoodEntry(e) && IsMarker(m) && m != Begin(e.slug) && m != End(e.slug)
    requires Free(e.content, m) && Free(e.tail, m)
    ensures Free(RenderEntry(e), m)
  {
    MarkersWellFormed(e.slug);
    SectionFree(Begin(e.slug), e.content, End(e.slug), m);
    SectionOpens(e.slug, e.content);
    FreeSeam(Section(e.slug, e.content), e.tail, m);
  }

  /** The marker `m` belongs to some plain slug that is not in the list. */
  ghost predicate Foreign(m: string, es: seq<Entry>) {
    exists slug | Plain(slug) && (m == Begin(slug) || m == End(slug)) :: forall e <- es :: e.slug != slug
  }

  lemma {:induction false} AllFree(es: seq<Entry>, m: string)
    requires (forall e <- es :: GoodEntry(e)) && Foreign(m, es)
    ensures IsMarker(m) && Free(RenderAll(es), m)
  {
    var slug :| Plain(slug) && (m == Begin(slug) || m == End(slug)) && forall e <- es :: e.slug != slug;
    MarkersWellFormed(slug);
    if es != [] {
      assert es[0] in es;
      MarkersInjective(slug, es[0].slug);
      MarkersInjective(es[0].slug, slug);
      EntryFree(es[0], m);
      AllFree(es[1..], m);
      RenderAllSeam(RenderEntry(es[0]), es[1..]);
      FreeSeam(RenderEntry(es[0]), RenderAll(es[1..]), m);
    }
  }

  /** A document holds no marker of a slug it has no section for. */
  lemma DocFree(head: string, es: seq<Entry>, slug: string)
    requires MarkerFree(head) && (forall e <- es :: GoodEntry(e)) && Plain(slug)
    requires forall e <- es :: e.slug != slug
    ensures Free(Render(Doc(head, es)), Begin(slug)) && Free(Render(Doc(head, es)), End(slug))
  {
    AllFree(es, Begin(slug));
    AllFree(es, End(slug));
    RenderAllSeam(head, es);
    FreeSeam(head, RenderAll(es), Begin(slug));
    FreeSeam(head, RenderAll(es), End(slug));
  }

  // ------------------------------------------------------------------ refinement

  /** Upserting into the file is upserting into the document, whatever the content. */
  lemma UpsertRefines(d: Doc, slug: string, content: string)
    requires WellFormed(d) && Plain(slug)
    ensures Upsert(Render(d), slug, content) == Ok(Render(DocUpsert(d, slug, content)))
  {
    MarkersWellFormed(slug);
    if Index(d.entries, slug) == -1 {
      AppendRefines(d, slug, content);
    } else {
      ReplaceRefines(d, Index(d.entries, slug), slug, content);
    }
  }

  lemma AppendRefines(d: Doc, slug: string, content: string)
    requires WellFormed(d) && Plain(slug) && Index(d.entries, slug) == -1
    ensures Upsert(Render(d), slug, content) == Ok(Render(DocUpsert(d, slug, content)))
  {
    DocFree(d.head, d.entries, slug);
    BlankRender(d);
    UpsertAppends(Render(d), Begin(slug), End(slug), content, slug);
    AppendRender(d, Entry(slug, content, "\n"), if d.entries == [] && Blank(d.head) then "" else "\n\n");
  }

  lemma AppendRender(d: Doc, e: Entry, sep: string)
    ensures var padded := AddText(d, sep);
      Render(Doc(padded.head, padded.entries + [e])) == Render(d) + sep + Section(e.slug, e.content) + e.tail
  {
    var padded := AddText(d, sep);
    RenderAddText(d, sep);
    RenderAppend(padded.entries, [e]);
    RenderOne(e);
    Assoc4(padded.head, RenderAll(padded.entries), Section(e.slug, e.content), e.tail);
  }

  lemma Assoc4(a: string, b: string, c: string, d: string)
    ensures a + (b + (c + d)) == a + b + c + d
    ensures a + b + (c + d) == a + (b + c) + d
    ensures a + b + (c + d) == a + (b + (c + d))
    ensures a + (b + c) == a + b + c && b + (c + d) == b + c + d
  {
  }

  lemma ReplaceRefines(d: Doc, k: nat, slug: string, content: string)
    requires WellFormed(d) && Plain(slug) && k < |d.entries| && Index(d.entries, slug) == k
    ensures Upsert(Render(d), slug, content) == Ok(Render(DocUpsert(d, slug, content)))
  {
    MarkersWellFormed(slug);
    var e := d.entries[k];
    assert e in d.entries;
    var rest := RenderAll(d.entries[k + 1..]);
    var p, mid := SplitAtSection(d, k);
    UpsertReplaces(p, Begin(slug), mid, End(slug), e.tail + rest, content, slug);
    RenderAllSeam("", d.entries[k + 1..]);
    TailMoves(e.tail, rest);
    ReplaceRender(d, k, content);
    Assoc4(p, Section(slug, content), NormalTail(e.tail), rest);
  }

  lemma ReplaceRender(d: Doc, k: nat, content: string)
    requires k < |d.entries| && Index(d.entries, d.entries[k].slug) == k
    ensures var e := d.entries[k];
      Render(DocUpsert(d, e.slug, content))
        == Render(Doc(d.head, d.entries[..k])) + (Section(e.slug, content) + NormalTail(e.tail))
            + RenderAll(d.entries[k + 1..])
  {
    var d' := DocUpsert(d, d.entries[k].slug, content);
    RenderSplit(d', k);
    assert d'.entries[..k] == d.entries[..k] && d'.entries[k + 1..] == d.entries[k + 1..];
  }

  lemma TailMoves(tail: string, rest: string)
    requires tail == "" || tail[0] == '\n'
    requires rest == "" || rest[0] == '<'
    ensures NormalTail(tail + rest) == NormalTail(tail) + rest
  {
  }

  /** What the string edits see around the k-th section. */
  lemma SplitAtSection(d: Doc, k: nat) returns (p: string, mid: string)
    requires WellFormed(d) && k < |d.entries|
    ensures var e := d.entries[k];
      && p == Render(Doc(d.head, d.entries[..k]))
      && mid == "\n" + e.content + "\n"
      && Render(d) == p + Begin(e.slug) + mid + End(e.slug) + (e.tail + RenderAll(d.entries[k + 1..]))
      && Free(p, Begin(e.slug)) && Free(mid, End(e.slug))
  {
    var e := d.entries[k];
    assert e in d.entries;
    p, mid := Render(Doc(d.head, d.entries[..k])), "\n" + e.content + "\n";
    MarkersWellFormed(e.slug);
    DocFree(d.head, d.entries[..k], e.slug);
    FreeSeam("\n", e.content, End(e.slug));
    FreeSeam("\n" + e.content, "\n", End(e.slug));
    RenderSplit(d, k);
    RegroupSection(p, Begin(e.slug), e.content, End(e.slug), e.tail, RenderAll(d.entries[k + 1..]));
  }

  lemma RegroupSection(p: string, b: string, content: string, e: string, tail: string, rest: string)
    ensures p + ((b + "\n" + content + "\n" + e) + tail) + rest
         == p + b + ("\n" + content + "\n") + e + (tail + rest)
  {
  }

  lemma BlankRender(d: Doc)
    ensures Blank(Render(d)) <==> d.entries == [] && Blank(d.head)
  {
    RenderAllSeam(d.head, d.entries);
    if d.entries != [] {
      assert Render(d)[|d.head|] in Render(d) && !IsSpace(Render(d)[|d.head|]);
    } else {
      assert Render(d) == d.head;
    }
  }

  lemma MarkerFreeNewlines(t: string)
    requires forall c <- t :: c == '\n'
    ensures MarkerFree(t)
  {
    forall slug | Plain(slug) ensures Free(t, Begin(slug)) && Free(t, End(slug)) {
      MarkersWellFormed(slug);
      assert forall i | 0 <= i < |t| :: t[i] in t;
      forall i ensures !At(t, Begin(slug), i) && !At(t, End(slug), i) {
        if At(t, Begin(slug), i) { AtIndex(t, Begin(slug), i, 0); }
        if At(t, End(slug), i) { AtIndex(t, End(slug), i, 0); }
      }
    }
  }

  lemma MarkerFreeJoin(a: string, b: string)
    requires MarkerFree(a) && MarkerFree(b) && Seam(a, b)
    ensures MarkerFree(a + b)
  {
    forall slug | Plain(slug) ensures Free(a + b, Begin(slug)) && Free(a + b, End(slug)) {
      MarkersWellFormed(slug);
      FreeSeam(a, b, Begin(slug));
      FreeSeam(a, b, End(slug));
    }
  }

  lemma AddTextKeeps(d: Doc, t: string)
    requires WellFormed(d) && MarkerFree(t) && (t == "" || t[0] == '\n')
    ensures WellFormed(AddText(d, t))
    ensures |AddText(d, t).entries| == |d.entries|
    ensures forall i | 0 <= i < |d.entries| ::
      AddText(d, t).entries[i].slug == d.entries[i].slug && AddText(d, t).entries[i].content == d.entries[i].content
  {
    if d.entries == [] {
      MarkerFreeJoin(d.head, t);
    } else {
      assert d.entries[|d.entries| - 1] in d.entries;
      MarkerFreeJoin(d.entries[|d.entries| - 1].tail, t);
    }
  }

  lemma IndexIs(es: seq<Entry>, k: nat)
    requires Distinct(es) && k < |es|
    ensures Index(es, es[k].slug) == k
  {
    assert es[k] in es;
  }

  /** What an upsert leaves: the old sections in place, but for the one it writes. */
  ghost predicate Upserted(d: Doc, d': Doc, slug: string, content: string) {
    && WellFormed(d') && |d.entries| <= |d'.entries|
    && (forall i | 0 <= i < |d.entries| :: d'.entries[i].slug == d.entries[i].slug)
    && (forall i | 0 <= i < |d.entries| && d.entries[i].slug != slug :: d'.entries[i].content == d.entries[i].content)
    && (forall i | 0 <= i < |d'.entries| && d'.entries[i].slug == slug :: d'.entries[i].content == content)
    && (forall i | |d.entries| <= i < |d'.entries| :: d'.entries[i].slug == slug)
    && (exists e :: e in d'.entries && e.slug == slug)
  }

  lemma OneMoreEntry(d: Doc, head: string, es: seq<Entry>, e: Entry)
    requires Distinct(d.entries) && WellFormed(Doc(head, es)) && GoodEntry(e) && |es| == |d.entries|
    requires forall i | 0 <= i < |es| :: es[i].slug == d.entries[i].slug && es[i].content == d.entries[i].content
    requires forall i | 0 <= i < |es| :: d.entries[i].slug != e.slug
    ensures Upserted(d, Doc(head, es + [e]), e.slug, e.content)
  {
    var all := es + [e];
    assert all[|es|] == e;
    assert forall i | 0 <= i < |es| :: all[i] == es[i];
  }

  lemma AppendShape(d: Doc, slug: string, content: string, sep: string)
    requires WellFormed(d) && Plain(slug) && MarkerFree(content) && Index(d.entries, slug) == -1
    requires sep == "" || sep == "\n\n"
    ensures var padded := AddText(d, sep);
            Upserted(d, padded.(entries := padded.entries + [Entry(slug, content, "\n")]), slug, content)
  {
    MarkerFreeNewlines("\n");
    MarkerFreeNewlines(sep);
    AddTextKeeps(d, sep);
    forall i | 0 <= i < |d.entries| ensures d.entries[i].slug != slug { assert d.entries[i] in d.entries; }
    var padded := AddText(d, sep);
    OneMoreEntry(d, padded.head, padded.entries, Entry(slug, content, "\n"));
  }

  lemma ReplaceShape(d: Doc, k: nat, slug: string, content: string)
    requires WellFormed(d) && Plain(slug) && MarkerFree(content) && k < |d.entries| && d.entries[k].slug == slug
    ensures Upserted(d, d.(entries := d.entries[k := Entry(slug, content, NormalTail(d.entries[k].tail))]), slug,
        content)
  {
    var e := Entry(slug, content, NormalTail(d.entries[k].tail));
    var es := d.entries[k := e];
    MarkerFreeNewlines("\n");
    assert d.entries[k] in d.entries;
    assert NormalTail(d.entries[k].tail) == if d.entries[k].tail == "" then "\n" else d.entries[k].tail;
    assert es[k] == e && e in es;
  }

  /** An upsert keeps the document well formed and changes the reading of its own slug only. */
  lemma UpsertEffect(d: Doc, slug: string, content: string)
    requires WellFormed(d) && Plain(slug) && MarkerFree(content)
    ensures WellFormed(DocUpsert(d, slug, content))
    ensures forall s :: Lookup(DocUpsert(d, slug, content), s) == if s == slug then Some(content) else Lookup(d, s)
  {
    var k := Index(d.entries, slug);
    if k == -1 {
      AppendShape(d, slug, content, if d.entries == [] && Blank(d.head) then "" else "\n\n");
    } else {
      ReplaceShape(d, k, slug, content);
    }
    forall s ensures Lookup(DocUpsert(d, slug, content), s) == if s == slug then Some(content) else Lookup(d, s) {
      SameReading(d, DocUpsert(d, slug, content), slug, content, s);
    }
  }

  lemma SameReading(d: Doc, d': Doc, slug: string, content: string, s: string)
    requires Distinct(d.entries) && Upserted(d, d', slug, content)
    ensures Lookup(d', s) == if s == slug then Some(content) else Lookup(d, s)
  {
    var k, k' := Index(d.entries, s), Index(d'.entries, s);
    assert forall i | 0 <= i < |d.entries| :: d.entries[i] in d.entries;
    if k != -1 {
      IndexIs(d'.entries, k);
    }
  }

  // --------------------------------------------------------------------- removal

  /** Removing from the file is removing from the document and tidying what is left. */
  lemma RemoveRefines(d: Doc, slug: string)
    requires WellFormed(d) && Plain(slug)
    ensures Remove(Render(d), slug)
         == Ok(if Lookup(d, slug).Some? then Tidied(Render(DocRemove(d, slug))) else Render(d))
  {
    var k := Index(d.entries, slug);
    MarkersWellFormed(slug);
    if k == -1 {
      DocFree(d.head, d.entries, slug);
      assert IndexOf(Render(d), Begin(slug), 0) == -1;
    } else {
      var p, mid := SplitAtSection(d, k);
      RemoveCuts(p, Begin(slug), mid, End(slug), d.entries[k].tail + RenderAll(d.entries[k + 1..]), slug);
      RemoveRender(d, k);
    }
  }

  lemma RemoveRender(d: Doc, k: nat)
    requires k < |d.entries| && Index(d.entries, d.entries[k].slug) == k
    ensures Render(DocRemove(d, d.entries[k].slug))
         == Render(Doc(d.head, d.entries[..k])) + (d.entries[k].tail + RenderAll(d.entries[k + 1..]))
  {
    var front := Doc(d.head, d.entries[..k]);
    var joined := AddText(front, d.entries[k].tail);
    RenderAddText(front, d.entries[k].tail);
    RenderAppend(joined.entries, d.entries[k + 1..]);
    Assoc4(joined.head, RenderAll(joined.entries), RenderAll(d.entries[k + 1..]), "");
    Assoc4("", Render(front), d.entries[k].tail, RenderAll(d.entries[k + 1..]));
  }

  /** A removal keeps the document well formed and forgets its own slug only. */
  lemma RemoveEffect(d: Doc, slug: string)
    requires WellFormed(d)
    ensures WellFormed(DocRemove(d, slug))
    ensures forall s :: Lookup(DocRemove(d, slug), s) == if s == slug then None else Lookup(d, s)
  {
    var k := Index(d.entries, slug);
    if k != -1 {
      RemoveShape(d, k);
      var d' := DocRemove(d, slug);
      forall s ensures Lookup(d', s) == if s == slug then None else Lookup(d, s) {
        ForgetsOne(d, d', k, s);
      }
    }
  }

  /** After a removal the sections are the old ones without the k-th, tails apart. */
  lemma RemoveShape(d: Doc, k: nat)
    requires WellFormed(d) && k < |d.entries| && Index(d.entries, d.entries[k].slug) == k
    ensures var d' := DocRemove(d, d.entries[k].slug);
      && WellFormed(d') && |d.entries| == |d'.entries| + 1
      && forall i | 0 <= i < |d'.entries| ::
           var e := d.entries[if i < k then i else i + 1];
                   d'.entries[i].slug == e.slug
                   && d'.entries[i].content == e.content
  {
    assert d.entries[k] in d.entries;
    var front := Doc(d.head, d.entries[..k]);
    AddTextKeeps(front, d.entries[k].tail);
    JoinShape(d.entries, AddText(front, d.entries[k].tail).entries, k);
  }

  lemma JoinShape(es: seq<Entry>, front: seq<Entry>, k: nat)
    requires |front| == k < |es| && Distinct(es)
    requires forall i | 0 <= i < k :: front[i].slug == es[i].slug && front[i].content == es[i].content
    requires (forall e <- front :: GoodEntry(e)) && forall e <- es :: GoodEntry(e)
    ensures var r := front + es[k + 1..];
      && Distinct(r) && (forall e <- r :: GoodEntry(e))
      && forall i | 0 <= i < |r| :: var e := es[if i < k then i else i + 1];
              r[i].slug == e.slug
              && r[i].content == e.content
  {
    var r := front + es[k + 1..];
    assert forall i | 0 <= i < |r| :: r[i] == if i < k then front[i] else es[i + 1];
  }

  lemma ForgetsOne(d: Doc, d': Doc, k: nat, s: string)
    requires Distinct(d.entries) && Distinct(d'.entries) && k < |d.entries| == |d'.entries| + 1
    requires forall i | 0 <= i < |d'.entries| ::
      var e := d.entries[if i < k then i else i + 1]; d'.entries[i].slug == e.slug && d'.entries[i].content == e.content
    ensures Lookup(d', s) == if s == d.entries[k].slug then None else Lookup(d, s)
  {
    var j, j' := Index(d.entries, s), Index(d'.entries, s);
    assert forall i | 0 <= i < |d.entries| :: d.entries[i] in d.entries;
    if j != -1 && j != k {
      IndexIs(d'.entries, if j < k then j else j - 1);
    }
  }

  /** The rest of the file survives a removal verbatim, up to its trailing whitespace, exactly
      when no run of three newlines is left in it, be it in free text or in another section. */
  lemma RemoveVerbatim(d: Doc, slug: string)
    requires WellFormed(d) && Plain(slug) && Lookup(d, slug).Some?
    ensures Remove(Render(d), slug) == Ok(TrimEnd(Render(DocRemove(d, slug))) + "\n")
       <==> NoTriple(TrimEnd(Render(DocRemove(d, slug))))
  {
    RemoveRefines(d, slug);
    TidiedVerbatim(Render(DocRemove(d, slug)));
  }

  // ------------------------------------------------------------------- injectivity

  lemma Cancel(a1: string, b1: string, a2: string, b2: string)
    requires a1 + b1 == a2 + b2 && |a1| == |a2|
    ensures a1 == a2 && b1 == b2
  {
    assert a1 == (a1 + b1)[..|a1|] && a2 == (a2 + b2)[..|a2|];
    assert b1 == (a1 + b1)[|a1|..] && b2 == (a2 + b2)[|a2|..];
  }

  lemma SamePlace(x: string, m: string, n: string)
    requires IsMarker(m) && IsMarker(n) && m <= x && n <= x
    ensures m == n
  {
    assert |m| <= |n| ==> n[|m| - 1] == '>';
    assert |n| <= |m| ==> m[|n| - 1] == '>';
  }

  lemma HeadBound(h1: string, r1: string, h2: string, r2: string, m: string)
    requires h1 + r1 == h2 + r2 && IsMarker(m) && Free(h1, m) && m <= r2 && Seam(h1, r1)
    ensures |h1| <= |h2|
  {
    assert r2[0..|m|] == m;
    AtRight(h2, r2, m, |h2|);
    AtSeam(h1, r1, m, |h2|);
  }

  lemma SectionPrefix(b: string, content: string, e: string, tail: string, rest: string)
    ensures b <= (b + "\n" + content + "\n" + e) + tail + rest
    ensures (b + "\n" + content + "\n" + e) + tail + rest == b + ("\n" + content + "\n") + e + (tail + rest)
  {
  }

  /** Two sections with the same markers that open the same text have the same content. */
  lemma SameContent(b: string, e: string, c1: string, t1: string, c2: string, t2: string)
    requires Pair(b, e) && Free(c1, e) && Free(c2, e)
    requires b + ("\n" + c1 + "\n") + e + t1 == b + ("\n" + c2 + "\n") + e + t2
    ensures c1 == c2 && t1 == t2
  {
    EndPosition(b, e, c1, t1);
    EndPosition(b, e, c2, t2);
    PeelSection(b, e, c1, t1, c2, t2);
  }

  lemma EndPosition(b: string, e: string, content: string, t: string)
    requires Pair(b, e) && Free(content, e)
    ensures IndexOf(b + ("\n" + content + "\n") + e + t, e, 0) == |b| + |content| + 2
  {
    FreeSeam("\n", content, e);
    FreeSeam("\n" + content, "\n", e);
    assert "" + b == b;
    NextAfter("", b, "\n" + content + "\n", e, t);
  }

  lemma PeelSection(b: string, e: string, c1: string, t1: string, c2: string, t2: string)
    requires b + ("\n" + c1 + "\n") + e + t1 == b + ("\n" + c2 + "\n") + e + t2 && |c1| == |c2|
    ensures c1 == c2 && t1 == t2
  {
    Cancel(b + ("\n" + c1 + "\n") + e, t1, b + ("\n" + c2 + "\n") + e, t2);
    Cancel(b + ("\n" + c1 + "\n"), e, b + ("\n" + c2 + "\n"), e);
    Cancel(b, "\n" + c1 + "\n", b, "\n" + c2 + "\n");
    assert c1 == ("\n" + c1 + "\n")[1..1 + |c1|] && c2 == ("\n" + c2 + "\n")[1..1 + |c2|];
  }

  lemma FirstSection(es: seq<Entry>)
    requires es != [] && GoodEntry(es[0])
    ensures IsMarker(Begin(es[0].slug)) && Begin(es[0].slug) <= RenderAll(es)
    ensures RenderAll(es) == Begin(es[0].slug) + ("\n" + es[0].content + "\n") + End(es[0].slug)
                           + Render(Doc(es[0].tail, es[1..]))
  {
    MarkersWellFormed(es[0].slug);
    SectionPrefix(Begin(es[0].slug), es[0].content, End(es[0].slug), es[0].tail, RenderAll(es[1..]));
  }

  lemma HeadsAgree(d1: Doc, d2: Doc)
    requires WellFormed(d1) && WellFormed(d2) && Render(d1) == Render(d2)
    ensures d1.entries == [] <==> d2.entries == []
    ensures d1.head == d2.head && RenderAll(d1.entries) == RenderAll(d2.entries)
  {
    RenderAllSeam(d1.head, d1.entries);
    RenderAllSeam(d2.head, d2.entries);
    if d1.entries != [] {
      assert d1.entries[0] in d1.entries;
      FirstSection(d1.entries);
      HeadBound(d2.head, RenderAll(d2.entries), d1.head, RenderAll(d1.entries), Begin(d1.entries[0].slug));
    }
    if d2.entries != [] {
      assert d2.entries[0] in d2.entries;
      FirstSection(d2.entries);
      HeadBound(d1.head, RenderAll(d1.entries), d2.head, RenderAll(d2.entries), Begin(d2.entries[0].slug));
    }
    Cancel(d1.head, RenderAll(d1.entries), d2.head, RenderAll(d2.entries));
  }

  lemma RestWellFormed(d: Doc)
    requires WellFormed(d) && d.entries != []
    ensures WellFormed(Doc(d.entries[0].tail, d.entries[1..])) && GoodEntry(d.entries[0])
  {
    assert d.entries[0] in d.entries;
  }

  lemma FirstSectionsAgree(d1: Doc, d2: Doc)
    requires WellFormed(d1) && WellFormed(d2) && d1.entries != [] && d2.entries != []
    requires RenderAll(d1.entries) == RenderAll(d2.entries)
    ensures d1.entries[0].slug == d2.entries[0].slug && d1.entries[0].content == d2.entries[0].content
    ensures Render(Doc(d1.entries[0].tail, d1.entries[1..])) == Render(Doc(d2.entries[0].tail, d2.entries[1..]))
  {
    var e1, e2 := d1.entries[0], d2.entries[0];
    RestWellFormed(d1);
    RestWellFormed(d2);
    FirstSection(d1.entries);
    FirstSection(d2.entries);
    SamePlace(RenderAll(d1.entries), Begin(e1.slug), Begin(e2.slug));
    MarkersInjective(e1.slug, e2.slug);
    MarkersWellFormed(e1.slug);
    SameContent(Begin(e1.slug), End(e1.slug), e1.content, Render(Doc(e1.tail, d1.entries[1..])),
      e2.content, Render(Doc(e2.tail, d2.entries[1..])));
  }

  /** A file is the rendering of at most one well-formed document. */
  lemma {:induction false} RenderInjective(d1: Doc, d2: Doc)
    requires WellFormed(d1) && WellFormed(d2) && Render(d1) == Render(d2)
    ensures d1 == d2
    decreases |d1.entries|
  {
    HeadsAgree(d1, d2);
    if d1.entries != [] {
      FirstSectionsAgree(d1, d2);
      RestWellFormed(d1);
      RestWellFormed(d2);
      RenderInjective(Doc(d1.entries[0].tail, d1.entries[1..]), Doc(d2.entries[0].tail, d2.entries[1..]));
      assert d1.entries == [d1.entries[0]] + d1.entries[1..] && d2.entries == [d2.entries[0]] + d2.entries[1..];
    }
  }
}
