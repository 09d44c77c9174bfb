/** The install receipt (packages/cli/src/lib/installed-receipt.ts:102-142): entries grouped by slug,
    one per target and scope. Slugs are plain keys; names inherited by every JavaScript object are
    not special here. */
module Receipt {
  import opened Common

  datatype Entry = Entry(slug: string, target: string, workspace: bool, installedPath: string, installedAt: string,
      skillUpdatedAt: string)

  /** Slug to entries, in the order in which they were installed. */
  type Receipt = map<string, seq<Entry>>

  datatype Op = Upsert(entry: Entry) | Remove(slug: string, target: string, workspace: bool)

  predicate Matches(e: Entry, target: string, workspace: bool) { e.target == target && e.workspace == workspace }

  function ListOf(r: Receipt, slug: string): seq<Entry> { if slug in r then r[slug] else [] }

  /** The first match, or -1. */
  function FindIndex(list: seq<Entry>, target: string, workspace: bool): (i: int)
    ensures -1 <= i < |list|
    ensures i >= 0 ==> Matches(list[i], target, workspace)
    ensures forall j | 0 <= j < (if i >= 0 then i else |list|) :: !Matches(list[j], target, workspace)
  {
    if list == [] then -1
    else if Matches(list[0], target, workspace) then 0
    else var i := FindIndex(list[1..], target, workspace); if i >= 0 then i + 1 else -1
  }

  function Without(list: seq<Entry>, target: string, workspace: bool): (r: seq<Entry>)
    ensures |r| <= |list|
    ensures forall e <- r :: e in list && !Matches(e, target, workspace)
    ensures |r| == |list| ==> r == list && forall e <- list :: !Matches(e, target, workspace)
    ensures (forall e <- list :: !Matches(e, target, workspace)) ==> r == list
  {
    if list == [] then []
    else if Matches(list[0], target, workspace) then Without(list[1..], target, workspace)
    else [list[0]] + Without(list[1..], target, workspace)
  }

  function Upserted(r: Receipt, entry: Entry): Receipt {
    var existing := ListOf(r, entry.slug);
    var idx := FindIndex(existing, entry.target, entry.workspace);
    r[entry.slug := if idx >= 0 then existing[idx := entry] else existing + [entry]]
  }

  function Removed(r: Receipt, slug: string, target: string, workspace: bool): (bool, Receipt) {
    var existing := ListOf(r, slug);
    var filtered := Without(existing, target, workspace);
    if |filtered| == |existing| then (false, r)
    else if filtered == [] then (true, r - {slug})
    else (true, r[slug := filtered])
  }

  function Applied(r: Receipt, op: Op): Receipt {
    match op
    case Upsert(entry) => Upserted(r, entry)
    case Remove(slug, target, workspace) => Removed(r, slug, target, workspace).1
  }

  // ------------------------------------------------------- a receipt is a map of installs

  /** The first entry for a target and scope. */
  function First(list: seq<Entry>, target: string, workspace: bool): Option<Entry> {
    if list == [] then None
    else if Matches(list[0], target, workspace) then Some(list[0])
    else First(list[1..], target, workspace)
  }

  /** The install recorded for a slug, target and scope. */
  function Lookup(r: Receipt, slug: string, target: string, workspace: bool): Option<Entry> {
    First(ListOf(r, slug), target, workspace)
  }

  lemma {:induction false} FirstAppend(list: seq<Entry>, e: Entry, target: string, workspace: bool)
    requires FindIndex(list, e.target, e.workspace) == -1
    ensures First(list + [e], target, workspace)
         == if Matches(e, target, workspace) then Some(e) else First(list, target, workspace)
  {
    if list == [] {
      assert list + [e] == [e];
    } else {
      assert (list + [e])[1..] == list[1..] + [e];
      FirstAppend(list[1..], e, target, workspace);
    }
  }

  lemma {:induction false} FirstReplaced(list: seq<Entry>, e: Entry, target: string, workspace: bool)
    requires FindIndex(list, e.target, e.workspace) >= 0
    ensures First(list[FindIndex(list, e.target, e.workspace) := e], target, workspace)
         == if Matches(e, target, workspace) then Some(e) else First(list, target, workspace)
  {
    var i := FindIndex(list, e.target, e.workspace);
    if i > 0 {
      FirstReplaced(list[1..], e, target, workspace);
      assert list[i := e][1..] == list[1..][i - 1 := e];
    }
  }

  lemma {:induction false} FirstWithout(list: seq<Entry>, target: string, workspace: bool, t: string, w: bool)
    ensures First(Without(list, target, workspace), t, w)
         == if t == target && w == workspace then None else First(list, t, w)
  {
    if list != [] {
      FirstWithout(list[1..], target, workspace, t, w);
      var rest := Without(list[1..], target, workspace);
      if !Matches(list[0], target, workspace) { assert ([list[0]] + rest)[1..] == rest; }
    }
  }

  lemma {:induction false} FirstFound(list: seq<Entry>, target: string, workspace: bool)
    ensures First(list, target, workspace).Some? <==> |Without(list, target, workspace)| < |list|
  {
    if list != [] { FirstFound(list[1..], target, workspace); }
  }

  /** An upsert sets exactly its own install. */
  lemma UpsertEffect(r: Receipt, entry: Entry, slug: string, target: string, workspace: bool)
    ensures Lookup(Upserted(r, entry), slug, target, workspace)
         == if slug == entry.slug && Matches(entry, target, workspace) then Some(entry)
             else Lookup(r, slug, target, workspace)
  {
    var existing := ListOf(r, entry.slug);
    var idx := FindIndex(existing, entry.target, entry.workspace);
    if slug == entry.slug {
      if idx >= 0 { FirstReplaced(existing, entry, target, workspace); }
      else { FirstAppend(existing, entry, target, workspace); }
    }
  }

  /** A removal clears exactly its own install, and reports whether there was one. */
  lemma RemoveEffect(r: Receipt, slug: string, target: string, workspace: bool, s: string, t: string, w: bool)
    ensures Removed(r, slug, target, workspace).0 <==> Lookup(r, slug, target, workspace).Some?
    ensures Lookup(Removed(r, slug, target, workspace).1, s, t, w)
         == if s == slug && t == target && w == workspace then None else Lookup(r, s, t, w)
  {
    FirstFound(ListOf(r, slug), target, workspace);
    if s == slug { FirstWithout(ListOf(r, slug), target, workspace, t, w); }
  }

  predicate SameInstall(a: Entry, b: Entry) { Matches(a, b.target, b.workspace) }

  ghost predicate Unique(list: seq<Entry>) {
    forall i, j | 0 <= i < j < |list| :: !SameInstall(list[i], list[j])
  }

  /** One entry per target and scope, filed under its own slug; no slug without entries. */
  ghost predicate Valid(r: Receipt) {
    forall slug <- r ::
      && r[slug] != []
      && (forall e <- r[slug] :: e.slug == slug)
      && Unique(r[slug])
  }

  lemma UpsertKeepsValid(r: Receipt, entry: Entry)
    requires Valid(r)
    ensures Valid(Upserted(r, entry))
  {
    var existing := ListOf(r, entry.slug);
    var idx := FindIndex(existing, entry.target, entry.workspace);
    assert forall j | 0 <= j < |existing| && j != idx :: !Matches(existing[j], entry.target, entry.workspace);
  }

  lemma UniqueCons(e: Entry, list: seq<Entry>)
    requires Unique(list) && forall x <- list :: !SameInstall(e, x)
    ensures Unique([e] + list)
  {
    var l := [e] + list;
    forall i, j | 0 <= i < j < |l| ensures !SameInstall(l[i], l[j]) {
      assert l[j] == list[j - 1] && list[j - 1] in list;
    }
  }

  lemma UniqueTail(list: seq<Entry>)
    requires Unique(list) && list != []
    ensures Unique(list[1..]) && forall x <- list[1..] :: !SameInstall(list[0], x)
  {
  }

  lemma {:induction false} WithoutKeepsUnique(list: seq<Entry>, target: string, workspace: bool)
    requires Unique(list)
    ensures Unique(Without(list, target, workspace))
  {
    if list != [] {
      UniqueTail(list);
      WithoutKeepsUnique(list[1..], target, workspace);
      if !Matches(list[0], target, workspace) { UniqueCons(list[0], Without(list[1..], target, workspace)); }
    }
  }

  lemma RemoveKeepsValid(r: Receipt, slug: string, target: string, workspace: bool)
    requires Valid(r)
    ensures Valid(Removed(r, slug, target, workspace).1)
  {
    if slug in r { WithoutKeepsUnique(r[slug], target, workspace); }
  }

  lemma AppliedKeepsValid(r: Receipt, op: Op)
    requires Valid(r)
    ensures Valid(Applied(r, op))
  {
    match op
    case Upsert(entry) => UpsertKeepsValid(r, entry);
    case Remove(slug, target, workspace) => RemoveKeepsValid(r, slug, target, workspace);
  }

  // ----------------------------------------------------------------------- the critical sections

  method UpsertEntry(receipt: Receipt, entry: Entry) returns (r: Receipt)
    ensures r == Upserted(receipt, entry)
  {
    var existing := if entry.slug in receipt then receipt[entry.slug] else [];
    var idx := FindIndex(existing, entry.target, entry.workspace);
    if idx >= 0 {
      existing := existing[idx := entry];
    } else {
      existing := existing + [entry];
    }
    r := receipt[entry.slug := existing];
  }

  method RemoveEntry(receipt: Receipt, slug: string, target: string, workspace: bool) returns (found: bool, r: Receipt)
    ensures (found, r) == Removed(receipt, slug, target, workspace)
  {
    var existing := if slug in receipt then receipt[slug] else [];
    var filtered := Without(existing, target, workspace);
    if |filtered| == |existing| { return false, receipt; }
    r := receipt;
    if |filtered| == 0 {
      r := r - {slug};
    } else {
      r := r[slug := filtered];
    }
    found := true;
  }
}
