/** Version snapshots of one skill under interleaved refinements, approvals and history reads, one
    step per stretch between awaits (packages/backend/src/generation/generation.service.ts:180-235,
    packages/backend/src/skills/skills.service.ts:325-348, 382-421). No process crashes after its
    increment, and the skill is not deleted meanwhile. */
module VersionHistory {
  import opened Common

  /** The skill row; `content` stands for everything a snapshot copies. */
  datatype Row = Row(version: nat, content: string)

  datatype Proc =
    | Refining(row: Option<Row>, history: Option<set<nat>>)       // two parallel reads
    | Checking(approving: bool, version: nat)                     // metadata read
    | Checked(approving: bool, version: nat, seen: set<nat>)      // history read
    | Fetched(approving: bool, full: Row)                         // snapshot missing: full row read
    | Ready(seenVersion: nat)                                     // before the increment
    | MustSave(saving: Row)                                       // between increment and save

  /** `created` records the content each version was created with, `edited` the versions whose row
      was edited in place. A process that is not listed is idle. */
  datatype Store = Store(
    row: Row, snapshots: map<nat, string>, procs: map<nat, Proc>, created: map<nat, string>, edited: set<nat>)

  /** A skill at version 1, created together with its snapshot or, before that was done, without. */
  function NewSkill(content: string, saved: bool): Store {
    Store(Row(1, content), if saved then map[1 := content] else map[], map[], map[1 := content], {})
  }

  datatype Op =
    | StartRefine(p: nat)
    | RefineReadsRow(p: nat)
    | RefineReadsHistory(p: nat)
    | RefineKeeps(p: nat)
    | StartCheck(p: nat, approving: bool)
    | CheckReadsHistory(p: nat)
    | CheckReadsRow(p: nat)
    | CheckKeeps(p: nat)
    | Increment(p: nat, content: string)
    | SaveNew(p: nat)
    | Fail(p: nat)
    | Edit(content: string)

  predicate At(s: Store, p: nat) { p in s.procs }

  predicate Legal(s: Store, op: Op) {
    match op
    case StartRefine(p) => !At(s, p)
    case RefineReadsRow(p) => At(s, p) && s.procs[p].Refining? && s.procs[p].row.None?
    case RefineReadsHistory(p) => At(s, p) && s.procs[p].Refining? && s.procs[p].history.None?
    case RefineKeeps(p) => At(s, p) && s.procs[p].Refining? && s.procs[p].row.Some? && s.procs[p].history.Some?
    case StartCheck(p, _) => !At(s, p)
    case CheckReadsHistory(p) => At(s, p) && s.procs[p].Checking?
    case CheckReadsRow(p) => At(s, p) && s.procs[p].Checked? && s.procs[p].version !in s.procs[p].seen
    case CheckKeeps(p) =>
      At(s, p) && (s.procs[p].Fetched? || (s.procs[p].Checked? && s.procs[p].version in s.procs[p].seen))
    case Increment(p, _) => At(s, p) && s.procs[p].Ready?
    case SaveNew(p) => At(s, p) && s.procs[p].MustSave?
    case Fail(p) => At(s, p) && !s.procs[p].MustSave?
    case Edit(_) => true
  }

  function Moved(s: Store, p: nat, proc: Proc): Store { s.(procs := s.procs[p := proc]) }

  function Ended(s: Store, p: nat): Store { s.(procs := s.procs - {p}) }

  /** INSERT ... ON CONFLICT (skill, version) DO UPDATE. */
  function Saved(s: Store, row: Row): Store { s.(snapshots := s.snapshots[row.version := row.content]) }

  /** An approval goes on to its increment; a history read is over. */
  function AfterCheck(s: Store, p: nat, approving: bool, version: nat): Store {
    if approving then Moved(s, p, Ready(version)) else Ended(s, p)
  }

  function Step(s: Store, op: Op): Store
    requires Legal(s, op)
  {
    match op
    case StartRefine(p) => Moved(s, p, Refining(None, None))
    case RefineReadsRow(p) => Moved(s, p, s.procs[p].(row := Some(s.row)))
    case RefineReadsHistory(p) => Moved(s, p, s.procs[p].(history := Some(s.snapshots.Keys)))
    case RefineKeeps(p) =>
      var row := s.procs[p].row.value;
      Moved(if row.version in s.procs[p].history.value then s else Saved(s, row), p, Ready(row.version))
    case StartCheck(p, approving) => Moved(s, p, Checking(approving, s.row.version))
    case CheckReadsHistory(p) => Moved(s, p, Checked(s.procs[p].approving, s.procs[p].version, s.snapshots.Keys))
    case CheckReadsRow(p) => Moved(s, p, Fetched(s.procs[p].approving, s.row))
    case CheckKeeps(p) =>
      if s.procs[p].Fetched? then AfterCheck(Saved(s, s.procs[p].full), p, s.procs[p].approving,
          s.procs[p].full.version)
      else AfterCheck(s, p, s.procs[p].approving, s.procs[p].version)
    case Increment(p, content) =>
      var row := Row(s.row.version + 1, content);
      Moved(s.(row := row, created := s.created[row.version := content]), p, MustSave(row))
    case SaveNew(p) => Ended(Saved(s, s.procs[p].saving), p)
    case Fail(p) => Ended(s, p)
    case Edit(content) => s.(row := s.row.(content := content), edited := s.edited + {s.row.version})
  }

  ghost predicate LegalRun(s: Store, ops: seq<Op>)
    decreases |ops|
  {
    ops == [] || (Legal(s, ops[0]) && LegalRun(Step(s, ops[0]), ops[1..]))
  }

  ghost function Run(s: Store, ops: seq<Op>): Store
    requires LegalRun(s, ops)
    decreases |ops|
  {
    if ops == [] then s else Run(Step(s, ops[0]), ops[1..])
  }

  // ----------------------------------------------------------------------- invariant

  /** The process that created version `w` has not saved its snapshot yet. */
  ghost predicate Pending(s: Store, w: nat) {
    exists p :: p in s.procs && s.procs[p].MustSave? && s.procs[p].saving.version == w
  }

  predicate Current(s: Store, v: nat) { 1 <= v <= s.row.version }

  /** A full row holds what its version was created with, unless that version was edited in place. */
  predicate Genuine(s: Store, row: Row) {
    Current(s, row.version) && row.version in s.created
        && (row.version in s.edited || row.content == s.created[row.version])
  }

  predicate ProcInv(s: Store, proc: Proc) {
    match proc
    case Refining(row, history) =>
      (row.Some? ==> Genuine(s, row.value)) && (history.Some? ==> history.value <= s.snapshots.Keys)
    case Checking(_, version) => Current(s, version)
    case Checked(_, version, seen) => Current(s, version) && seen <= s.snapshots.Keys
    case Fetched(_, full) => Genuine(s, full)
    case Ready(version) => Current(s, version) && version in s.snapshots
    case MustSave(row) => Genuine(s, row)
  }

  ghost predicate Covered(s: Store, w: nat) { w in s.snapshots || Pending(s, w) }

  ghost predicate Inv(s: Store) {
    && Genuine(s, s.row)
    && (forall w :: w in s.created <==> Current(s, w))
    && s.edited <= s.created.Keys
    && (forall w <- s.snapshots :: Genuine(s, Row(w, s.snapshots[w])))
    && (forall p <- s.procs :: ProcInv(s, s.procs[p]))
    && (forall w | Current(s, w) && (w > 1 || s.row.version > 1) :: Covered(s, w))
  }

  /** Nothing but snapshots grows, and process `p` did not owe a snapshot. */
  ghost predicate Grows(s: Store, t: Store, p: nat) {
    && t.row == s.row && t.created == s.created && t.edited == s.edited
    && s.snapshots.Keys <= t.snapshots.Keys
    && (forall q | q != p :: q in s.procs <==> q in t.procs)
    && (forall q | q != p && q in s.procs :: t.procs[q] == s.procs[q])
  }

  lemma GrowsCovered(s: Store, t: Store, p: nat, w: nat)
    requires Grows(s, t, p) && Covered(s, w)
    requires p in s.procs && s.procs[p].MustSave? && s.procs[p].saving.version == w ==> w in t.snapshots
    ensures Covered(t, w)
  {
    if w !in s.snapshots {
      var q :| q in s.procs && s.procs[q].MustSave? && s.procs[q].saving.version == w;
      assert q != p ==> q in t.procs && t.procs[q] == s.procs[q];
    }
  }

  lemma GrowsKeeps(s: Store, t: Store, p: nat)
    requires Inv(s) && Grows(s, t, p)
    requires forall w <- t.snapshots :: Genuine(t, Row(w, t.snapshots[w]))
    requires p in t.procs ==> ProcInv(t, t.procs[p])
    requires p in s.procs && s.procs[p].MustSave? ==> s.procs[p].saving.version in t.snapshots
    ensures Inv(t)
  {
    forall w | Current(t, w) && (w > 1 || t.row.version > 1) ensures Covered(t, w) {
      assert Current(s, w);
      GrowsCovered(s, t, p, w);
    }
    forall q <- t.procs ensures ProcInv(t, t.procs[q]) {
      if q != p { assert q in s.procs && ProcInv(s, s.procs[q]); }
    }
  }

  lemma IncrementKeeps(s: Store, p: nat, content: string)
    requires Inv(s) && Legal(s, Increment(p, content))
    ensures Inv(Step(s, Increment(p, content)))
  {
    var t := Step(s, Increment(p, content));
    assert ProcInv(s, s.procs[p]) && Current(s, s.procs[p].seenVersion);
    assert t.row.version !in s.created;
    forall w | Current(t, w) ensures Covered(t, w) {
      if w == t.row.version {
        assert p in t.procs && t.procs[p].MustSave? && t.procs[p].saving.version == w;
      } else if w in s.snapshots {
      } else {
        assert Covered(s, w);
        var q :| q in s.procs && s.procs[q].MustSave? && s.procs[q].saving.version == w;
        assert q in t.procs && t.procs[q] == s.procs[q];
      }
    }
    forall q <- t.procs ensures ProcInv(t, t.procs[q]) {
      if q != p { assert q in s.procs && ProcInv(s, s.procs[q]); }
    }
  }

  lemma EditKeeps(s: Store, content: string)
    requires Inv(s)
    ensures Inv(Step(s, Edit(content)))
  {
    var t := Step(s, Edit(content));
    forall w | Current(t, w) && (w > 1 || t.row.version > 1) ensures Covered(t, w) {
      assert Current(s, w) && Covered(s, w);
      if w !in s.snapshots {
        var q :| q in s.procs && s.procs[q].MustSave? && s.procs[q].saving.version == w;
        assert q in t.procs;
      }
    }
    forall q <- t.procs ensures ProcInv(t, t.procs[q]) {
      assert ProcInv(s, s.procs[q]);
    }
  }

  lemma CheckKeepsInv(s: Store, p: nat)
    requires Inv(s) && Legal(s, CheckKeeps(p))
    ensures Inv(Step(s, CheckKeeps(p)))
  {
    GrowsKeeps(s, Step(s, CheckKeeps(p)), p);
  }

  lemma RefineKeepsInv(s: Store, p: nat)
    requires Inv(s) && Legal(s, RefineKeeps(p))
    ensures Inv(Step(s, RefineKeeps(p)))
  {
    GrowsKeeps(s, Step(s, RefineKeeps(p)), p);
  }

  lemma ReadingKeeps(s: Store, op: Op)
    requires Inv(s) && Legal(s, op)
    requires op.StartRefine? || op.RefineReadsRow? || op.RefineReadsHistory? || op.StartCheck?
        || op.CheckReadsHistory? || op.CheckReadsRow?
    ensures Inv(Step(s, op))
  {
    GrowsKeeps(s, Step(s, op), op.p);
  }

  lemma StepKeeps(s: Store, op: Op)
    requires Inv(s) && Legal(s, op)
    ensures Inv(Step(s, op))
  {
    match op
    case Increment(p, content) => IncrementKeeps(s, p, content);
    case Edit(content) => EditKeeps(s, content);
    case CheckKeeps(p) => CheckKeepsInv(s, p);
    case RefineKeeps(p) => RefineKeepsInv(s, p);
    case SaveNew(p) => GrowsKeeps(s, Step(s, op), p);
    case Fail(p) => GrowsKeeps(s, Step(s, op), p);
    case _ => ReadingKeeps(s, op);
  }

  lemma {:induction false} RunKeeps(s: Store, ops: seq<Op>)
    requires Inv(s) && LegalRun(s, ops)
    ensures Inv(Run(s, ops))
    decreases |ops|
  {
    if ops != [] {
      StepKeeps(s, ops[0]);
      RunKeeps(Step(s, ops[0]), ops[1..]);
    }
  }

  /** Over every interleaving: each version below the current one has its snapshot, unless the
      operation that created it is still between its increment and its save. */
  lemma NoVersionIsLost(content: string, saved: bool, ops: seq<Op>, w: nat)
    requires LegalRun(NewSkill(content, saved), ops) && 1 <= w < Run(NewSkill(content, saved), ops).row.version
    ensures w in Run(NewSkill(content, saved), ops).snapshots || Pending(Run(NewSkill(content, saved), ops), w)
  {
    RunKeeps(NewSkill(content, saved), ops);
    assert Current(Run(NewSkill(content, saved), ops), w);
  }

  /** A snapshot of a version never edited in place holds what that version was created with. */
  lemma SnapshotsAreGenuine(content: string, saved: bool, ops: seq<Op>, w: nat)
    requires LegalRun(NewSkill(content, saved), ops)
    requires w in Run(NewSkill(content, saved), ops).snapshots && w !in Run(NewSkill(content, saved), ops).edited
    ensures var s := Run(NewSkill(content, saved), ops); w in s.created && s.snapshots[w] == s.created[w]
  {
    RunKeeps(NewSkill(content, saved), ops);
  }

  function Versions(n: nat): (r: set<nat>)
    ensures forall w :: w in r <==> 1 <= w <= n
  {
    if n == 0 then {} else Versions(n - 1) + {n}
  }

  /** A snapshot once stored stays, possibly overwritten. */
  lemma {:induction false} SnapshotsStay(s: Store, ops: seq<Op>)
    requires LegalRun(s, ops)
    ensures s.snapshots.Keys <= Run(s, ops).snapshots.Keys
    decreases |ops|
  {
    if ops != [] { SnapshotsStay(Step(s, ops[0]), ops[1..]); }
  }

  /** Once all operations have finished, the history is exactly 1..current, except for a skill that
      started without a snapshot and still has version 1. */
  lemma CompleteWhenQuiet(content: string, saved: bool, ops: seq<Op>)
    requires LegalRun(NewSkill(content, saved), ops) && Run(NewSkill(content, saved), ops).procs == map[]
    ensures var s := Run(NewSkill(content, saved), ops);
            saved || s.row.version >= 2 ==> s.snapshots.Keys == Versions(s.row.version)
  {
    RunKeeps(NewSkill(content, saved), ops);
    SnapshotsStay(NewSkill(content, saved), ops);
    var s := Run(NewSkill(content, saved), ops);
    assert saved ==> 1 in s.snapshots;
    forall w | saved || s.row.version >= 2 ensures w in s.snapshots <==> 1 <= w <= s.row.version {
      if 1 <= w <= s.row.version && (w > 1 || s.row.version > 1) { assert Current(s, w) && Covered(s, w); }
      if w in s.snapshots { assert Genuine(s, Row(w, s.snapshots[w])); }
    }
  }

  function ReadOps(s: Store, p: nat): seq<Op> {
    [StartCheck(p, false), CheckReadsHistory(p)] + (if s.row.version in s.snapshots then [] else [CheckReadsRow(p)])
        + [CheckKeeps(p)]
  }

  lemma ReadOfComplete(s: Store, p: nat)
    requires p !in s.procs && s.row.version in s.snapshots
    ensures LegalRun(s, ReadOps(s, p)) && Run(s, ReadOps(s, p)).snapshots == s.snapshots
        && Run(s, ReadOps(s, p)).procs == s.procs - {p}
  {
    Three(s, StartCheck(p, false), CheckReadsHistory(p), CheckKeeps(p));
    assert ReadOps(s, p) == [StartCheck(p, false), CheckReadsHistory(p), CheckKeeps(p)];
  }

  lemma ReadOfIncomplete(s: Store, p: nat)
    requires p !in s.procs && s.row.version !in s.snapshots
    ensures LegalRun(s, ReadOps(s, p)) && Run(s, ReadOps(s, p)).procs == s.procs - {p}
    ensures Run(s, ReadOps(s, p)).snapshots == s.snapshots[s.row.version := s.row.content]
  {
    var a := Step(s, StartCheck(p, false));
    Three(a, CheckReadsHistory(p), CheckReadsRow(p), CheckKeeps(p));
    Cons(s, StartCheck(p, false), [CheckReadsHistory(p), CheckReadsRow(p), CheckKeeps(p)]);
    assert ReadOps(s, p) == [StartCheck(p, false)] + [CheckReadsHistory(p), CheckReadsRow(p), CheckKeeps(p)];
  }

  /** A history read with nothing else going on completes the list, even for a skill at version 1. */
  lemma HistoryReadCompletes(content: string, saved: bool, ops: seq<Op>, p: nat)
    requires LegalRun(NewSkill(content, saved), ops) && Run(NewSkill(content, saved), ops).procs == map[]
    ensures var s := Run(NewSkill(content, saved), ops); var read := ReadOps(s, p);
            LegalRun(s, read) && Run(s, read).snapshots.Keys == Versions(s.row.version) && Run(s, read).procs == map[]
  {
    var s := Run(NewSkill(content, saved), ops);
    RunKeeps(NewSkill(content, saved), ops);
    AlmostComplete(s);
    if s.row.version in s.snapshots { ReadOfComplete(s, p); } else { ReadOfIncomplete(s, p); }
  }

  /** With nothing going on, at most the current version lacks its snapshot. */
  lemma AlmostComplete(s: Store)
    requires Inv(s) && s.procs == map[]
    ensures forall w :: w in s.snapshots || w == s.row.version <==> 1 <= w <= s.row.version
  {
    forall w ensures w in s.snapshots || w == s.row.version <==> 1 <= w <= s.row.version {
      if 1 <= w < s.row.version { assert Current(s, w) && Covered(s, w); }
      if w in s.snapshots { assert Genuine(s, Row(w, s.snapshots[w])); }
    }
  }

  lemma Cons(s: Store, op: Op, ops: seq<Op>)
    requires Legal(s, op) && LegalRun(Step(s, op), ops)
    ensures LegalRun(s, [op] + ops) && Run(s, [op] + ops) == Run(Step(s, op), ops)
  {
    assert ([op] + ops)[1..] == ops;
  }

  lemma Three(s: Store, a: Op, b: Op, c: Op)
    requires Legal(s, a) && Legal(Step(s, a), b) && Legal(Step(Step(s, a), b), c)
    ensures LegalRun(s, [a, b, c]) && Run(s, [a, b, c]) == Step(Step(Step(s, a), b), c)
  {
    var t := Step(Step(s, a), b);
    Cons(t, c, []);
    assert [c] + [] == [c];
    Cons(Step(s, a), b, [c]);
    assert [b] + [c] == [b, c];
    Cons(s, a, [b, c]);
    assert [a] + [b, c] == [a, b, c];
  }

  // ------------------------------------------------------------------------ the services

  /** The skill row, its snapshots and the running operations; one method per stretch between awaits. */
  class SkillStore {
    var row: Row
    var snapshots: map<nat, string>
    var procs: map<nat, Proc>
    ghost var created: map<nat, string>
    ghost var edited: set<nat>

    ghost function State(): Store
      reads this
    {
      Store(row, snapshots, procs, created, edited)
    }

    constructor (content: string, saved: bool)
      ensures State() == NewSkill(content, saved)
    {
      row, snapshots, procs := Row(1, content), if saved then map[1 := content] else map[], map[];
      created, edited := map[1 := content], {};
    }

    method SaveVersionSnapshot(r: Row)
      modifies this`snapshots
      ensures State() == Saved(old(State()), r)
    {
      snapshots := snapshots[r.version := r.content];
    }

    // refineSkill

    method BeginRefine(p: nat)
      requires Legal(State(), StartRefine(p))
      modifies this
      ensures State() == Step(old(State()), StartRefine(p))
    {
      procs := procs[p := Refining(None, None)];
    }

    method RefineRowArrives(p: nat)
      requires Legal(State(), RefineReadsRow(p))
      modifies this
      ensures State() == Step(old(State()), RefineReadsRow(p))
    {
      procs := procs[p := Refining(Some(row), procs[p].history)];
    }

    method RefineHistoryArrives(p: nat)
      requires Legal(State(), RefineReadsHistory(p))
      modifies this
      ensures State() == Step(old(State()), RefineReadsHistory(p))
    {
      procs := procs[p := Refining(procs[p].row, Some(snapshots.Keys))];
    }

    method RefineSavesExisting(p: nat)
      requires Legal(State(), RefineKeeps(p))
      modifies this
      ensures State() == Step(old(State()), RefineKeeps(p))
    {
      var existing, existingSnapshots := procs[p].row.value, procs[p].history.value;
      var hasCurrentVersionSnapshot := existing.version in existingSnapshots;
      if !hasCurrentVersionSnapshot { SaveVersionSnapshot(existing); }
      procs := procs[p := Ready(existing.version)];
    }

    // approveOptimization and getVersionHistory

    method BeginCheck(p: nat, approving: bool)
      requires Legal(State(), StartCheck(p, approving))
      modifies this
      ensures State() == Step(old(State()), StartCheck(p, approving))
    {
      procs := procs[p := Checking(approving, row.version)];
    }

    method CheckHistoryArrives(p: nat)
      requires Legal(State(), CheckReadsHistory(p))
      modifies this
      ensures State() == Step(old(State()), CheckReadsHistory(p))
    {
      procs := procs[p := Checked(procs[p].approving, procs[p].version, snapshots.Keys)];
    }

    method CheckRowArrives(p: nat)
      requires Legal(State(), CheckReadsRow(p))
      modifies this
      ensures State() == Step(old(State()), CheckReadsRow(p))
    {
      procs := procs[p := Fetched(procs[p].approving, row)];
    }

    method CheckSaves(p: nat)
      requires Legal(State(), CheckKeeps(p))
      modifies this
      ensures State() == Step(old(State()), CheckKeeps(p))
    {
      var proc := procs[p];
      var version;
      if proc.Fetched? {
        version := proc.full.version;
        SaveVersionSnapshot(proc.full);
      } else {
        version := proc.version;
      }
      if proc.approving { procs := procs[p := Ready(version)]; } else { procs := procs - {p}; }
    }

    // both writers

    /** One transaction: it updates nothing when the version moved since it was read. */
    method UpdateAndIncrementVersion(p: nat, expectedVersion: nat, content: string) returns (conflict: bool)
      requires At(State(), p) && procs[p].Ready?
      modifies this
      ensures conflict == (old(row.version) != expectedVersion)
      ensures State() == Step(old(State()), if conflict then Fail(p) else Increment(p, content))
    {
      conflict := row.version != expectedVersion;
      if conflict {
        procs := procs - {p};
        return;
      }
      row := Row(row.version + 1, content);
      created := created[row.version := content];
      procs := procs[p := MustSave(row)];
    }

    method SaveUpdated(p: nat)
      requires Legal(State(), SaveNew(p))
      modifies this
      ensures State() == Step(old(State()), SaveNew(p))
    {
      SaveVersionSnapshot(procs[p].saving);
      procs := procs - {p};
    }

    /** A read or the model call fails before anything is written. */
    method OperationFails(p: nat)
      requires Legal(State(), Fail(p))
      modifies this
      ensures State() == Step(old(State()), Fail(p))
    {
      procs := procs - {p};
    }

    method Update(content: string)
      modifies this
      ensures State() == Step(old(State()), Edit(content))
    {
      edited := edited + {row.version};
      row := row.(content := content);
    }
  }
}
