/** Two links that look natural but do not hold on every reachable state, and exactly which
    operations break them. */
module MarketplaceLimits {
  import opened Common
  import opened Marketplace
  import opened MarketplaceInvariant

  // -------------------------------------------------------- what a caller has to satisfy

  /** A pending submission of a skill in the caller's organisation, not the caller's own unless allowed. */
  predicate MayReview(t: Tables, sid: Id, admin: User, allowSelf: bool) {
    && sid in t.submissions && t.submissions[sid].status == PendingReview
    && t.submissions[sid].skillId in t.skills && t.skills[t.submissions[sid].skillId].orgId == admin.orgId
    && (t.submissions[sid].submittedBy != admin.id || allowSelf)
  }

  /** The same for a pending removal request. */
  predicate MayDecide(t: Tables, rid: Id, admin: User, allowSelf: bool) {
    && rid in t.requests && t.requests[rid].status == Pending
    && t.requests[rid].skillId in t.skills && t.skills[t.requests[rid].skillId].orgId == admin.orgId
    && (t.requests[rid].submittedBy != admin.id || allowSelf)
  }

  predicate ListedIn(t: Tables, k: Id, orgId: Id) { k in t.listings && t.listings[k].orgId == orgId }

  predicate OwnedBy(t: Tables, k: Id, user: User) { k in t.skills && t.skills[k].ownerId == user.id }

  predicate InOrg(t: Tables, k: Id, orgId: Id) { k in t.skills && t.skills[k].orgId == orgId }

  predicate VersionApproved(t: Tables, k: Id, version: Version) {
    exists i :: i in t.submissions && IsApproved(t, i, k) && t.submissions[i].version == version
  }

  /** The guards of every operation, read off the tables before the call. */
  predicate Passes(t: Tables, op: Op) {
    match op
    case DoCreateSkill(_, _, _) => true
    case DoSaveSnapshot(k, _) => k in t.skills
    case DoEditStatus(k, _) => k in t.skills
    case DoSubmit(k, version, hasNote, user, _) =>
      && OwnedBy(t, k, user) && !HasPending(t, k) && !VersionApproved(t, k, version)
      && (hasNote || k !in t.listings || t.listings[k].status != Active || t.listings[k].version <= version)
    case DoApprove(sid, admin, allowSelf) =>
      MayReview(t, sid, admin, allowSelf) && (t.submissions[sid].skillId, t.submissions[sid].version) in t.snapshots
    case DoReject(sid, admin, allowSelf) => MayReview(t, sid, admin, allowSelf)
    case DoRemoveVersion(sid, admin, _) =>
      && sid in t.submissions && t.submissions[sid].status == Approved
      && InOrg(t, t.submissions[sid].skillId, admin.orgId) && ListedIn(t, t.submissions[sid].skillId, admin.orgId)
    case DoRequestRemoval(k, user, asked, _) =>
      && OwnedBy(t, k, user) && ListedIn(t, k, user.orgId) && t.listings[k].status != Delisted && !HasRequest(t, k)
      && (asked.AskVersion? ==> asked.target.Some? && IsApproved(t, asked.target.value, k))
    case DoApproveRemoval(rid, admin, allowSelf, _) =>
      && MayDecide(t, rid, admin, allowSelf) && ListedIn(t, t.requests[rid].skillId, admin.orgId)
      && (t.requests[rid].scope.OneVersion? ==> IsApproved(t, t.requests[rid].scope.target, t.requests[rid].skillId))
    case DoRejectRemoval(rid, admin, allowSelf) => MayDecide(t, rid, admin, allowSelf)
    case DoRemoveFromMarketplace(k, admin) => InOrg(t, k, admin.orgId)
    case DoDeleteSkill(k) => !HasApproved(t, k) && !HasRequest(t, k) && !HasPending(t, k) && !Referenced(t, k)
  }

  /** An operation is carried out if and only if its guards hold, and changes nothing otherwise. */
  lemma DoneExactly(t: Tables, op: Op)
    requires Legal(t, op)
    ensures Step(t, op).1 == Done <==> Passes(t, op)
    ensures !Passes(t, op) ==> Step(t, op).0 == t
  {
  }

  // ------------------------------------- "a pending submission keeps its skill in review"

  ghost predicate PendingInReview(t: Tables, k: Id) {
    HasPending(t, k) && k in t.skills ==> t.skills[k].status == InReview
  }

  /** The skill whose status the operation sets without looking for a pending submission. */
  function StatusOverwritten(t: Tables, op: Op): Option<Id> {
    if !Passes(t, op) then None
    else
      match op
      case DoEditStatus(k, status) => if status == InReview then None else Some(k)
      case DoRemoveVersion(sid, _, _) =>
        if Remaining(t, t.submissions[sid].skillId, sid) == {} then Some(t.submissions[sid].skillId) else None
      case DoApproveRemoval(rid, _, _, _) =>
        var r := t.requests[rid];
        if r.scope.WholeSkill? || Remaining(t, r.skillId, r.scope.target) == {} then Some(r.skillId) else None
      case DoRejectRemoval(rid, _, _) =>
        var k := t.requests[rid].skillId;
        if k in t.listings && t.listings[k].status == RemovalRequested then Some(k) else None
      case DoRemoveFromMarketplace(k, _) => Some(k)
      case _ => None
  }

  lemma StatusAfter(t: Tables, op: Op, k: Id)
    requires Inv(t) && Legal(t, op) && StatusOverwritten(t, op) == Some(k)
    ensures k in t.skills && k in Step(t, op).0.skills && Step(t, op).0.skills[k].status != InReview
    ensures HasPending(Step(t, op).0, k) <==> HasPending(t, k)
  {
    var t' := Step(t, op).0;
    DoneExactly(t, op);
    assert SkillInv(t, k);
    assert forall i :: IsPending(t', i, k) <==> IsPending(t, i, k) by {
      match op
      case DoRemoveVersion(sid, _, next) => RemoveOneEffect(t, sid, k, next);
      case DoApproveRemoval(rid, _, _, next) =>
        if t.requests[rid].scope.OneVersion? { RemoveOneEffect(t, t.requests[rid].scope.target, k, next); }
        else { TakeDownEffect(t, k); }
      case DoRemoveFromMarketplace(_, _) => TakeDownEffect(t, k);
      case _ =>
    }
  }

  lemma ReviewedAfterReview(t: Tables, op: Op, k: Id)
    requires Inv(t) && Legal(t, op) && PendingInReview(t, k) && StatusOverwritten(t, op) != Some(k)
    requires op.DoApprove? || op.DoReject?
    ensures PendingInReview(Step(t, op).0, k)
  {
    var t' := Step(t, op).0;
    DoneExactly(t, op);
    assert SkillInv(t, k);
    if t' != t && HasPending(t', k) && k in t'.skills {
      var i :| i in t'.submissions && IsPending(t', i, k);
      ReviewEffect(t, op.sid, if op.DoApprove? then Approved else Rejected);
      OnlyPendingGone(t, t', op.sid, i, k);
    }
  }

  /** Apart from reviews and submissions, what is pending afterwards was pending before. */
  lemma PendingStays(t: Tables, op: Op, k: Id, i: Id)
    requires Legal(t, op) && !op.DoApprove? && !op.DoReject? && !op.DoSubmit?
    requires i in Step(t, op).0.submissions && IsPending(Step(t, op).0, i, k)
    ensures HasPending(t, k)
  {
    assert i in t.submissions && IsPending(t, i, k);
  }

  lemma StatusKept(t: Tables, op: Op, k: Id)
    requires Inv(t) && Legal(t, op) && StatusOverwritten(t, op) != Some(k) && k in Step(t, op).0.skills
    requires !op.DoApprove? && !op.DoReject? && !op.DoSubmit? && HasPending(t, k)
    ensures k in t.skills
    ensures Step(t, op).0.skills[k].status == t.skills[k].status || Step(t, op).0.skills[k].status == InReview
  {
    DoneExactly(t, op);
    assert SkillInv(t, k);
  }

  lemma ReviewedAfterSubmit(t: Tables, op: Op, k: Id)
    requires Inv(t) && Legal(t, op) && PendingInReview(t, k) && op.DoSubmit?
    ensures PendingInReview(Step(t, op).0, k)
  {
    var t' := Step(t, op).0;
    if HasPending(t', k) && k in t'.skills {
      var i :| i in t'.submissions && IsPending(t', i, k);
      if i in t.submissions { assert IsPending(t, i, k) ==> HasPending(t, k); }
    }
  }

  /** What an operation that does not overwrite a status may do to one skill. */
  lemma ReviewedAfter(t: Tables, op: Op, k: Id)
    requires Inv(t) && Legal(t, op) && PendingInReview(t, k) && StatusOverwritten(t, op) != Some(k)
    ensures PendingInReview(Step(t, op).0, k)
  {
    if op.DoApprove? || op.DoReject? {
      ReviewedAfterReview(t, op, k);
    } else if op.DoSubmit? {
      ReviewedAfterSubmit(t, op, k);
    } else {
      var t' := Step(t, op).0;
      if HasPending(t', k) && k in t'.skills {
        var i :| i in t'.submissions && IsPending(t', i, k);
        PendingStays(t, op, k, i);
        StatusKept(t, op, k);
      }
    }
  }

  lemma OnlyPendingGone(t: Tables, t': Tables, sid: Id, i: Id, k: Id)
    requires SkillInv(t, k) && IsPending(t', i, k) && i in t.submissions && t'.submissions[i] == t.submissions[i]
    requires sid in t.submissions && t.submissions[sid].status == PendingReview && i != sid
    ensures t.submissions[sid].skillId != k
  {
    assert IsPending(t, i, k);
    assert t.submissions[sid].skillId == k ==> IsPending(t, sid, k);
  }

  /** The link survives an operation exactly when the operation does not overwrite the status of
      a skill that has a pending submission. */
  lemma PendingInReviewExactly(t: Tables, op: Op)
    requires Inv(t) && Legal(t, op) && forall k :: PendingInReview(t, k)
    ensures (forall k :: PendingInReview(Step(t, op).0, k))
       <==> !(StatusOverwritten(t, op).Some? && HasPending(t, StatusOverwritten(t, op).value))
  {
    var o := StatusOverwritten(t, op);
    if o.Some? {
      StatusAfter(t, op, o.value);
      if HasPending(t, o.value) { assert !PendingInReview(Step(t, op).0, o.value); }
    }
    forall k: Id | o != Some(k) ensures PendingInReview(Step(t, op).0, k) { ReviewedAfter(t, op, k); }
  }

  // --------------------- "a pending removal request keeps its listing removal-requested"

  ghost predicate RequestMarked(t: Tables, k: Id) {
    HasRequest(t, k) ==> k in t.listings && t.listings[k].status == RemovalRequested
  }

  /** The skill whose listing the operation rewrites without looking for a pending request. */
  function ListingOverwritten(t: Tables, op: Op): Option<Id> {
    if !Passes(t, op) then None
    else
      match op
      case DoApprove(sid, _, _) => Some(t.submissions[sid].skillId)
      case DoRemoveVersion(sid, _, _) => Some(t.submissions[sid].skillId)
      case DoRemoveFromMarketplace(k, _) => Some(k)
      case _ => None
  }

  lemma ListingAfter(t: Tables, op: Op, k: Id)
    requires Inv(t) && Legal(t, op) && ListingOverwritten(t, op) == Some(k)
    ensures var t' := Step(t, op).0;
      (k in t'.listings ==> t'.listings[k].status != RemovalRequested) && (HasRequest(t', k) <==> HasRequest(t, k))
  {
    var t' := Step(t, op).0;
    DoneExactly(t, op);
    assert SkillInv(t, k);
    assert forall r :: IsRequested(t', r, k) <==> IsRequested(t, r, k);
    if op.DoRemoveVersion? { RemoveOneKeeps(t, op.sid, k, op.next); }
  }

  lemma MarkedAfter(t: Tables, op: Op, k: Id)
    requires Inv(t) && Legal(t, op) && RequestMarked(t, k) && ListingOverwritten(t, op) != Some(k)
    ensures RequestMarked(Step(t, op).0, k)
  {
    assert SkillInv(t, k);
    match op
    case DoApproveRemoval(rid, _, _, _) => ClosedAfter(t, op, rid, k);
    case DoRejectRemoval(rid, _, _) => ClosedAfter(t, op, rid, k);
    case _ => UntouchedAfter(t, op, k);
  }

  lemma ClosedAfter(t: Tables, op: Op, rid: Id, k: Id)
    requires Inv(t) && Legal(t, op) && RequestMarked(t, k)
    requires (op.DoApproveRemoval? || op.DoRejectRemoval?) && op.rid == rid
    ensures RequestMarked(Step(t, op).0, k)
  {
    var t' := Step(t, op).0;
    DoneExactly(t, op);
    assert SkillInv(t, k);
    if t' != t && HasRequest(t', k) {
      var r :| r in t'.requests && IsRequested(t', r, k);
      assert r != rid && r in t.requests && IsRequested(t, r, k);
      assert t.requests[rid].skillId == k ==> IsRequested(t, rid, k);
      assert t.requests[rid].skillId != k;
      assert k in t'.listings && t'.listings[k] == t.listings[k];
    }
  }

  lemma UntouchedAfter(t: Tables, op: Op, k: Id)
    requires Inv(t) && Legal(t, op) && RequestMarked(t, k) && ListingOverwritten(t, op) != Some(k)
    requires !op.DoApproveRemoval? && !op.DoRejectRemoval?
    ensures RequestMarked(Step(t, op).0, k)
  {
    var t' := Step(t, op).0;
    DoneExactly(t, op);
    if HasRequest(t', k) && !(op.DoRequestRemoval? && op.skillId == k && t' != t) {
      assert t'.requests == t.requests
          || (op.DoRequestRemoval? && t'.requests == t.requests[op.newId := t'.requests[op.newId]]);
      var r :| r in t'.requests && IsRequested(t', r, k);
      assert r in t.requests && IsRequested(t, r, k);
    }
  }

  /** The link survives an operation exactly when the operation does not rewrite the listing of a
      skill that has a pending removal request. */
  lemma RequestMarkedExactly(t: Tables, op: Op)
    requires Inv(t) && Legal(t, op) && forall k :: RequestMarked(t, k)
    ensures (forall k :: RequestMarked(Step(t, op).0, k))
       <==> !(ListingOverwritten(t, op).Some? && HasRequest(t, ListingOverwritten(t, op).value))
  {
    var o := ListingOverwritten(t, op);
    if o.Some? {
      ListingAfter(t, op, o.value);
      if HasRequest(t, o.value) { assert !RequestMarked(Step(t, op).0, o.value); }
    }
    forall k: Id | o != Some(k) ensures RequestMarked(Step(t, op).0, k) { MarkedAfter(t, op, k); }
  }

  // -------------------------------------------------------- runs on which the links fail

  lemma RunStep(t: Tables, op: Op, rest: seq<Op>)
    requires Legal(t, op) && LegalRun(Step(t, op).0, rest)
    ensures LegalRun(t, [op] + rest) && Run(t, [op] + rest) == Run(Step(t, op).0, rest)
  {
    assert ([op] + rest)[1..] == rest;
  }

  lemma {:induction false} RunAppend(t: Tables, ops: seq<Op>, op: Op)
    requires LegalRun(t, ops) && Legal(Run(t, ops), op)
    ensures LegalRun(t, ops + [op]) && Run(t, ops + [op]) == Step(Run(t, ops), op).0
    decreases |ops|
  {
    if ops == [] {
      RunStep(t, op, []);
      assert ops + [op] == [op] + [];
    } else {
      RunAppend(Step(t, ops[0]).0, ops[1..], op);
      RunStep(t, ops[0], ops[1..] + [op]);
      assert ops + [op] == [ops[0]] + (ops[1..] + [op]);
    }
  }

  ghost predicate Reachable(t: Tables) {
    exists ops :: LegalRun(EMPTY, ops) && Run(EMPTY, ops) == t
  }

  lemma Extend(t: Tables, op: Op)
    requires Reachable(t) && Legal(t, op)
    ensures Reachable(Step(t, op).0)
  {
    var ops :| LegalRun(EMPTY, ops) && Run(EMPTY, ops) == t;
    RunAppend(EMPTY, ops, op);
  }

  lemma ReachableInv(t: Tables)
    requires Reachable(t)
    ensures Inv(t)
  {
    var ops :| LegalRun(EMPTY, ops) && Run(EMPTY, ops) == t;
    EmptyInv();
    RunKeeps(EMPTY, ops);
  }

  const ALICE := User(1, 9)
  const ADMIN := User(2, 9)

  /** Skill 7 with two stored versions. */
  lemma TwoVersions() returns (t: Tables)
    ensures Reachable(t) && t == Tables(map[7 := Skill(1, 9, Ready)], {(7, 1), (7, 2)}, map[], map[], map[])
  {
    assert LegalRun(EMPTY, []) && Run(EMPTY, []) == EMPTY;
    var t1 := Step(EMPTY, DoCreateSkill(7, ALICE, Ready)).0;
    Extend(EMPTY, DoCreateSkill(7, ALICE, Ready));
    var t2 := Step(t1, DoSaveSnapshot(7, 1)).0;
    Extend(t1, DoSaveSnapshot(7, 1));
    t := Step(t2, DoSaveSnapshot(7, 2)).0;
    Extend(t2, DoSaveSnapshot(7, 2));
  }

  /** Version 1 is live. */
  lemma FirstLive() returns (t: Tables)
    ensures Reachable(t)
    ensures t == Tables(map[7 := Skill(1, 9, Published)], {(7, 1), (7, 2)},
      map[21 := Submission(7, 1, 1, Approved)], map[7 := Listing(9, 21, 1, Active)], map[])
  {
    var t0 := TwoVersions();
    var t1 := Step(t0, DoSubmit(7, 1, false, ALICE, 21)).0;
    Extend(t0, DoSubmit(7, 1, false, ALICE, 21));
    assert t1.submissions == map[21 := Submission(7, 1, 1, PendingReview)];
    t := Step(t1, DoApprove(21, ADMIN, false)).0;
    Extend(t1, DoApprove(21, ADMIN, false));
  }

  /** Version 1 is live, version 2 is pending review and the owner has asked for removal. */
  lemma Contended() returns (t: Tables)
    ensures Reachable(t) && IsPending(t, 22, 7) && IsRequested(t, 31, 7)
    ensures t.skills == map[7 := Skill(1, 9, InReview)] && t.snapshots == {(7, 1), (7, 2)}
    ensures t.listings == map[7 := Listing(9, 21, 1, RemovalRequested)]
    ensures t.requests[31].submittedBy == 1 && t.submissions[22].submittedBy == 1 && t.submissions[22].version == 2
  {
    var t0 := FirstLive();
    var t1 := Step(t0, DoSubmit(7, 2, false, ALICE, 22)).0;
    Extend(t0, DoSubmit(7, 2, false, ALICE, 22));
    assert t1.skills == map[7 := Skill(1, 9, InReview)] && IsPending(t1, 22, 7);
    t := Step(t1, DoRequestRemoval(7, ALICE, AskSkill, 31)).0;
    Extend(t1, DoRequestRemoval(7, ALICE, AskSkill, 31));
  }

  /** Rejecting the removal request publishes a skill that still has a pending submission. */
  lemma PendingOutsideReview()
    ensures exists t :: Reachable(t) && !PendingInReview(t, 7)
  {
    var t := Contended();
    var op := DoRejectRemoval(31, ADMIN, false);
    assert HasPending(t, 7);
    ReachableInv(t);
    StatusAfter(t, op, 7);
    Extend(t, op);
    assert !PendingInReview(Step(t, op).0, 7);
  }

  /** Approving version 2 reactivates a listing that still has a pending removal request. */
  lemma RequestOnActiveListing()
    ensures exists t :: Reachable(t) && !RequestMarked(t, 7)
  {
    var t := Contended();
    var op := DoApprove(22, ADMIN, false);
    assert HasRequest(t, 7);
    ReachableInv(t);
    ListingAfter(t, op, 7);
    Extend(t, op);
    assert !RequestMarked(Step(t, op).0, 7);
  }
}
