/** What links the marketplace tables after any run of the operations, and what follows from it. */
module MarketplaceInvariant {
  import opened Common
  import opened Marketplace

  // --------------------------------------------------------------- the joint invariant

  predicate IsOpen(t: Tables, i: Id, k: Id) { IsPending(t, i, k) || IsApproved(t, i, k) }

  /** Every row of the skill belongs to an existing skill, a listing to its owner's organisation. */
  ghost predicate RowsResolve(t: Tables, k: Id) {
    && (k !in t.skills ==> k !in t.listings)
    && (k !in t.skills ==> forall i :: i in t.submissions ==> t.submissions[i].skillId != k)
    && (k !in t.skills ==> forall r :: r in t.requests ==> t.requests[r].skillId != k)
    && (k in t.listings && k in t.skills ==> t.listings[k].orgId == t.skills[k].orgId)
  }

  ghost predicate OnePending(t: Tables, k: Id) {
    forall i, j :: IsPending(t, i, k) && IsPending(t, j, k) ==> i == j
  }

  ghost predicate OneOpenPerVersion(t: Tables, k: Id) {
    forall i, j :: IsOpen(t, i, k) && IsOpen(t, j, k) && t.submissions[i].version == t.submissions[j].version ==> i == j
  }

  ghost predicate OneRequest(t: Tables, k: Id) {
    forall r, q :: IsRequested(t, r, k) && IsRequested(t, q, k) ==> r == q
  }

  /** A live listing shows an approved submission of its own skill, at that submission's version. */
  ghost predicate ListingShowsApproved(t: Tables, k: Id) {
    Live(t, k) ==>
      var l := t.listings[k];
      IsApproved(t, l.submissionId, k) && l.version == t.submissions[l.submissionId].version
  }

  ghost predicate ApprovedIsLive(t: Tables, k: Id) {
    forall i :: IsApproved(t, i, k) ==> Live(t, k)
  }

  ghost predicate RequestedHasRequest(t: Tables, k: Id) {
    k in t.listings && t.listings[k].status == RemovalRequested ==> HasRequest(t, k)
  }

  ghost predicate ApprovedHasSnapshot(t: Tables, k: Id) {
    forall i :: IsApproved(t, i, k) ==> (k, t.submissions[i].version) in t.snapshots
  }

  ghost predicate SkillInv(t: Tables, k: Id) {
    && RowsResolve(t, k) && OnePending(t, k) && OneOpenPerVersion(t, k) && OneRequest(t, k)
    && ListingShowsApproved(t, k) && ApprovedIsLive(t, k) && RequestedHasRequest(t, k) && ApprovedHasSnapshot(t, k)
  }

  ghost predicate Inv(t: Tables) { forall k :: SkillInv(t, k) }

  /** The stored status of a skill follows the other tables. */
  ghost predicate StatusFits(t: Tables, k: Id) {
    k in t.skills ==>
      var status := t.skills[k].status;
      && (status == Published ==> Live(t, k))
      && (status == InReview ==> HasPending(t, k))
      && (Live(t, k) ==> status == Published || status == InReview)
  }

  ghost predicate StatusInv(t: Tables) { forall k :: StatusFits(t, k) }

  // ------------------------------------------------------------------------ framing

  /** The two states agree on everything that concerns one skill. */
  ghost predicate SameRows(t: Tables, t': Tables, k: Id) {
    && (k in t.skills <==> k in t'.skills) && (k in t.skills ==> t.skills[k] == t'.skills[k])
    && (k in t.listings <==> k in t'.listings) && (k in t.listings ==> t.listings[k] == t'.listings[k])
    && (forall v :: (k, v) in t.snapshots ==> (k, v) in t'.snapshots)
    && (forall i :: SameSubmission(t, t', i, k))
    && (forall r :: SameRequest(t, t', r, k))
  }

  predicate SameSubmission(t: Tables, t': Tables, i: Id, k: Id) {
    var a := i in t.submissions && t.submissions[i].skillId == k;
    var b := i in t'.submissions && t'.submissions[i].skillId == k;
    a == b && (a ==> t.submissions[i] == t'.submissions[i])
  }

  predicate SameRequest(t: Tables, t': Tables, r: Id, k: Id) {
    var a := r in t.requests && t.requests[r].skillId == k;
    var b := r in t'.requests && t'.requests[r].skillId == k;
    a == b && (a ==> t.requests[r] == t'.requests[r])
  }

  lemma FrameRows(t: Tables, t': Tables, k: Id)
    requires SameRows(t, t', k)
    ensures forall i :: IsPending(t, i, k) <==> IsPending(t', i, k)
    ensures forall i :: IsApproved(t, i, k) <==> IsApproved(t', i, k)
    ensures forall i :: IsOpen(t, i, k) ==> i in t'.submissions && t.submissions[i] == t'.submissions[i]
    ensures forall r :: IsRequested(t, r, k) <==> IsRequested(t', r, k)
    ensures Live(t, k) <==> Live(t', k)
  {
    forall i ensures (IsPending(t, i, k) <==> IsPending(t', i, k)) && (IsApproved(t, i, k) <==> IsApproved(t', i, k))
      && (IsOpen(t, i, k) ==> i in t'.submissions && t.submissions[i] == t'.submissions[i]) {
      assert SameSubmission(t, t', i, k);
    }
    forall r ensures IsRequested(t, r, k) <==> IsRequested(t', r, k) { assert SameRequest(t, t', r, k); }
  }

  lemma FrameResolve(t: Tables, t': Tables, k: Id)
    requires SameRows(t, t', k) && RowsResolve(t, k)
    ensures RowsResolve(t', k)
  {
    if k !in t.skills {
      forall i | i in t'.submissions ensures t'.submissions[i].skillId != k { assert SameSubmission(t, t', i, k); }
      forall r | r in t'.requests ensures t'.requests[r].skillId != k { assert SameRequest(t, t', r, k); }
    }
  }

  lemma FrameHas(t: Tables, t': Tables, k: Id)
    requires SameRows(t, t', k)
    ensures HasPending(t, k) <==> HasPending(t', k)
    ensures HasRequest(t, k) <==> HasRequest(t', k)
    ensures HasApproved(t, k) <==> HasApproved(t', k)
  {
    FrameRows(t, t', k);
  }

  /** The invariant of a skill depends on its own rows only. */
  lemma Frame(t: Tables, t': Tables, k: Id)
    requires SameRows(t, t', k)
    ensures SkillInv(t, k) ==> SkillInv(t', k)
    ensures StatusFits(t, k) ==> StatusFits(t', k)
  {
    FrameRows(t, t', k);
    FrameHas(t, t', k);
    if RowsResolve(t, k) { FrameResolve(t, t', k); }
  }

  /** An operation on one skill keeps the joint invariant when it keeps that skill's part. */
  lemma OneSkill(t: Tables, t': Tables, k: Id)
    requires Inv(t) && (forall j | j != k :: SameRows(t, t', j)) && SkillInv(t', k)
    ensures Inv(t')
    ensures StatusInv(t) && StatusFits(t', k) ==> StatusInv(t')
  {
    forall j ensures SkillInv(t', j) && (StatusInv(t) && StatusFits(t', k) ==> StatusFits(t', j)) {
      if j != k {
        assert SameRows(t, t', j) && SkillInv(t, j);
        Frame(t, t', j);
        if StatusInv(t) { assert StatusFits(t, j); }
      }
    }
  }

  // --------------------------------------------------------------------- preservation

  lemma SubmitKeeps(t: Tables, k: Id, version: Version, hasNote: bool, user: User, newId: Id)
    requires Inv(t) && newId !in t.submissions
    ensures var t' := Submit(t, k, version, hasNote, user, newId).0; Inv(t') && (StatusInv(t) ==> StatusInv(t'))
  {
    var (t', outcome) := Submit(t, k, version, hasNote, user, newId);
    if outcome == Done {
      assert SkillInv(t, k);
      SubmitEffect(t, t', k, version, hasNote, user, newId);
      assert HasPending(t', k) by { assert newId in t'.submissions; }
      assert forall r :: IsRequested(t', r, k) <==> IsRequested(t, r, k);
      OneSkill(t, t', k);
    }
  }

  lemma SubmitEffect(t: Tables, t': Tables, k: Id, version: Version, hasNote: bool, user: User, newId: Id)
    requires newId !in t.submissions && Submit(t, k, version, hasNote, user, newId) == (t', Done)
    ensures forall j | j != k :: SameRows(t, t', j)
    ensures forall i :: IsPending(t', i, k) <==> i == newId
    ensures forall i :: IsApproved(t', i, k) <==> IsApproved(t, i, k)
    ensures forall i ::
             IsApproved(t, i, k)
             ==> t'.submissions[i] == t.submissions[i] && t.submissions[i].version != version
    ensures t'.submissions[newId].version == version
    ensures t'.requests == t.requests && t'.listings == t.listings && t'.snapshots == t.snapshots
    ensures t'.skills == t.skills[k := t.skills[k].(status := InReview)]
  {
    assert forall i :: i in t.submissions ==> !IsPending(t, i, k);
  }

  lemma ReviewEffect(t: Tables, sid: Id, status: SubmissionStatus)
    requires sid in t.submissions && t.submissions[sid].status == PendingReview && status != PendingReview
    ensures var t' := WithSubmissionStatus(t, sid, status); var k := t.submissions[sid].skillId;
      && (forall i :: IsPending(t', i, k) <==> IsPending(t, i, k) && i != sid)
      && (forall i :: IsApproved(t', i, k) <==> IsApproved(t, i, k) || (i == sid && status == Approved))
      && (forall j | j != k :: SameRows(t, t', j))
  {
  }

  lemma ApproveKeeps(t: Tables, sid: Id, admin: User, allowSelf: bool)
    requires Inv(t)
    ensures var t' := Approve(t, sid, admin, allowSelf).0; Inv(t') && (StatusInv(t) ==> StatusInv(t'))
  {
    var (t', outcome) := Approve(t, sid, admin, allowSelf);
    if outcome == Done {
      var k := t.submissions[sid].skillId;
      assert SkillInv(t, k);
      ReviewEffect(t, sid, Approved);
      var t1 := WithSubmissionStatus(t, sid, Approved);
      assert forall i :: IsPending(t', i, k) <==> IsPending(t1, i, k);
      assert forall i :: IsApproved(t', i, k) <==> IsApproved(t1, i, k);
      assert forall r :: IsRequested(t', r, k) <==> IsRequested(t, r, k);
      assert forall j | j != k :: SameRows(t, t', j) by {
        forall j | j != k ensures SameRows(t, t', j) { assert SameRows(t, t1, j); }
      }
      assert SkillInv(t', k);
      OneSkill(t, t', k);
    }
  }

  /** The skill of a rejected submission. */
  lemma RejectedSkill(t: Tables, sid: Id, admin: User, allowSelf: bool, k: Id)
    requires Inv(t) && sid in t.submissions && t.submissions[sid].skillId == k
    requires Reject(t, sid, admin, allowSelf).1 == Done
    ensures var t' := Reject(t, sid, admin, allowSelf).0; SkillInv(t', k) && (StatusFits(t, k) ==> StatusFits(t', k))
  {
    var t', t1 := Reject(t, sid, admin, allowSelf).0, WithSubmissionStatus(t, sid, Rejected);
    assert SkillInv(t, k);
    ReviewEffect(t, sid, Rejected);
    assert forall i :: IsPending(t', i, k) <==> IsPending(t1, i, k);
    assert forall i :: IsApproved(t', i, k) <==> IsApproved(t1, i, k);
    assert forall r :: IsRequested(t', r, k) <==> IsRequested(t, r, k);
    assert HasApproved(t1, k) <==> Live(t, k) by { LiveIffApproved(t, k); }
  }

  lemma RejectKeeps(t: Tables, sid: Id, admin: User, allowSelf: bool)
    requires Inv(t)
    ensures var t' := Reject(t, sid, admin, allowSelf).0; Inv(t') && (StatusInv(t) ==> StatusInv(t'))
  {
    var (t', outcome) := Reject(t, sid, admin, allowSelf);
    if outcome == Done {
      var k := t.submissions[sid].skillId;
      RejectedSkill(t, sid, admin, allowSelf, k);
      ReviewEffect(t, sid, Rejected);
      forall j | j != k ensures SameRows(t, t', j) { assert SameRows(t, WithSubmissionStatus(t, sid, Rejected), j); }
      assert StatusInv(t) ==> StatusFits(t, k);
      OneSkill(t, t', k);
    }
  }

  /** Some submission of a skill is approved exactly when its listing exists and is not removed. */
  lemma LiveIffApproved(t: Tables, k: Id)
    requires SkillInv(t, k)
    ensures HasApproved(t, k) <==> Live(t, k)
  {
    if Live(t, k) { assert IsApproved(t, t.listings[k].submissionId, k); }
  }

  lemma RemoveOneRows(t: Tables, sid: Id, k: Id, next: Id)
    requires IsApproved(t, sid, k) && (Remaining(t, k, sid) != {} ==> next in Remaining(t, k, sid))
    ensures var t' := RemoveOne(t, sid, k, next);
      && (forall j | j != k :: SameRows(t, t', j))
      && t'.requests == t.requests && t'.snapshots == t.snapshots
  {
  }

  lemma RemoveOneSubmissions(t: Tables, sid: Id, k: Id, next: Id)
    requires IsApproved(t, sid, k) && (Remaining(t, k, sid) != {} ==> next in Remaining(t, k, sid))
    ensures RemoveOne(t, sid, k, next).submissions == WithSubmissionStatus(t, sid, Removed).submissions
    ensures var t' := RemoveOne(t, sid, k, next);
      && (forall i :: IsPending(t', i, k) <==> IsPending(t, i, k))
      && (forall i :: IsApproved(t', i, k) <==> IsApproved(t, i, k) && i != sid)
      && (forall i :: IsOpen(t', i, k) ==> t'.submissions[i] == t.submissions[i])
  {
  }

  lemma RemoveOneEffect(t: Tables, sid: Id, k: Id, next: Id)
    requires IsApproved(t, sid, k)
    requires Remaining(t, k, sid) != {} ==> next in Remaining(t, k, sid)
    ensures var t' := RemoveOne(t, sid, k, next);
      && (forall j | j != k :: SameRows(t, t', j))
      && (forall i :: IsPending(t', i, k) <==> IsPending(t, i, k))
      && (forall i :: IsApproved(t', i, k) <==> IsApproved(t, i, k) && i != sid)
      && (forall i :: IsOpen(t', i, k) ==> t'.submissions[i] == t.submissions[i])
      && t'.requests == t.requests && t'.snapshots == t.snapshots
      && (Live(t, k) ==> (Live(t', k) <==> Remaining(t, k, sid) != {}))
  {
    RemoveOneRows(t, sid, k, next);
    RemoveOneSubmissions(t, sid, k, next);
  }

  lemma RemoveOneKeeps(t: Tables, sid: Id, k: Id, next: Id)
    requires SkillInv(t, k) && IsApproved(t, sid, k)
    requires Remaining(t, k, sid) != {} ==> next in Remaining(t, k, sid)
    ensures var t' := RemoveOne(t, sid, k, next);
      && SkillInv(t', k) && (StatusFits(t, k) ==> StatusFits(t', k))
      && (k in t'.listings ==> t'.listings[k].status != RemovalRequested)
  {
    var t' := RemoveOne(t, sid, k, next);
    RemoveOneEffect(t, sid, k, next);
    assert forall r :: IsRequested(t', r, k) <==> IsRequested(t, r, k);
    assert forall i :: IsApproved(t', i, k) ==> i in Remaining(t, k, sid);
    assert Live(t, k);
    assert RowsResolve(t', k);
    assert HasPending(t, k) ==> HasPending(t', k) by {
      if HasPending(t, k) { var i :| i in t.submissions && IsPending(t, i, k); assert IsPending(t', i, k); }
    }
  }

  lemma RemoveVersionKeeps(t: Tables, sid: Id, admin: User, next: Id)
    requires Inv(t) && Legal(t, DoRemoveVersion(sid, admin, next))
    ensures var t' := RemoveVersion(t, sid, admin, next).0; Inv(t') && (StatusInv(t) ==> StatusInv(t'))
  {
    var (t', outcome) := RemoveVersion(t, sid, admin, next);
    if outcome == Done {
      var k := t.submissions[sid].skillId;
      assert SkillInv(t, k);
      RemoveOneEffect(t, sid, k, next);
      RemoveOneKeeps(t, sid, k, next);
      assert StatusInv(t) ==> StatusFits(t, k);
      OneSkill(t, t', k);
    }
  }

  /** Taking down the whole skill: every approved submission, the listing and the status. */
  function TakenDown(t: Tables, k: Id): Tables {
    WithSkillStatus(WithListingStatus(WithApprovedRemoved(t, k), k, Delisted), k, Ready)
  }

  lemma TakeDownEffect(t: Tables, k: Id)
    ensures var t' := TakenDown(t, k);
      && (forall j | j != k :: SameRows(t, t', j))
      && (forall i :: IsPending(t', i, k) <==> IsPending(t, i, k))
      && (forall i :: !IsApproved(t', i, k))
      && (forall i :: IsPending(t', i, k) ==> t'.submissions[i] == t.submissions[i])
      && t'.requests == t.requests && !Live(t', k)
  {
    var t' := TakenDown(t, k);
    assert t'.submissions.Keys == t.submissions.Keys;
    forall j | j != k ensures SameRows(t, t', j) {
      forall i ensures SameSubmission(t, t', i, j) {}
    }
  }

  lemma TakeDownKeeps(t: Tables, k: Id)
    requires SkillInv(t, k) && k in t.skills
    ensures SkillInv(TakenDown(t, k), k) && StatusFits(TakenDown(t, k), k)
    ensures k in t.listings ==> TakenDown(t, k).listings[k].status == Delisted
  {
    var t' := TakenDown(t, k);
    TakeDownEffect(t, k);
    assert forall r :: IsRequested(t', r, k) <==> IsRequested(t, r, k);
    assert RowsResolve(t', k);
  }

  lemma RemoveFromMarketplaceKeeps(t: Tables, k: Id, admin: User)
    requires Inv(t)
    ensures var t' := RemoveFromMarketplace(t, k, admin).0; Inv(t') && (StatusInv(t) ==> StatusInv(t'))
  {
    var (t', outcome) := RemoveFromMarketplace(t, k, admin);
    if outcome == Done {
      assert SkillInv(t, k);
      TakeDownEffect(t, k);
      TakeDownKeeps(t, k);
      OneSkill(t, t', k);
    }
  }

  lemma RequestRemovalKeeps(t: Tables, k: Id, user: User, asked: AskedScope, newId: Id)
    requires Inv(t) && newId !in t.requests
    ensures var t' := RequestRemoval(t, k, user, asked, newId).0; Inv(t') && (StatusInv(t) ==> StatusInv(t'))
  {
    var (t', outcome) := RequestRemoval(t, k, user, asked, newId);
    if outcome == Done {
      assert SkillInv(t, k);
      assert forall r :: IsRequested(t, r, k) ==> r in t.requests;
      assert forall r :: IsRequested(t', r, k) <==> r == newId;
      assert HasRequest(t', k) by { assert newId in t'.requests; }
      assert forall i :: IsPending(t', i, k) <==> IsPending(t, i, k);
      assert forall i :: IsApproved(t', i, k) <==> IsApproved(t, i, k);
      assert Live(t, k) && Live(t', k);
      assert StatusInv(t) ==> StatusFits(t, k);
      assert SkillInv(t', k);
      OneSkill(t, t', k);
    }
  }

  /** Closing a request removes it from the pending ones and touches nothing else. */
  lemma CloseRequest(t: Tables, rid: Id, k: Id, status: RequestStatus)
    requires IsRequested(t, rid, k) && status != Pending
    ensures var t' := WithRequestStatus(t, rid, status);
      && (forall j | j != k :: SameRows(t, t', j))
      && (forall r :: IsRequested(t', r, k) <==> IsRequested(t, r, k) && r != rid)
      && (forall i :: IsPending(t', i, k) <==> IsPending(t, i, k))
      && (forall i :: IsApproved(t', i, k) <==> IsApproved(t, i, k))
      && (SkillInv(t, k) && (k in t.listings ==> t.listings[k].status != RemovalRequested) ==> SkillInv(t', k))
      && (StatusFits(t, k) ==> StatusFits(t', k))
  {
  }

  lemma SameRowsTrans(t: Tables, u: Tables, v: Tables, k: Id)
    requires SameRows(t, u, k) && SameRows(u, v, k)
    ensures SameRows(t, v, k)
  {
    forall i ensures SameSubmission(t, v, i, k) { assert SameSubmission(t, u, i, k) && SameSubmission(u, v, i, k); }
    forall r ensures SameRequest(t, v, r, k) { assert SameRequest(t, u, r, k) && SameRequest(u, v, r, k); }
  }

  lemma ApproveRemovalKeeps(t: Tables, rid: Id, admin: User, allowSelf: bool, next: Id)
    requires Inv(t) && NextListed(t, rid, next)
    ensures var t' := ApproveRemoval(t, rid, admin, allowSelf, next).0; Inv(t') && (StatusInv(t) ==> StatusInv(t'))
  {
    var (t', outcome) := ApproveRemoval(t, rid, admin, allowSelf, next);
    if outcome == Done {
      var r := t.requests[rid];
      var k := r.skillId;
      assert SkillInv(t, k) && (StatusInv(t) ==> StatusFits(t, k));
      var t1 := if r.scope.OneVersion? then RemoveOne(t, r.scope.target, k, next) else TakenDown(t, k);
      if r.scope.OneVersion? {
        RemoveOneEffect(t, r.scope.target, k, next);
        RemoveOneKeeps(t, r.scope.target, k, next);
      } else {
        TakeDownEffect(t, k);
        TakeDownKeeps(t, k);
      }
      assert t' == WithRequestStatus(t1, rid, Granted);
      CloseRequest(t1, rid, k, Granted);
      forall j | j != k ensures SameRows(t, t', j) { SameRowsTrans(t, t1, t', j); }
      OneSkill(t, t', k);
    }
  }

  /** The skill of a denied request. */
  lemma DeniedSkill(t: Tables, rid: Id, admin: User, allowSelf: bool, k: Id)
    requires Inv(t) && rid in t.requests && t.requests[rid].skillId == k
    requires RejectRemoval(t, rid, admin, allowSelf).1 == Done
    ensures var t' := RejectRemoval(t, rid, admin, allowSelf).0;
            SkillInv(t', k)
            && (StatusFits(t, k) ==> StatusFits(t', k))
  {
    var t', t1 := RejectRemoval(t, rid, admin, allowSelf).0, WithRequestStatus(t, rid, Denied);
    assert SkillInv(t, k);
    CloseRequest(t, rid, k, Denied);
    assert forall r :: IsRequested(t', r, k) <==> IsRequested(t1, r, k);
    assert forall i :: IsPending(t', i, k) <==> IsPending(t1, i, k);
    assert forall i :: IsApproved(t', i, k) <==> IsApproved(t1, i, k);
    assert Live(t', k) <==> Live(t, k);
  }

  lemma RejectRemovalKeeps(t: Tables, rid: Id, admin: User, allowSelf: bool)
    requires Inv(t)
    ensures var t' := RejectRemoval(t, rid, admin, allowSelf).0; Inv(t') && (StatusInv(t) ==> StatusInv(t'))
  {
    var (t', outcome) := RejectRemoval(t, rid, admin, allowSelf);
    if outcome == Done {
      var k := t.requests[rid].skillId;
      DeniedSkill(t, rid, admin, allowSelf, k);
      CloseRequest(t, rid, k, Denied);
      forall j | j != k ensures SameRows(t, t', j) { assert SameRows(t, WithRequestStatus(t, rid, Denied), j); }
      assert StatusInv(t) ==> StatusFits(t, k);
      OneSkill(t, t', k);
    }
  }

  lemma DeleteKeeps(t: Tables, k: Id)
    requires Inv(t)
    ensures var t' := DeleteSkill(t, k).0; Inv(t') && (StatusInv(t) ==> StatusInv(t'))
  {
    var (t', outcome) := DeleteSkill(t, k);
    if outcome == Done {
      forall j | j != k ensures SameRows(t, t', j) {
        forall i ensures SameSubmission(t, t', i, j) {}
      }
      assert forall i :: i in t'.submissions ==> t'.submissions[i].skillId != k;
      assert SkillInv(t', k);
      OneSkill(t, t', k);
    }
  }

  lemma OtherOpsOneSkill(t: Tables, op: Op, k: Id)
    requires Inv(t) && Legal(t, op) && (op.DoCreateSkill? || op.DoSaveSnapshot? || op.DoEditStatus?)
    requires k == if op.DoCreateSkill? then op.newId else op.skillId
    ensures var t' := Step(t, op).0; SkillInv(t', k) && (StatusInv(t) && !op.DoEditStatus? ==> StatusFits(t', k))
  {
    var t' := Step(t, op).0;
    assert SkillInv(t, k) && (StatusInv(t) ==> StatusFits(t, k));
    assert forall r :: IsRequested(t', r, k) <==> IsRequested(t, r, k);
    assert forall i :: IsPending(t', i, k) <==> IsPending(t, i, k);
    assert forall i :: IsApproved(t', i, k) <==> IsApproved(t, i, k);
  }

  lemma OtherOpsKeep(t: Tables, op: Op)
    requires Inv(t) && Legal(t, op) && (op.DoCreateSkill? || op.DoSaveSnapshot? || op.DoEditStatus?)
    ensures var t' := Step(t, op).0; Inv(t') && (StatusInv(t) && !op.DoEditStatus? ==> StatusInv(t'))
  {
    var t' := Step(t, op).0;
    var k := if op.DoCreateSkill? then op.newId else op.skillId;
    assert forall j | j != k :: SameRows(t, t', j);
    OtherOpsOneSkill(t, op, k);
    OneSkill(t, t', k);
  }

  /** Every operation keeps the joint invariant; every one but a direct status edit also keeps
      the stored statuses in line. */
  lemma StepKeeps(t: Tables, op: Op)
    requires Inv(t) && Legal(t, op)
    ensures Inv(Step(t, op).0)
    ensures StatusInv(t) && !op.DoEditStatus? ==> StatusInv(Step(t, op).0)
  {
    match op
    case DoSubmit(k, version, hasNote, user, newId) => SubmitKeeps(t, k, version, hasNote, user, newId);
    case DoApprove(sid, admin, allowSelf) => ApproveKeeps(t, sid, admin, allowSelf);
    case DoReject(sid, admin, allowSelf) => RejectKeeps(t, sid, admin, allowSelf);
    case DoRemoveVersion(sid, admin, next) => RemoveVersionKeeps(t, sid, admin, next);
    case DoRequestRemoval(k, user, asked, newId) => RequestRemovalKeeps(t, k, user, asked, newId);
    case DoApproveRemoval(rid, admin, allowSelf, next) => ApproveRemovalKeeps(t, rid, admin, allowSelf, next);
    case DoRejectRemoval(rid, admin, allowSelf) => RejectRemovalKeeps(t, rid, admin, allowSelf);
    case DoRemoveFromMarketplace(k, admin) => RemoveFromMarketplaceKeeps(t, k, admin);
    case DoDeleteSkill(k) => DeleteKeeps(t, k);
    case _ => OtherOpsKeep(t, op);
  }

  lemma {:induction false} RunKeeps(t: Tables, ops: seq<Op>)
    requires Inv(t) && LegalRun(t, ops)
    ensures Inv(Run(t, ops))
    ensures StatusInv(t) && (forall op <- ops :: !op.DoEditStatus?) ==> StatusInv(Run(t, ops))
    decreases |ops|
  {
    if ops != [] {
      StepKeeps(t, ops[0]);
      assert ops[0] in ops;
      RunKeeps(Step(t, ops[0]).0, ops[1..]);
    }
  }

  lemma EmptyInv()
    ensures Inv(EMPTY) && StatusInv(EMPTY)
  {
  }

  // -------------------------------------------------------------------- consequences

  /** Over every run from empty tables, all the promised links hold. */
  lemma ReachableLinks(ops: seq<Op>, k: Id)
    requires LegalRun(EMPTY, ops)
    ensures var t := Run(EMPTY, ops);
      && OnePending(t, k) && OneOpenPerVersion(t, k) && OneRequest(t, k)
      && (HasApproved(t, k) <==> Live(t, k))
      && ListingShowsApproved(t, k) && RequestedHasRequest(t, k)
  {
    EmptyInv();
    RunKeeps(EMPTY, ops);
    LiveIffApproved(Run(EMPTY, ops), k);
  }

  /** On every reachable state an active listing of the caller's organisation yields a detail
      result, and nothing else does. */
  lemma DetailAlwaysFound(ops: seq<Op>, k: Id, orgId: Id)
    requires LegalRun(EMPTY, ops)
    ensures var t := Run(EMPTY, ops);
      && (FindDetail(t, k, orgId).Some?
          <==> k in t.listings && t.listings[k].status == Active && t.listings[k].orgId == orgId)
      && (FindDetail(t, k, orgId).Some? ==> FindDetail(t, k, orgId).value.submittedBy.Some?)
  {
    EmptyInv();
    RunKeeps(EMPTY, ops);
    var t := Run(EMPTY, ops);
    assert SkillInv(t, k);
    if Live(t, k) { assert IsApproved(t, t.listings[k].submissionId, k); }
  }

  /** Deletion never reads the listing, yet a skill whose deletion passes the guards is not live. */
  lemma DeleteGuardIsEnough(ops: seq<Op>, k: Id)
    requires LegalRun(EMPTY, ops)
    ensures var t := Run(EMPTY, ops); DeleteSkill(t, k).1 in {Done, ForeignKey} ==> !Live(t, k)
  {
    EmptyInv();
    RunKeeps(EMPTY, ops);
    LiveIffApproved(Run(EMPTY, ops), k);
  }

  /** Rows that once referred to a skill stay, and keep the skill from ever being deleted. */
  lemma {:induction false} OnceReferencedNeverDeleted(t: Tables, ops: seq<Op>, k: Id)
    requires Inv(t) && LegalRun(t, ops) && Referenced(t, k)
    ensures k in Run(t, ops).skills && Referenced(Run(t, ops), k)
    decreases |ops|
  {
    assert SkillInv(t, k);
    if ops != [] {
      ReferenceStays(t, ops[0], k);
      StepKeeps(t, ops[0]);
      OnceReferencedNeverDeleted(Step(t, ops[0]).0, ops[1..], k);
    }
  }

  lemma ListingStays(t: Tables, op: Op, k: Id)
    requires Inv(t) && Legal(t, op) && k in t.listings
    ensures k in Step(t, op).0.listings
  {
  }

  lemma RequestStays(t: Tables, op: Op, r: Id)
    requires Inv(t) && Legal(t, op) && r in t.requests
    ensures r in Step(t, op).0.requests && Step(t, op).0.requests[r].skillId == t.requests[r].skillId
  {
  }

  lemma ReferenceStays(t: Tables, op: Op, k: Id)
    requires Inv(t) && Legal(t, op) && Referenced(t, k)
    ensures Referenced(Step(t, op).0, k)
  {
    if k in t.listings {
      ListingStays(t, op, k);
    } else {
      var r :| r in t.requests && t.requests[r].skillId == k;
      RequestStays(t, op, r);
    }
  }

  /** Reading metadata returns the stored status, its reconciliation having nothing to repair,
      on every state reached without direct status edits. */
  lemma MetadataIsStored(ops: seq<Op>, k: Id)
    requires LegalRun(EMPTY, ops) && forall op <- ops :: !op.DoEditStatus?
    ensures var t := Run(EMPTY, ops); k in t.skills ==> GetMetadata(t, k).value.status == t.skills[k].status
  {
    EmptyInv();
    RunKeeps(EMPTY, ops);
    assert StatusFits(Run(EMPTY, ops), k);
  }

  /** With direct edits too, metadata differs from the stored status exactly when an edit has
      set an actively listed skill to draft or ready. */
  lemma MetadataHeals(t: Tables, k: Id)
    requires k in t.skills
    ensures GetMetadata(t, k).value.status != t.skills[k].status
       <==> k in t.listings && t.listings[k].status == Active && t.skills[k].status in {Draft, Ready}
  {
  }
}
