/** The service objects: each method checks and then updates its rows one statement at a time,
    in the order of the original, and is proved against the table operation of `Marketplace`. */
module MarketplaceService {
  import opened Common
  import opened Marketplace

  class Service {
    var skills: map<Id, Skill>
    var snapshots: set<(Id, Version)>
    var submissions: map<Id, Submission>
    var listings: map<Id, Listing>
    var requests: map<Id, Request>

    ghost function State(): Tables
      reads this
    {
      Tables(skills, snapshots, submissions, listings, requests)
    }

    constructor ()
      ensures State() == EMPTY
    {
      skills, snapshots, submissions, listings, requests := map[], {}, map[], map[], map[];
    }

    // ------------------------------------------------------------------ row writes

    method SetSkillStatus(id: Id, status: SkillStatus)
      modifies this`skills
      ensures State() == WithSkillStatus(old(State()), id, status)
    {
      if id in skills { skills := skills[id := skills[id].(status := status)]; }
    }

    method SetSubmissionStatus(id: Id, status: SubmissionStatus)
      modifies this`submissions
      ensures State() == WithSubmissionStatus(old(State()), id, status)
    {
      if id in submissions { submissions := submissions[id := submissions[id].(status := status)]; }
    }

    method SetListingStatus(id: Id, status: ListingStatus)
      modifies this`listings
      ensures State() == WithListingStatus(old(State()), id, status)
    {
      if id in listings { listings := listings[id := listings[id].(status := status)]; }
    }

    method SetRequestStatus(id: Id, status: RequestStatus)
      modifies this`requests
      ensures State() == WithRequestStatus(old(State()), id, status)
    {
      if id in requests { requests := requests[id := requests[id].(status := status)]; }
    }

    /** INSERT ... ON CONFLICT ("skillId") DO UPDATE, which keeps the stored organisation. */
    method UpsertListing(sid: Id)
      requires sid in submissions
      modifies this`listings
      ensures State() == WithListed(old(State()), sid)
    {
      var s := submissions[sid];
      if s.skillId in listings {
        listings := listings[s.skillId := listings[s.skillId].(submissionId := sid, version := s.version,
            status := Active)];
      } else {
        var org := if s.skillId in skills then skills[s.skillId].orgId else 0;
        listings := listings[s.skillId := Listing(org, sid, s.version, Active)];
      }
    }

    method RemoveAllApproved(skillId: Id)
      modifies this`submissions
      ensures State() == WithApprovedRemoved(old(State()), skillId)
    {
      submissions := map i | i in submissions ::
        if submissions[i].skillId == skillId && submissions[i].status == Approved
        then submissions[i].(status := Removed)
        else submissions[i];
    }

    // ------------------------------------------------------------------ row reads

    method FindSubmission(skillId: Id, pending: bool) returns (found: bool)
      ensures found == if pending then HasPending(State(), skillId) else HasApproved(State(), skillId)
    {
      var status := if pending then PendingReview else Approved;
      found := exists i :: i in submissions && submissions[i].skillId == skillId && submissions[i].status == status;
      if found {
        var i :| i in submissions && submissions[i].skillId == skillId && submissions[i].status == status;
        assert if pending then IsPending(State(), i, skillId) else IsApproved(State(), i, skillId);
      }
    }

    method HasPendingRequest(skillId: Id) returns (found: bool)
      ensures found == HasRequest(State(), skillId)
    {
      found := exists r :: r in requests && requests[r].skillId == skillId && requests[r].status == Pending;
      if found {
        var r :| r in requests && requests[r].skillId == skillId && requests[r].status == Pending;
        assert IsRequested(State(), r, skillId);
      }
    }

    // ------------------------------------------------------------------ operations

    method SubmitVersion(skillId: Id, version: Version, hasNote: bool, user: User, newId: Id) returns (r: Outcome)
      requires newId !in submissions
      modifies this
      ensures (State(), r) == Submit(old(State()), skillId, version, hasNote, user, newId)
    {
      if skillId !in skills { return NotFound; }
      if skills[skillId].ownerId != user.id { return Forbidden; }
      var pending := FindSubmission(skillId, true);
      if pending { return Conflict; }
      var duplicate := exists i ::
        i in submissions && submissions[i].skillId == skillId && submissions[i].status == Approved
            && submissions[i].version == version;
      if duplicate {
        var i :|
          i in submissions && submissions[i].skillId == skillId && submissions[i].status == Approved
              && submissions[i].version == version;
        assert IsApproved(State(), i, skillId);
        return Conflict;
      }
      if skillId in listings && listings[skillId].status == Active && version < listings[skillId].version {
        if !hasNote { return BadRequest; }
      }
      submissions := submissions[newId := Submission(skillId, version, user.id, PendingReview)];
      SetSkillStatus(skillId, InReview);
      r := Done;
    }

    method OpenReview(sid: Id, admin: User, allowSelf: bool) returns (r: Outcome)
      ensures r == ReviewCheck(State(), sid, admin, allowSelf)
    {
      if sid !in submissions || submissions[sid].status != PendingReview { return NotFound; }
      var s := submissions[sid];
      if s.skillId !in skills || skills[s.skillId].orgId != admin.orgId { return NotFound; }
      if s.submittedBy == admin.id {
        if !allowSelf { return Forbidden; }
      }
      r := Done;
    }

    method ApproveSubmission(sid: Id, admin: User, allowSelf: bool) returns (r: Outcome)
      modifies this
      ensures (State(), r) == Approve(old(State()), sid, admin, allowSelf)
    {
      r := OpenReview(sid, admin, allowSelf);
      if r != Done { return; }
      var skillId := submissions[sid].skillId;
      if (skillId, submissions[sid].version) !in snapshots { return BadRequest; }
      SetSubmissionStatus(sid, Approved);
      UpsertListing(sid);
      SetSkillStatus(skillId, Published);
    }

    method RejectSubmission(sid: Id, admin: User, allowSelf: bool) returns (r: Outcome)
      modifies this
      ensures (State(), r) == Reject(old(State()), sid, admin, allowSelf)
    {
      r := OpenReview(sid, admin, allowSelf);
      if r != Done { return; }
      var skillId := submissions[sid].skillId;
      SetSubmissionStatus(sid, Rejected);
      var stillLive := FindSubmission(skillId, false);
      SetSkillStatus(skillId, if stillLive then Published else Ready);
    }

    method RemoveApproved(sid: Id, skillId: Id, remaining: set<Id>, next: Id)
      requires sid in submissions && remaining == Remaining(State(), skillId, sid)
      requires remaining != {} ==> next in remaining
      modifies this
      ensures State() == RemoveOne(old(State()), sid, skillId, next)
    {
      SetSubmissionStatus(sid, Removed);
      if remaining == {} {
        SetListingStatus(skillId, Delisted);
        SetSkillStatus(skillId, Ready);
      } else {
        UpsertListing(next);
      }
    }

    method RemoveApprovedVersion(sid: Id, admin: User, next: Id) returns (r: Outcome)
      requires Legal(State(), DoRemoveVersion(sid, admin, next))
      modifies this
      ensures (State(), r) == RemoveVersion(old(State()), sid, admin, next)
    {
      if sid !in submissions { return NotFound; }
      var s := submissions[sid];
      if s.status != Approved { return Conflict; }
      if s.skillId !in skills { return NotFound; }
      if skills[s.skillId].orgId != admin.orgId { return Forbidden; }
      if s.skillId !in listings || listings[s.skillId].orgId != admin.orgId { return Forbidden; }
      var remaining := set i | i in submissions && submissions[i].skillId == s.skillId
          && submissions[i].status == Approved && i != sid;
      assert remaining == Remaining(State(), s.skillId, sid);
      RemoveApproved(sid, s.skillId, remaining, next);
      r := Done;
    }

    method AskRemoval(skillId: Id, user: User, asked: AskedScope, newId: Id) returns (r: Outcome)
      requires newId !in requests
      modifies this
      ensures (State(), r) == RequestRemoval(old(State()), skillId, user, asked, newId)
    {
      if skillId !in skills { return NotFound; }
      if skills[skillId].ownerId != user.id { return Forbidden; }
      if skillId !in listings || listings[skillId].orgId != user.orgId || listings[skillId].status == Delisted {
        return BadRequest;
      }
      var hasPending := HasPendingRequest(skillId);
      if hasPending { return Conflict; }
      var scope := WholeSkill;
      if asked.AskVersion? {
        if asked.target.None? { return BadRequest; }
        var target := asked.target.value;
        if target !in submissions || submissions[target].skillId != skillId || submissions[target].status != Approved {
          return NotFound;
        }
        scope := OneVersion(target);
      }
      requests := requests[newId := Request(skillId, scope, user.id, Pending)];
      SetListingStatus(skillId, RemovalRequested);
      r := Done;
    }

    method OpenRequest(rid: Id, admin: User, allowSelf: bool) returns (r: Outcome)
      ensures r == RequestCheck(State(), rid, admin, allowSelf)
    {
      if rid !in requests { return NotFound; }
      var q := requests[rid];
      if q.status != Pending { return Conflict; }
      if q.skillId !in skills { return NotFound; }
      if skills[q.skillId].orgId != admin.orgId { return Forbidden; }
      if q.submittedBy == admin.id {
        if !allowSelf { return Forbidden; }
      }
      r := Done;
    }

    method GrantRemoval(rid: Id, admin: User, allowSelf: bool, next: Id) returns (r: Outcome)
      requires NextListed(State(), rid, next)
      modifies this
      ensures (State(), r) == ApproveRemoval(old(State()), rid, admin, allowSelf, next)
    {
      r := OpenRequest(rid, admin, allowSelf);
      if r != Done { return; }
      var q := requests[rid];
      if q.scope.OneVersion? {
        var target := q.scope.target;
        if target !in submissions || submissions[target].skillId != q.skillId
            || submissions[target].status != Approved {
          return NotFound;
        }
        if q.skillId !in listings || listings[q.skillId].orgId != admin.orgId { return Forbidden; }
        var remaining := set i | i in submissions && submissions[i].skillId == q.skillId
            && submissions[i].status == Approved && i != target;
        assert remaining == Remaining(State(), q.skillId, target);
        RemoveApproved(target, q.skillId, remaining, next);
      } else {
        if q.skillId !in listings || listings[q.skillId].orgId != admin.orgId { return Forbidden; }
        RemoveAllApproved(q.skillId);
        SetListingStatus(q.skillId, Delisted);
        SetSkillStatus(q.skillId, Ready);
      }
      SetRequestStatus(rid, Granted);
    }

    method DenyRemoval(rid: Id, admin: User, allowSelf: bool) returns (r: Outcome)
      modifies this
      ensures (State(), r) == RejectRemoval(old(State()), rid, admin, allowSelf)
    {
      r := OpenRequest(rid, admin, allowSelf);
      if r != Done { return; }
      var skillId := requests[rid].skillId;
      SetRequestStatus(rid, Denied);
      if skillId in listings && listings[skillId].status == RemovalRequested {
        SetListingStatus(skillId, Active);
        SetSkillStatus(skillId, Published);
      }
    }

    method TakeDown(skillId: Id, admin: User) returns (r: Outcome)
      modifies this
      ensures (State(), r) == RemoveFromMarketplace(old(State()), skillId, admin)
    {
      if skillId !in skills { return NotFound; }
      if skills[skillId].orgId != admin.orgId { return Forbidden; }
      RemoveAllApproved(skillId);
      SetListingStatus(skillId, Delisted);
      SetSkillStatus(skillId, Ready);
      r := Done;
    }

    method Delete(skillId: Id) returns (r: Outcome)
      modifies this
      ensures (State(), r) == DeleteSkill(old(State()), skillId)
    {
      var approved := FindSubmission(skillId, false);
      var removalPending := HasPendingRequest(skillId);
      var pendingReview := FindSubmission(skillId, true);
      if approved { return BadRequest; }
      if removalPending { return BadRequest; }
      if pendingReview { return Forbidden; }
      if skillId in listings || exists q :: q in requests && requests[q].skillId == skillId { return ForeignKey; }
      skills := skills - {skillId};
      snapshots := set p | p in snapshots && p.0 != skillId;
      submissions := map i | i in submissions && submissions[i].skillId != skillId :: submissions[i];
      r := Done;
    }
  }
}
