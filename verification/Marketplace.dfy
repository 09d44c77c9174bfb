/** The marketplace tables and what each service method does to them
    (packages/backend/src/marketplace/marketplace-submission.service.ts, marketplace.service.ts,
    and the marketplace-facing part of packages/backend/src/skills/skills.service.ts). */
module Marketplace {
  import opened Common

  type Id = nat

  /** Version strings match /^[1-9]\d*$/, so they are positive integers. */
  type Version = v: int | 1 <= v witness 1

  datatype SkillStatus = Draft | Ready | InReview | Published
  datatype SubmissionStatus = PendingReview | Approved | Rejected | Removed
  datatype ListingStatus = Active | RemovalRequested | Delisted
  datatype RequestStatus = Pending | Granted | Denied
  datatype Scope = WholeSkill | OneVersion(target: Id)

  datatype Skill = Skill(ownerId: Id, orgId: Id, status: SkillStatus)
  datatype Submission = Submission(skillId: Id, version: Version, submittedBy: Id, status: SubmissionStatus)
  datatype Listing = Listing(orgId: Id, submissionId: Id, version: Version, status: ListingStatus)
  datatype Request = Request(skillId: Id, scope: Scope, submittedBy: Id, status: RequestStatus)
  datatype User = User(id: Id, orgId: Id)

  datatype Tables = Tables(
    skills: map<Id, Skill>,
    snapshots: set<(Id, Version)>,
    submissions: map<Id, Submission>,
    listings: map<Id, Listing>,
    requests: map<Id, Request>)

  datatype Outcome = Done | NotFound | Forbidden | Conflict | BadRequest | ForeignKey

  // ------------------------------------------------------------------- row lookups

  predicate IsPending(t: Tables, i: Id, skillId: Id) {
    i in t.submissions && t.submissions[i].skillId == skillId && t.submissions[i].status == PendingReview
  }

  predicate IsApproved(t: Tables, i: Id, skillId: Id) {
    i in t.submissions && t.submissions[i].skillId == skillId && t.submissions[i].status == Approved
  }

  predicate IsRequested(t: Tables, r: Id, skillId: Id) {
    r in t.requests && t.requests[r].skillId == skillId && t.requests[r].status == Pending
  }

  predicate HasPending(t: Tables, skillId: Id) {
    exists i :: i in t.submissions && IsPending(t, i, skillId)
  }

  predicate HasApproved(t: Tables, skillId: Id) {
    exists i :: i in t.submissions && IsApproved(t, i, skillId)
  }

  predicate HasRequest(t: Tables, skillId: Id) {
    exists r :: r in t.requests && IsRequested(t, r, skillId)
  }

  predicate Live(t: Tables, skillId: Id) {
    skillId in t.listings && t.listings[skillId].status != Delisted
  }

  /** The approved submissions of a skill other than the one being removed. */
  function Remaining(t: Tables, skillId: Id, removed: Id): set<Id> {
    set i | i in t.submissions && IsApproved(t, i, skillId) && i != removed
  }

  // ------------------------------------------------------------------- row updates

  function WithSkillStatus(t: Tables, id: Id, status: SkillStatus): Tables {
    if id in t.skills then t.(skills := t.skills[id := t.skills[id].(status := status)]) else t
  }

  function WithSubmissionStatus(t: Tables, id: Id, status: SubmissionStatus): Tables {
    if id in t.submissions then t.(submissions := t.submissions[id := t.submissions[id].(status := status)]) else t
  }

  function WithListingStatus(t: Tables, id: Id, status: ListingStatus): Tables {
    if id in t.listings then t.(listings := t.listings[id := t.listings[id].(status := status)]) else t
  }

  function WithRequestStatus(t: Tables, id: Id, status: RequestStatus): Tables {
    if id in t.requests then t.(requests := t.requests[id := t.requests[id].(status := status)]) else t
  }

  /** One UPDATE over every approved submission of the skill. */
  function WithApprovedRemoved(t: Tables, skillId: Id): Tables {
    t.(submissions := map i | i in t.submissions ::
         if IsApproved(t, i, skillId) then t.submissions[i].(status := Removed) else t.submissions[i])
  }

  /** The listing points at a submission and becomes active; the organisation of an existing
      row is kept. */
  function WithListed(t: Tables, sid: Id): Tables
    requires sid in t.submissions
  {
    var s := t.submissions[sid];
    var org := if s.skillId in t.listings then t.listings[s.skillId].orgId
               else if s.skillId in t.skills then t.skills[s.skillId].orgId else 0;
    t.(listings := t.listings[s.skillId := Listing(org, sid, s.version, Active)])
  }

  // -------------------------------------------------------------------- operations

  function Submit(t: Tables, skillId: Id, version: Version, hasNote: bool, user: User, newId: Id): (Tables, Outcome) {
    if skillId !in t.skills then (t, NotFound)
    else if t.skills[skillId].ownerId != user.id then (t, Forbidden)
    else if HasPending(t, skillId) then (t, Conflict)
    else if exists i :: i in t.submissions && IsApproved(t, i, skillId) && t.submissions[i].version == version
    then (t, Conflict)
    else if skillId in t.listings && t.listings[skillId].status == Active
         && version < t.listings[skillId].version && !hasNote
    then (t, BadRequest)
    else
      var t1 := t.(submissions := t.submissions[newId := Submission(skillId, version, user.id, PendingReview)]);
      (WithSkillStatus(t1, skillId, InReview), Done)
  }

  /** The org-scoped lookup, the ownership check and the self-review check that open a review. */
  function ReviewCheck(t: Tables, sid: Id, admin: User, allowSelf: bool): Outcome {
    if sid !in t.submissions then NotFound
    else
      var s := t.submissions[sid];
      if s.status != PendingReview || s.skillId !in t.skills || t.skills[s.skillId].orgId != admin.orgId then NotFound
      else if s.submittedBy == admin.id && !allowSelf then Forbidden
      else Done
  }

  function Approve(t: Tables, sid: Id, admin: User, allowSelf: bool): (Tables, Outcome) {
    var check := ReviewCheck(t, sid, admin, allowSelf);
    if check != Done then (t, check)
    else
      var s := t.submissions[sid];
      if (s.skillId, s.version) !in t.snapshots then (t, BadRequest)
      else (WithSkillStatus(WithListed(WithSubmissionStatus(t, sid, Approved), sid), s.skillId, Published), Done)
  }

  function Reject(t: Tables, sid: Id, admin: User, allowSelf: bool): (Tables, Outcome) {
    var check := ReviewCheck(t, sid, admin, allowSelf);
    if check != Done then (t, check)
    else
      var s := t.submissions[sid];
      var t1 := WithSubmissionStatus(t, sid, Rejected);
      (WithSkillStatus(t1, s.skillId, if HasApproved(t1, s.skillId) then Published else Ready), Done)
  }

  /** The transaction shared by the two ways of removing one version. `next` is the row that
      the query over the remaining versions lists first. */
  function RemoveOne(t: Tables, sid: Id, skillId: Id, next: Id): Tables
    requires Remaining(t, skillId, sid) != {} ==> next in Remaining(t, skillId, sid)
  {
    var t1 := WithSubmissionStatus(t, sid, Removed);
    if Remaining(t, skillId, sid) == {} then
      WithSkillStatus(WithListingStatus(t1, skillId, Delisted), skillId, Ready)
    else WithListed(t1, next)
  }

  function RemoveVersion(t: Tables, sid: Id, admin: User, next: Id): (Tables, Outcome)
    requires sid in t.submissions ==> var k := t.submissions[sid].skillId;
               Remaining(t, k, sid) != {} ==> next in Remaining(t, k, sid)
  {
    if sid !in t.submissions then (t, NotFound)
    else
      var s := t.submissions[sid];
      if s.status != Approved then (t, Conflict)
      else if s.skillId !in t.skills then (t, NotFound)
      else if t.skills[s.skillId].orgId != admin.orgId then (t, Forbidden)
      else if s.skillId !in t.listings || t.listings[s.skillId].orgId != admin.orgId then (t, Forbidden)
      else (RemoveOne(t, sid, s.skillId, next), Done)
  }

  datatype AskedScope = AskSkill | AskVersion(target: Option<Id>)

  function RequestRemoval(t: Tables, skillId: Id, user: User, asked: AskedScope, newId: Id): (Tables, Outcome) {
    if skillId !in t.skills then (t, NotFound)
    else if t.skills[skillId].ownerId != user.id then (t, Forbidden)
    else if skillId !in t.listings || t.listings[skillId].orgId != user.orgId
         || t.listings[skillId].status == Delisted
    then (t, BadRequest)
    else if HasRequest(t, skillId) then (t, Conflict)
    else if asked.AskVersion? && asked.target.None? then (t, BadRequest)
    else if asked.AskVersion? && !IsApproved(t, asked.target.value, skillId) then (t, NotFound)
    else
      var scope := if asked.AskSkill? then WholeSkill else OneVersion(asked.target.value);
      var t1 := t.(requests := t.requests[newId := Request(skillId, scope, user.id, Pending)]);
      (WithListingStatus(t1, skillId, RemovalRequested), Done)
  }

  /** What approving and rejecting a removal request check first. */
  function RequestCheck(t: Tables, rid: Id, admin: User, allowSelf: bool): Outcome {
    if rid !in t.requests then NotFound
    else
      var r := t.requests[rid];
      if r.status != Pending then Conflict
      else if r.skillId !in t.skills then NotFound
      else if t.skills[r.skillId].orgId != admin.orgId then Forbidden
      else if r.submittedBy == admin.id && !allowSelf then Forbidden
      else Done
  }

  predicate NextListed(t: Tables, rid: Id, next: Id) {
    rid in t.requests && t.requests[rid].scope.OneVersion? ==>
      var r := t.requests[rid];
      Remaining(t, r.skillId, r.scope.target) != {} ==> next in Remaining(t, r.skillId, r.scope.target)
  }

  function ApproveRemoval(t: Tables, rid: Id, admin: User, allowSelf: bool, next: Id): (Tables, Outcome)
    requires NextListed(t, rid, next)
  {
    var check := RequestCheck(t, rid, admin, allowSelf);
    if check != Done then (t, check)
    else
      var r := t.requests[rid];
      if r.scope.OneVersion? && !IsApproved(t, r.scope.target, r.skillId) then (t, NotFound)
      else if r.skillId !in t.listings || t.listings[r.skillId].orgId != admin.orgId then (t, Forbidden)
      else
        var t1 :=
          if r.scope.OneVersion? then RemoveOne(t, r.scope.target, r.skillId, next)
          else WithSkillStatus(WithListingStatus(WithApprovedRemoved(t, r.skillId), r.skillId, Delisted), r.skillId,
              Ready);
        (WithRequestStatus(t1, rid, Granted), Done)
  }

  function RejectRemoval(t: Tables, rid: Id, admin: User, allowSelf: bool): (Tables, Outcome) {
    var check := RequestCheck(t, rid, admin, allowSelf);
    if check != Done then (t, check)
    else
      var skillId := t.requests[rid].skillId;
      var t1 := WithRequestStatus(t, rid, Denied);
      if skillId in t1.listings && t1.listings[skillId].status == RemovalRequested then
        (WithSkillStatus(WithListingStatus(t1, skillId, Active), skillId, Published), Done)
      else (t1, Done)
  }

  function RemoveFromMarketplace(t: Tables, skillId: Id, admin: User): (Tables, Outcome) {
    if skillId !in t.skills then (t, NotFound)
    else if t.skills[skillId].orgId != admin.orgId then (t, Forbidden)
    else (WithSkillStatus(WithListingStatus(WithApprovedRemoved(t, skillId), skillId, Delisted), skillId, Ready), Done)
  }

  /** The rows that refer to a skill without ON DELETE CASCADE. */
  predicate Referenced(t: Tables, skillId: Id) {
    skillId in t.listings || exists r :: r in t.requests && t.requests[r].skillId == skillId
  }

  function DeleteSkill(t: Tables, skillId: Id): (Tables, Outcome) {
    if HasApproved(t, skillId) then (t, BadRequest)
    else if HasRequest(t, skillId) then (t, BadRequest)
    else if HasPending(t, skillId) then (t, Forbidden)
    else if Referenced(t, skillId) then (t, ForeignKey)
    else
      (t.(skills := t.skills - {skillId},
          snapshots := (set p | p in t.snapshots && p.0 != skillId),
          submissions := (map i | i in t.submissions && t.submissions[i].skillId != skillId :: t.submissions[i])), Done)
  }

  // ------------------------------------------------------------------------- reads

  datatype Metadata = Metadata(status: SkillStatus, publishedVersion: Option<Version>)

  function GetMetadata(t: Tables, skillId: Id): Option<Metadata> {
    if skillId !in t.skills then None
    else
      var stored := t.skills[skillId].status;
      if skillId in t.listings && t.listings[skillId].status == Active then
        Some(Metadata(if stored == InReview then InReview else Published, Some(t.listings[skillId].version)))
      else Some(Metadata(stored, None))
  }

  datatype Detail = Detail(listing: Listing, submittedBy: Option<Id>)

  function FindDetail(t: Tables, skillId: Id, orgId: Id): Option<Detail> {
    if skillId !in t.listings then None
    else
      var l := t.listings[skillId];
      if l.status != Active || l.orgId != orgId then None
      else if (skillId, l.version) !in t.snapshots then None
      else
        var s := l.submissionId;
        Some(Detail(l, if s in t.submissions then Some(t.submissions[s].submittedBy) else None))
  }

  // -------------------------------------------------------------------------- runs

  datatype Op =
    | DoCreateSkill(newId: Id, owner: User, status: SkillStatus)
    | DoSaveSnapshot(skillId: Id, version: Version)
    | DoEditStatus(skillId: Id, status: SkillStatus)
    | DoSubmit(skillId: Id, version: Version, hasNote: bool, user: User, newId: Id)
    | DoApprove(sid: Id, admin: User, allowSelf: bool)
    | DoReject(sid: Id, admin: User, allowSelf: bool)
    | DoRemoveVersion(sid: Id, admin: User, next: Id)
    | DoRequestRemoval(skillId: Id, user: User, asked: AskedScope, newId: Id)
    | DoApproveRemoval(rid: Id, admin: User, allowSelf: bool, next: Id)
    | DoRejectRemoval(rid: Id, admin: User, allowSelf: bool)
    | DoRemoveFromMarketplace(skillId: Id, admin: User)
    | DoDeleteSkill(skillId: Id)

  /** New ids are fresh, a new skill is a draft or ready, and `next` is a row the query returns. */
  predicate Legal(t: Tables, op: Op) {
    match op
    case DoCreateSkill(newId, _, status) =>
      newId !in t.skills && (status == Draft || status == Ready)
    case DoSubmit(_, _, _, _, newId) => newId !in t.submissions
    case DoRequestRemoval(_, _, _, newId) => newId !in t.requests
    case DoRemoveVersion(sid, _, next) =>
      sid in t.submissions ==> var k := t.submissions[sid].skillId;
        Remaining(t, k, sid) != {} ==> next in Remaining(t, k, sid)
    case DoApproveRemoval(rid, _, _, next) => NextListed(t, rid, next)
    case _ => true
  }

  function Step(t: Tables, op: Op): (Tables, Outcome)
    requires Legal(t, op)
  {
    match op
    case DoCreateSkill(newId, owner, status) =>
        (t.(skills := t.skills[newId := Skill(owner.id, owner.orgId, status)]), Done)
    case DoSaveSnapshot(skillId, version) =>
      if skillId in t.skills then (t.(snapshots := t.snapshots + {(skillId, version)}), Done) else (t, NotFound)
    case DoEditStatus(skillId, status) =>
      if skillId in t.skills then (WithSkillStatus(t, skillId, status), Done) else (t, NotFound)
    case DoSubmit(skillId, version, hasNote, user, newId) => Submit(t, skillId, version, hasNote, user, newId)
    case DoApprove(sid, admin, allowSelf) => Approve(t, sid, admin, allowSelf)
    case DoReject(sid, admin, allowSelf) => Reject(t, sid, admin, allowSelf)
    case DoRemoveVersion(sid, admin, next) => RemoveVersion(t, sid, admin, next)
    case DoRequestRemoval(skillId, user, asked, newId) => RequestRemoval(t, skillId, user, asked, newId)
    case DoApproveRemoval(rid, admin, allowSelf, next) => ApproveRemoval(t, rid, admin, allowSelf, next)
    case DoRejectRemoval(rid, admin, allowSelf) => RejectRemoval(t, rid, admin, allowSelf)
    case DoRemoveFromMarketplace(skillId, admin) => RemoveFromMarketplace(t, skillId, admin)
    case DoDeleteSkill(skillId) => DeleteSkill(t, skillId)
  }

  predicate LegalRun(t: Tables, ops: seq<Op>)
    decreases |ops|
  {
    ops == [] || (Legal(t, ops[0]) && LegalRun(Step(t, ops[0]).0, ops[1..]))
  }

  function Run(t: Tables, ops: seq<Op>): Tables
    requires LegalRun(t, ops)
    decreases |ops|
  {
    if ops == [] then t else Run(Step(t, ops[0]).0, ops[1..])
  }

  const EMPTY := Tables(map[], {}, map[], map[], map[])
}
