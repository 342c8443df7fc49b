/** sis2calgroups/grouper.py: the request bodies sent to the Grouper
    (CalGroups) web service and the interpretation of its JSON replies.
    The HTTP round trip itself is not modelled: a reply is a parameter. */
module Grouper {
  import opened Wrappers

  /** The `resultMetadata` object of a reply. */
  datatype Meta = Meta(resultCode: string, resultMessage: string)

  /** A decoded reply: its top-level keys, each with its `resultMetadata`. */
  type Response = map<string, Meta>

  const ProblemKey: string := "WsRestResultProblem"
  const StemResultKey: string := "WsStemSaveLiteResult"
  const GroupResultKey: string := "WsGroupSaveLiteResult"

  /** The result codes a save accepts: both make a repeated save harmless. */
  const AcceptedCodes: set<string> := {"SUCCESS_INSERTED", "SUCCESS_NO_CHANGES_NEEDED"}

  /** The exception a call raises: the problem's message (stem save), the
      problem's whole metadata (group save, member replace), or
      "code: message" for a rejected result code. */
  datatype Failure = ProblemMessage(message: string) | ProblemMeta(meta: Meta) | RejectedCode(text: string)

  /** Body of `create_stem`: `WsRestStemSaveLiteRequest`. */
  datatype StemSaveRequest = StemSaveRequest(description: string, displayExtension: string, stemName: string)

  /** Body of `create_group`: `WsRestGroupSaveLiteRequest`. */
  datatype GroupSaveRequest = GroupSaveRequest(description: string, displayExtension: string, groupName: string)

  /** One `{"subjectId": user}` entry; `None` is a JSON null (a student
      without a campus uid). */
  datatype SubjectLookup = SubjectLookup(subjectId: Option<string>)

  /** Body of `replace_users`: `WsRestAddMemberRequest`. */
  datatype AddMemberRequest = AddMemberRequest(replaceAllExisting: string, subjectLookups: seq<SubjectLookup>)

  function StemSaveBody(stem: string, name: string): (body: StemSaveRequest)
    ensures body.description == name && body.displayExtension == name
    ensures body.stemName == stem
  {
    StemSaveRequest(name, name, stem)
  }

  function GroupSaveBody(group: string, name: string): (body: GroupSaveRequest)
    ensures body.description == name && body.displayExtension == name
    ensures body.groupName == group
  {
    GroupSaveRequest(name, name, group)
  }

  /** The users handed to `replace_users`: a list (student uids, one entry
      per enrollment, None for a student without a campus uid) or a set
      (staff uids), which Python iterates in some order. */
  datatype Members = Listed(uids: seq<Option<string>>) | Unordered(uidSet: set<string>)

  /** The body of `replace_users`, built by appending one lookup per user
      in iteration order. */
  method ReplaceUsersBody(users: Members) returns (body: AddMemberRequest)
    ensures body.replaceAllExisting == "T"
    ensures users.Listed? ==>
      && |body.subjectLookups| == |users.uids|
      && forall i :: 0 <= i < |users.uids| ==> body.subjectLookups[i].subjectId == users.uids[i]
    ensures users.Unordered? ==>
      && |body.subjectLookups| == |users.uidSet|
      && (forall l :: l in body.subjectLookups ==> l.subjectId.Some? && l.subjectId.value in users.uidSet)
      && (forall u :: u in users.uidSet ==> SubjectLookup(Some(u)) in body.subjectLookups)
  {
    var lookups: seq<SubjectLookup> := [];
    match users {
    case Listed(uids) =>
      var i := 0;
      while i < |uids|
        invariant 0 <= i <= |uids|
        invariant |lookups| == i
        invariant forall j :: 0 <= j < i ==> lookups[j].subjectId == uids[j]
      {
        lookups := lookups + [SubjectLookup(uids[i])];
        i := i + 1;
      }
    case Unordered(uidSet) =>
      var rest := uidSet;
      while rest != {}
        invariant rest <= uidSet
        invariant |lookups| + |rest| == |uidSet|
        invariant forall l :: l in lookups ==> l.subjectId.Some? && l.subjectId.value in uidSet - rest
        invariant forall u :: u in uidSet ==> u in rest || SubjectLookup(Some(u)) in lookups
        decreases |rest|
      {
        var u :| u in rest;
        lookups := lookups + [SubjectLookup(Some(u))];
        rest := rest - {u};
      }
    }
    body := AddMemberRequest("T", lookups);
  }

  /** The result-code check shared by both saves: a reply carrying the
      result key is rejected unless its code is accepted; a reply without
      the key passes. */
  function CheckResultCode(out: Response, resultKey: string): (r: Result<Response, Failure>)
    ensures r.Failure? <==> resultKey in out && out[resultKey].resultCode !in AcceptedCodes
    ensures r.Failure? ==>
      r.error == RejectedCode(out[resultKey].resultCode + ": " + out[resultKey].resultMessage)
    ensures r.Success? ==> r.value == out
  {
    if resultKey in out && out[resultKey].resultCode !in AcceptedCodes then
      Failure(RejectedCode(out[resultKey].resultCode + ": " + out[resultKey].resultMessage))
    else Success(out)
  }

  /** A reply the saves reject: a problem envelope, or a result whose code
      is not accepted. */
  predicate SaveRejected(out: Response, resultKey: string) {
    ProblemKey in out || (resultKey in out && out[resultKey].resultCode !in AcceptedCodes)
  }

  /** `create_stem`'s verdict on a reply. */
  function CreateStemOutcome(out: Response): (r: Result<Response, Failure>)
    ensures r.Failure? <==> SaveRejected(out, StemResultKey)
    ensures ProblemKey in out ==> r == Failure(ProblemMessage(out[ProblemKey].resultMessage))
    ensures r.Success? ==> r.value == out
  {
    if ProblemKey in out then Failure(ProblemMessage(out[ProblemKey].resultMessage))
    else CheckResultCode(out, StemResultKey)
  }

  /** `create_group`'s verdict on a reply. */
  function CreateGroupOutcome(out: Response): (r: Result<Response, Failure>)
    ensures r.Failure? <==> SaveRejected(out, GroupResultKey)
    ensures ProblemKey in out ==> r == Failure(ProblemMeta(out[ProblemKey]))
    ensures r.Success? ==> r.value == out
  {
    if ProblemKey in out then Failure(ProblemMeta(out[ProblemKey]))
    else CheckResultCode(out, GroupResultKey)
  }

  /** `replace_users`' verdict on a reply: only a problem envelope fails. */
  function ReplaceUsersOutcome(out: Response): (r: Result<(), Failure>)
    ensures r.Failure? <==> ProblemKey in out
    ensures r.Failure? ==> r.error == ProblemMeta(out[ProblemKey])
  {
    if ProblemKey in out then Failure(ProblemMeta(out[ProblemKey])) else Success(())
  }

  /** The problem check comes first: a reply with a problem envelope fails
      with the problem even when it also carries an accepted result code. */
  lemma ProblemPrecedesResultCode(out: Response)
    requires ProblemKey in out
    ensures CreateStemOutcome(out) == Failure(ProblemMessage(out[ProblemKey].resultMessage))
    ensures CreateGroupOutcome(out) == Failure(ProblemMeta(out[ProblemKey]))
  {
  }

  /** A reply with neither the problem key nor the result key is taken as
      success: the saves fail open on an unrecognised reply. */
  lemma SavesFailOpen(out: Response)
    requires ProblemKey !in out && StemResultKey !in out && GroupResultKey !in out
    ensures CreateStemOutcome(out) == Success(out)
    ensures CreateGroupOutcome(out) == Success(out)
    ensures ReplaceUsersOutcome(out) == Success(())
  {
  }

  /** Saving twice is harmless: whether the first save inserts and the
      second finds nothing to change, or both find nothing to change,
      neither reply fails. */
  lemma RepeatedSaveSucceeds(first: Response, second: Response, resultKey: string)
    requires resultKey == StemResultKey || resultKey == GroupResultKey
    requires ProblemKey !in first && ProblemKey !in second
    requires resultKey in first && first[resultKey].resultCode == "SUCCESS_INSERTED"
    requires resultKey in second && second[resultKey].resultCode == "SUCCESS_NO_CHANGES_NEEDED"
    ensures resultKey == StemResultKey ==> CreateStemOutcome(first).Success? && CreateStemOutcome(second).Success?
    ensures resultKey == GroupResultKey ==> CreateGroupOutcome(first).Success? && CreateGroupOutcome(second).Success?
  {
  }
}
