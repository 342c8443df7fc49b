/** The record shapes of the SIS API responses and the pure functions of
    sis2calgroups/sis.py that filter sections and enrollments and extract
    campus identifiers from them. A JSON key the code tests for before
    reading is an `Option` field; a key it reads unconditionally (and on
    whose absence it would raise) is a plain field. */
module Sis {
  import opened Wrappers
  import opened Seqs
  import opened Strings

  // ---------------------------------------------------------------------
  // Section descriptors and lecture filtering

  /** An entry of the descriptors endpoint: `{'code': ..., 'description': ...}`. */
  datatype Descriptor = Descriptor(code: string, description: string)

  /** The section-type keywords that mark a section whose roster is wanted. */
  const SectionCodes: set<string> := {"LEC", "SES", "WBL", "LAB"}

  /** The description shares a whole whitespace-separated word with `relevant`. */
  predicate HasSectionWord(description: string, relevant: set<string>) {
    exists w :: w in Words(description) && w in relevant
  }

  /** `filter_lectures`: the codes, in input order, of the descriptors whose
      description contains one of the relevant keywords as a whole word. */
  function FilterLectures(sections: seq<Descriptor>, relevant: set<string>): (codes: seq<string>)
    ensures |codes| <= |sections|
    ensures forall c :: c in codes ==>
      exists i :: 0 <= i < |sections| && sections[i].code == c
        && HasSectionWord(sections[i].description, relevant)
    ensures forall i :: 0 <= i < |sections| ==>
      HasSectionWord(sections[i].description, relevant) ==> sections[i].code in codes
  {
    if |sections| == 0 then []
    else
      var rest := FilterLectures(sections[1..], relevant);
      assert forall i :: 1 <= i < |sections| ==> sections[i] == sections[1..][i - 1];
      if HasSectionWord(sections[0].description, relevant) then [sections[0].code] + rest
      else rest
  }

  /** The filter works section by section: the codes of a concatenation are
      the codes of each part, in order. */
  lemma {:induction false} FilterLecturesConcat(a: seq<Descriptor>, b: seq<Descriptor>, relevant: set<string>)
    ensures FilterLectures(a + b, relevant) == FilterLectures(a, relevant) + FilterLectures(b, relevant)
    decreases |a|
  {
    if |a| == 0 {
      assert a + b == b;
    } else {
      assert (a + b)[1..] == a[1..] + b;
      FilterLecturesConcat(a[1..], b, relevant);
    }
  }

  /** Matching is on whole words: a description that is a single word
      qualifies only if it is itself a keyword ("LECTURE" and "XLAB" do not). */
  lemma WholeWordOnly(description: string, relevant: set<string>)
    requires IsWord(description)
    ensures HasSectionWord(description, relevant) <==> description in relevant
  {
    WordsOfWord(description);
  }

  /** A keyword anywhere between spaces qualifies the section. */
  lemma KeywordBetweenWords(words: seq<string>, i: nat, relevant: set<string>)
    requires forall j :: 0 <= j < |words| ==> IsWord(words[j])
    requires i < |words| && words[i] in relevant
    ensures HasSectionWord(Join(words, ' '), relevant)
  {
    WordsJoin(words);
    assert words[i] in Words(Join(words, ' '));
  }

  // ---------------------------------------------------------------------
  // Class sections and instructor extraction

  /** An identifier record: `{'type': ..., 'id': ..., 'disclose': ...}`;
      `disclose` may be absent. */
  datatype Identifier = Identifier(kind: string, id: string, disclose: Option<bool>)

  /** An entry of `assignedInstructors`; the field is `instructor.identifiers`,
      absent for unconfirmed instructors. */
  datatype AssignedInstructor = AssignedInstructor(identifiers: Option<seq<Identifier>>)

  /** A meeting; `assignedInstructors` may be absent. */
  datatype Meeting = Meeting(assignedInstructors: Option<seq<AssignedInstructor>>)

  /** A class section; `meetings` may be absent. `primary` is
      `association.primary`, which `section_is_primary` returns. */
  datatype ClassSection = ClassSection(meetings: Option<seq<Meeting>>, primary: bool)

  const CampusUidType: string := "campus-uid"

  /** An identifier whose id is reported: it carries a disclose flag, the
      flag is true, and it is a campus uid. */
  predicate Discloses(identifier: Identifier) {
    identifier.disclose == Some(true) && identifier.kind == CampusUidType
  }

  /** The disclosed campus uids among one instructor's identifiers. */
  function IdentifierUids(ids: seq<Identifier>): (uids: set<string>)
    ensures forall u :: u in uids <==>
      exists k :: 0 <= k < |ids| && Discloses(ids[k]) && ids[k].id == u
  {
    if |ids| == 0 then {}
    else
      var rest := IdentifierUids(ids[1..]);
      assert forall k :: 1 <= k < |ids| ==> ids[k] == ids[1..][k - 1];
      (if Discloses(ids[0]) then {ids[0].id} else {}) + rest
  }

  /** The disclosed campus uids of a meeting's instructors; an instructor
      without identifiers contributes nothing. */
  function InstructorUids(instructors: seq<AssignedInstructor>): (uids: set<string>)
    ensures forall u :: u in uids <==>
      exists a :: 0 <= a < |instructors| && instructors[a].identifiers.Some?
        && u in IdentifierUids(instructors[a].identifiers.value)
  {
    if |instructors| == 0 then {}
    else
      var rest := InstructorUids(instructors[1..]);
      assert forall a :: 1 <= a < |instructors| ==> instructors[a] == instructors[1..][a - 1];
      match instructors[0].identifiers
      case None => rest
      case Some(ids) => IdentifierUids(ids) + rest
  }

  /** The disclosed campus uids of the instructors of a list of meetings; a
      meeting without assigned instructors contributes nothing. */
  function MeetingUids(meetings: seq<Meeting>): (uids: set<string>)
    ensures forall u :: u in uids <==>
      exists m :: 0 <= m < |meetings| && meetings[m].assignedInstructors.Some?
        && u in InstructorUids(meetings[m].assignedInstructors.value)
  {
    if |meetings| == 0 then {}
    else
      var rest := MeetingUids(meetings[1..]);
      assert forall m :: 1 <= m < |meetings| ==> meetings[m] == meetings[1..][m - 1];
      match meetings[0].assignedInstructors
      case None => rest
      case Some(instructors) => InstructorUids(instructors) + rest
  }

  /** `filter_section_instructors`: the campus uids of a section's
      instructors; a section without meetings yields the empty set. */
  function SectionUids(section: ClassSection): (uids: set<string>)
    ensures section.meetings.None? ==> uids == {}
  {
    match section.meetings
    case None => {}
    case Some(meetings) => MeetingUids(meetings)
  }

  /** The identifier at a path meetings[m].assignedInstructors[a].identifiers[k]. */
  ghost predicate IdentifierAt(section: ClassSection, m: int, a: int, k: int, identifier: Identifier) {
    && section.meetings.Some?
    && 0 <= m < |section.meetings.value|
    && section.meetings.value[m].assignedInstructors.Some?
    && 0 <= a < |section.meetings.value[m].assignedInstructors.value|
    && section.meetings.value[m].assignedInstructors.value[a].identifiers.Some?
    && 0 <= k < |section.meetings.value[m].assignedInstructors.value[a].identifiers.value|
    && section.meetings.value[m].assignedInstructors.value[a].identifiers.value[k] == identifier
  }

  /** A uid is extracted from a section exactly when some identifier reachable
      through present meetings, assigned instructors and identifiers is
      disclosed, is a campus uid, and carries that id. */
  lemma SectionUidsSpec(section: ClassSection, u: string)
    ensures u in SectionUids(section) <==>
      exists m, a, k, identifier :: IdentifierAt(section, m, a, k, identifier)
        && Discloses(identifier) && identifier.id == u
  {
    if u in SectionUids(section) {
      var meetings := section.meetings.value;
      var m :| 0 <= m < |meetings| && meetings[m].assignedInstructors.Some?
        && u in InstructorUids(meetings[m].assignedInstructors.value);
      var instructors := meetings[m].assignedInstructors.value;
      var a :| 0 <= a < |instructors| && instructors[a].identifiers.Some?
        && u in IdentifierUids(instructors[a].identifiers.value);
      var ids := instructors[a].identifiers.value;
      var k :| 0 <= k < |ids| && Discloses(ids[k]) && ids[k].id == u;
      assert IdentifierAt(section, m, a, k, ids[k]);
    }
    if exists m, a, k, identifier :: IdentifierAt(section, m, a, k, identifier)
        && Discloses(identifier) && identifier.id == u {
      var m, a, k, identifier :| IdentifierAt(section, m, a, k, identifier)
        && Discloses(identifier) && identifier.id == u;
      var meetings := section.meetings.value;
      var instructors := meetings[m].assignedInstructors.value;
      var ids := instructors[a].identifiers.value;
      assert u in IdentifierUids(ids);
      assert u in InstructorUids(instructors);
      assert u in MeetingUids(meetings);
    }
  }

  // ---------------------------------------------------------------------
  // Enrollments

  /** An email record: `{'type': {'code': ...}, 'emailAddress': ...}`. */
  datatype Email = Email(typeCode: string, address: string)

  /** A student; `emails` may be absent. */
  datatype Student = Student(identifiers: seq<Identifier>, emails: Option<seq<Email>>)

  /** An enrollment; `status` is `enrollmentStatus.status.code`
      ('E', 'W' or 'D'), which `enrollment_status` returns. */
  datatype Enrollment = Enrollment(student: Student, status: string)

  const CampusEmailType: string := "CAMP"

  /** The campus uid of an enrollment's student: the id of the first
      identifier of type campus-uid, or None (Python's implicit `return None`). */
  function CampusUid(enrollment: Enrollment): (uid: Option<string>)
    ensures uid.None? <==>
      forall j :: 0 <= j < |enrollment.student.identifiers| ==>
        enrollment.student.identifiers[j].kind != CampusUidType
    ensures uid.Some? ==>
      exists i :: 0 <= i < |enrollment.student.identifiers|
        && enrollment.student.identifiers[i].kind == CampusUidType
        && enrollment.student.identifiers[i].id == uid.value
        && forall j :: 0 <= j < i ==> enrollment.student.identifiers[j].kind != CampusUidType
  {
    var ids := enrollment.student.identifiers;
    match Find((identifier: Identifier) => identifier.kind == CampusUidType, ids)
    case None => None
    case Some(i) => Some(ids[i].id)
  }

  /** The campus email of an enrollment's student: the address of the first
      email whose type code is CAMP; a student without emails has none. */
  function CampusEmail(enrollment: Enrollment): (email: Option<string>)
    ensures email.None? <==>
      forall j :: 0 <= j < |enrollment.student.emails.GetOr([])| ==>
        enrollment.student.emails.GetOr([])[j].typeCode != CampusEmailType
    ensures email.Some? ==>
      exists i :: 0 <= i < |enrollment.student.emails.GetOr([])|
        && enrollment.student.emails.GetOr([])[i].typeCode == CampusEmailType
        && enrollment.student.emails.GetOr([])[i].address == email.value
        && forall j :: 0 <= j < i ==> enrollment.student.emails.GetOr([])[j].typeCode != CampusEmailType
  {
    var emails := enrollment.student.emails.GetOr([]);
    match Find((e: Email) => e.typeCode == CampusEmailType, emails)
    case None => None
    case Some(i) => Some(emails[i].address)
  }

  /** `get_enrollment_uids`: one entry per enrollment, in order. */
  function GetEnrollmentUids(enrollments: seq<Enrollment>): (uids: seq<Option<string>>)
    ensures |uids| == |enrollments|
    ensures forall i :: 0 <= i < |enrollments| ==> uids[i] == CampusUid(enrollments[i])
  {
    seq(|enrollments|, i requires 0 <= i < |enrollments| => CampusUid(enrollments[i]))
  }

  /** `get_enrollment_emails`: one entry per enrollment, in order. */
  function GetEnrollmentEmails(enrollments: seq<Enrollment>): (emails: seq<Option<string>>)
    ensures |emails| == |enrollments|
    ensures forall i :: 0 <= i < |enrollments| ==> emails[i] == CampusEmail(enrollments[i])
  {
    seq(|enrollments|, i requires 0 <= i < |enrollments| => CampusEmail(enrollments[i]))
  }

  /** Extracting uids commutes with concatenating enrollment lists. */
  lemma GetEnrollmentUidsConcat(a: seq<Enrollment>, b: seq<Enrollment>)
    ensures GetEnrollmentUids(a + b) == GetEnrollmentUids(a) + GetEnrollmentUids(b)
  {
  }

  /** `filter_enrollment_status`: the enrollments whose status code is
      exactly `status`, in their original order. */
  function FilterEnrollmentStatus(enrollments: seq<Enrollment>, status: string): (kept: seq<Enrollment>)
    ensures forall i :: 0 <= i < |kept| ==> kept[i].status == status
    ensures forall i :: 0 <= i < |enrollments| ==>
      enrollments[i].status == status ==> enrollments[i] in kept
    ensures forall e :: e in kept ==> e in enrollments
    ensures forall e :: multiset(kept)[e] == if e.status == status then multiset(enrollments)[e] else 0
  {
    var p := (e: Enrollment) => e.status == status;
    var kept := Filter(p, enrollments);
    forall e ensures multiset(kept)[e] == if e.status == status then multiset(enrollments)[e] else 0 {
      FilterMultiset(p, enrollments, e);
    }
    kept
  }

  /** Filtering by status preserves order: it distributes over concatenation. */
  lemma FilterEnrollmentStatusConcat(a: seq<Enrollment>, b: seq<Enrollment>, status: string)
    ensures FilterEnrollmentStatus(a + b, status)
      == FilterEnrollmentStatus(a, status) + FilterEnrollmentStatus(b, status)
  {
    FilterConcat((e: Enrollment) => e.status == status, a, b);
  }

  /** Enrollments with different status codes land in disjoint filters. */
  lemma FilterEnrollmentStatusDisjoint(enrollments: seq<Enrollment>, s1: string, s2: string)
    requires s1 != s2
    ensures multiset(FilterEnrollmentStatus(enrollments, s1)) !! multiset(FilterEnrollmentStatus(enrollments, s2))
  {
    var a := multiset(FilterEnrollmentStatus(enrollments, s1));
    var b := multiset(FilterEnrollmentStatus(enrollments, s2));
    forall e ensures a[e] == 0 || b[e] == 0 {
    }
  }
}
