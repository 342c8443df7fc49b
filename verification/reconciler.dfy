/** The pure decisions of sis2calgroups/__main__.py: the credentials key
    check, term and subgroup argument parsing, the course name, and how
    the fetched SIS data is shaped into one member list per subgroup. */
module Reconciler {
  import opened Wrappers
  import opened Seqs
  import opened Strings
  import opened Sis
  import opened SisPaging
  import opened Grouper

  // ---------------------------------------------------------------------
  // Credentials

  /** `has_all_keys`: every required key is a key of the object. */
  function HasAllKeys(keysOfData: set<string>, keys: seq<string>): (r: bool)
    ensures r <==> forall i :: 0 <= i < |keys| ==> keys[i] in keysOfData
  {
    if |keys| == 0 then true
    else
      assert forall i :: 1 <= i < |keys| ==> keys[i] == keys[1..][i - 1];
      keys[0] in keysOfData && HasAllKeys(keysOfData, keys[1..])
  }

  /** The missing set reported by `read_json_data`: the required keys
      minus the keys present. */
  function MissingKeys(keysOfData: set<string>, keys: seq<string>): (missing: set<string>)
    ensures forall k :: k in missing <==> k in keys && k !in keysOfData
  {
    (set k | k in keys) - keysOfData
  }

  /** The key check fails exactly when something is missing. */
  lemma MissingKeysWhenCheckFails(keysOfData: set<string>, keys: seq<string>)
    ensures !HasAllKeys(keysOfData, keys) <==> MissingKeys(keysOfData, keys) != {}
  {
    if !HasAllKeys(keysOfData, keys) {
      var i :| 0 <= i < |keys| && keys[i] !in keysOfData;
      assert keys[i] in MissingKeys(keysOfData, keys);
    }
  }

  /** The exception `read_json_data` raises when keys are missing. */
  datatype ConfigError = MissingParameters(missing: set<string>)

  /** The validation step of `read_json_data` on an already decoded object. */
  function CheckRequiredKeys(data: map<string, string>, keys: seq<string>): (r: Result<map<string, string>, ConfigError>)
    ensures r.Success? <==> forall i :: 0 <= i < |keys| ==> keys[i] in data
    ensures r.Success? ==> r.value == data
    ensures r.Failure? ==> r.error.missing != {} && r.error.missing == MissingKeys(data.Keys, keys)
  {
    if HasAllKeys(data.Keys, keys) then Success(data)
    else
      MissingKeysWhenCheckFails(data.Keys, keys);
      Failure(MissingParameters(MissingKeys(data.Keys, keys)))
  }

  // ---------------------------------------------------------------------
  // Arguments

  const TermPositions: seq<string> := ["Current", "Next", "Previous"]

  /** `valid_term`: a digit string or a temporal position is accepted and
      returned unchanged; anything else is an argument error. */
  function ValidTerm(s: string): (r: Result<string, string>)
    ensures r.Success? <==> IsDigits(s) || s in TermPositions
    ensures r.Success? ==> r.value == s
  {
    if IsDigits(s) || s in TermPositions then Success(s)
    else Failure(s + " is not a term id or one of ['Current', 'Next', 'Previous']")
  }

  /** An accepted term is looked up exactly when it is a temporal
      position; a numeric id passes through `normalize_term_id`. */
  lemma ValidTermLookup(s: string)
    requires ValidTerm(s).Success?
    ensures NeedsTermLookup(Some(s)) <==> s in TermPositions
  {
    assert forall p :: p in TermPositions ==> IsAlphas(p);
    if IsDigits(s) {
      DigitsAreNotAlpha(s);
    }
  }

  /** `csv_list`. */
  function CsvList(s: string): (items: seq<string>)
    ensures |items| >= 1
    ensures forall i :: 0 <= i < |items| ==> ',' !in items[i]
  {
    Split(s, ',')
  }

  /** `csv_list` inverts `",".join` on a non-empty list of comma-free names. */
  lemma CsvListJoin(xs: seq<string>)
    requires |xs| >= 1
    requires forall i :: 0 <= i < |xs| ==> ',' !in xs[i]
    ensures CsvList(Join(xs, ',')) == xs
  {
    SplitJoin(xs, ',');
  }

  /** The subgroups created by default. */
  const DefaultSubgroups: seq<string> := ["enrolled", "waitlisted", "instructors", "gsis"]

  /** The default `-S` value parses back to the default subgroup list. */
  lemma DefaultSubgroupsRoundTrip()
    ensures CsvList(Join(DefaultSubgroups, ',')) == DefaultSubgroups
  {
    CsvListJoin(DefaultSubgroups);
  }

  /** `course_name`: subject, a dash, catalog number, with no case change
      (the subject is lower-cased by the caller). */
  function CourseName(subject: string, catalog: string): (name: string)
    ensures |name| == |subject| + 1 + |catalog|
    ensures name[..|subject|] == subject && name[|subject|] == '-' && name[|subject| + 1..] == catalog
  {
    subject + "-" + catalog
  }

  /** The course name determines the subject and number when the subject
      has no dash. */
  lemma CourseNameInjective(s1: string, c1: string, s2: string, c2: string)
    requires '-' !in s1 && '-' !in s2
    requires CourseName(s1, c1) == CourseName(s2, c2)
    ensures s1 == s2 && c1 == c2
  {
  }

  // ---------------------------------------------------------------------
  // Subgroup members

  /** The enrollment status code each student subgroup selects. */
  const SubgroupStatuses: map<string, string> := map["enrolled" := "E", "waitlisted" := "W", "dropped" := "D"]

  const StaffSubgroups: set<string> := {"instructors", "gsis"}

  /** The requested subgroups that are filled from enrollments. */
  function StudentSubgroups(subgroups: seq<string>): (r: set<string>)
    ensures forall sg :: sg in r <==> sg in subgroups && sg in SubgroupStatuses
  {
    set sg | sg in subgroups && sg in SubgroupStatuses
  }

  /** Enrollments are fetched when a student subgroup is requested. */
  function NeedsEnrollments(subgroups: seq<string>): (needed: bool)
    ensures needed <==> "enrolled" in subgroups || "waitlisted" in subgroups || "dropped" in subgroups
  {
    StudentSubgroups(subgroups) != {}
  }

  /** Sections are fetched when a staff subgroup is requested. */
  function NeedsSections(subgroups: seq<string>): (needed: bool)
    ensures needed <==> "instructors" in subgroups || "gsis" in subgroups
  {
    exists sg :: sg in subgroups && sg in StaffSubgroups
  }

  /** The student part of the uid map: for every requested student
      subgroup, the uids of the enrollments with its status code. */
  function StudentUids(subgroups: seq<string>, enrollments: seq<Enrollment>): (uids: map<string, Members>)
    ensures uids.Keys == StudentSubgroups(subgroups)
    ensures forall sg :: sg in uids ==> uids[sg].Listed?
  {
    map sg | sg in StudentSubgroups(subgroups) ::
      Listed(GetEnrollmentUids(FilterEnrollmentStatus(enrollments, SubgroupStatuses[sg])))
  }

  /** The uids of the enrollments with one status code: one entry per
      such enrollment, each its campus uid, and no other entries. */
  lemma UidsOfStatus(enrollments: seq<Enrollment>, code: string)
    ensures |GetEnrollmentUids(FilterEnrollmentStatus(enrollments, code))|
      == Count((e: Enrollment) => e.status == code, enrollments)
    ensures forall u :: u in GetEnrollmentUids(FilterEnrollmentStatus(enrollments, code)) ==>
      exists e :: e in enrollments && e.status == code && u == CampusUid(e)
    ensures forall e :: e in enrollments && e.status == code ==>
      CampusUid(e) in GetEnrollmentUids(FilterEnrollmentStatus(enrollments, code))
  {
    var kept := FilterEnrollmentStatus(enrollments, code);
    var list := GetEnrollmentUids(kept);
    FilterLength((e: Enrollment) => e.status == code, enrollments);
    forall u | u in list
      ensures exists e :: e in enrollments && e.status == code && u == CampusUid(e)
    {
      var i :| 0 <= i < |list| && list[i] == u;
      assert kept[i] in kept;
    }
    forall e | e in enrollments && e.status == code
      ensures CampusUid(e) in list
    {
      var j :| 0 <= j < |enrollments| && enrollments[j] == e;
      assert e in kept;
      var k :| 0 <= k < |kept| && kept[k] == e;
      assert list[k] == CampusUid(e);
    }
  }

  /** A requested student subgroup's entry lists exactly the campus uids
      of the enrollments with the subgroup's status code. */
  lemma StudentUidsByStatus(subgroups: seq<string>, enrollments: seq<Enrollment>, sg: string)
    requires sg in subgroups && sg in SubgroupStatuses
    ensures sg in StudentUids(subgroups, enrollments)
    ensures StudentUids(subgroups, enrollments)[sg]
      == Listed(GetEnrollmentUids(FilterEnrollmentStatus(enrollments, SubgroupStatuses[sg])))
    ensures forall u :: u in StudentUids(subgroups, enrollments)[sg].uids ==>
      exists e :: e in enrollments && e.status == SubgroupStatuses[sg] && u == CampusUid(e)
    ensures forall e :: e in enrollments && e.status == SubgroupStatuses[sg] ==>
      CampusUid(e) in StudentUids(subgroups, enrollments)[sg].uids
  {
    UidsOfStatus(enrollments, SubgroupStatuses[sg]);
  }

  /** The staff subgroups never have a student entry. */
  lemma StaffKeysNotStudents(subgroups: seq<string>, enrollments: seq<Enrollment>)
    ensures "instructors" !in StudentUids(subgroups, enrollments)
    ensures "gsis" !in StudentUids(subgroups, enrollments)
  {
    assert "instructors" !in SubgroupStatuses && "gsis" !in SubgroupStatuses;
  }

  /** The subgroup a section's instructors go to. */
  function StaffKey(section: ClassSection): string {
    if section.primary then "instructors" else "gsis"
  }

  /** The section loop of `sis2calgroups`: each section's instructor uids
      overwrite the entry of its role, so the last section of a role wins. */
  function AssignStaff(sections: seq<ClassSection>, uids: map<string, Members>): (r: map<string, Members>)
    ensures r.Keys == uids.Keys + (set s | s in sections :: StaffKey(s))
    decreases |sections|
  {
    if |sections| == 0 then uids
    else
      var rest := AssignStaff(sections[1..], uids[StaffKey(sections[0]) := Unordered(SectionUids(sections[0]))]);
      assert forall s :: s in sections <==> s == sections[0] || s in sections[1..];
      rest
  }

  /** The index of the last section of a role, searching from the end. */
  function LastOfRole(sections: seq<ClassSection>, primary: bool): (r: Option<nat>)
    ensures r.Some? ==> r.value < |sections| && sections[r.value].primary == primary
    ensures r.Some? ==> forall j :: r.value < j < |sections| ==> sections[j].primary != primary
    ensures r.None? ==> forall j :: 0 <= j < |sections| ==> sections[j].primary != primary
    decreases |sections|
  {
    if |sections| == 0 then None
    else if sections[|sections| - 1].primary == primary then Some(|sections| - 1)
    else LastOfRole(sections[..|sections| - 1], primary)
  }

  /** Processing one more section overwrites its role's entry. */
  lemma {:induction false} AssignStaffSnoc(sections: seq<ClassSection>, s: ClassSection, uids: map<string, Members>)
    ensures AssignStaff(sections + [s], uids)
      == AssignStaff(sections, uids)[StaffKey(s) := Unordered(SectionUids(s))]
    decreases |sections|
  {
    if |sections| == 0 {
      assert ([] + [s])[1..] == [];
    } else {
      assert (sections + [s])[1..] == sections[1..] + [s];
      AssignStaffSnoc(sections[1..], s, uids[StaffKey(sections[0]) := Unordered(SectionUids(sections[0]))]);
    }
  }

  /** Last section wins: the instructors entry holds the uids of the last
      primary section, the gsis entry those of the last non-primary one;
      when a role has no section its entry is left as it was. */
  lemma {:induction false} AssignStaffLastWins(sections: seq<ClassSection>, uids: map<string, Members>, primary: bool)
    ensures var key := if primary then "instructors" else "gsis";
      match LastOfRole(sections, primary)
      case Some(k) =>
        key in AssignStaff(sections, uids) && AssignStaff(sections, uids)[key] == Unordered(SectionUids(sections[k]))
      case None =>
        (key in AssignStaff(sections, uids) <==> key in uids)
        && (key in uids ==> AssignStaff(sections, uids)[key] == uids[key])
    decreases |sections|
  {
    if |sections| > 0 {
      var init := sections[..|sections| - 1];
      var s := sections[|sections| - 1];
      assert init + [s] == sections;
      AssignStaffSnoc(init, s, uids);
      if s.primary != primary {
        AssignStaffLastWins(init, uids, primary);
      }
    }
  }

  /** Keys other than the staff roles are never touched by the section loop. */
  lemma {:induction false} AssignStaffKeepsStudents(sections: seq<ClassSection>, uids: map<string, Members>, key: string)
    requires key in uids && key !in StaffSubgroups
    ensures key in AssignStaff(sections, uids) && AssignStaff(sections, uids)[key] == uids[key]
    decreases |sections|
  {
    if |sections| > 0 {
      AssignStaffKeepsStudents(sections[1..], uids[StaffKey(sections[0]) := Unordered(SectionUids(sections[0]))], key);
    }
  }

  /** A section whose one meeting has one instructor with one disclosed
      campus uid. */
  function OneInstructorSection(uid: string, primary: bool): ClassSection {
    ClassSection(Some([Meeting(Some([AssignedInstructor(Some([Identifier(CampusUidType, uid, Some(true))]))]))]), primary)
  }

  /** One primary lecture taught by A and one lab taught by B: A is the
      instructor and B the GSI. */
  lemma LectureAndLab()
    ensures var uids := AssignStaff([OneInstructorSection("A", true), OneInstructorSection("B", false)], map[]);
      uids == map["instructors" := Unordered({"A"}), "gsis" := Unordered({"B"})]
  {
    var a := OneInstructorSection("A", true);
    var b := OneInstructorSection("B", false);
    assert SectionUids(a) == {"A"} by {
      var ids := [Identifier(CampusUidType, "A", Some(true))];
      assert IdentifierUids(ids) == {"A"};
    }
    assert SectionUids(b) == {"B"} by {
      var ids := [Identifier(CampusUidType, "B", Some(true))];
      assert IdentifierUids(ids) == {"B"};
    }
    assert [a, b][1..] == [b];
    assert [b][1..] == [];
  }
}
