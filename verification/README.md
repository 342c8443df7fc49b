# sis2calgroups in Dafny

sis2calgroups creates CalGroups (Grouper) folders and groups for a
course. It then reads the course's rosters from the Berkeley SIS (Student
Information System) APIs and replaces each group's membership with the
matching campus uids. This project models the core of that program as
pure Dafny functions over immutable datatypes and proves what the code
promises about them.

It covers four areas:

- **SIS extraction** (`sis.dfy`, `sis_paging.dfy`): lecture filtering by
  whole-word section keyword and the paginated `get_items` walk over an
  abstract page oracle. It also covers term resolution, defensive
  extraction of instructor uids through optional nested fields, and the
  enrollment filters and projections.
- **The reconciler** (`reconciler.dfy`, `sync.dfy`): the credentials key
  check, `valid_term`, `csv_list` and `course_name`. It also models the
  `sis2calgroups` run as an ordered trace of external calls: term lookup,
  folder writes, data fetches, dry-run output or membership replacement.
  The uid map is built per subgroup, with last-section-wins staff
  assignment.
- **Group naming** (`calgroups.dfy`): `child_id`, the ordered writes of
  `create_folders` and the target of `populate_group`.
- **Directory replies** (`grouper.dfy`): the request bodies and how a
  save or member-replace reply is classified as success or failure.

Three more modules hold shared pieces. `wrappers.dfy` defines `Option` and
`Result`. `seqs.dfy` and `strings.dfy` model the Python primitives the
code relies on: `filter`, counting, first match, `str.split(sep)`,
`sep.join`, whitespace `str.split()`, `isdigit` and `isalpha`.

Modelling conventions:
- A JSON key that the code tests for before reading it is an `Option`
  field. A key it reads unconditionally is a plain field.
- Every HTTP call is an oracle parameter:
  - the SIS GET is `Query -> Page<T>`, where a page is `NotFound`,
    `NoResponse`, `NoItemKey` or `Items(items)`;
  - a directory write is `DirectoryOp -> Response`;
  - a member replacement is `(string, Members) -> Response`.
- `get_items` ends only on a terminal page. Its termination is an
  explicit ghost bound `last`: a page number at or after the start whose
  page is terminal.
- `section_is_primary` (sis.py:166-167) and `enrollment_status`
  (sis.py:186-188) only read a field. They are the fields
  `ClassSection.primary` and `Enrollment.status`, whose meaning is fixed
  by `Reconciler.AssignStaffLastWins` and `Sis.FilterEnrollmentStatus`.

Behaviours of the code worth knowing before reading the contracts:
- A save reply with neither the problem key nor the result key is
  accepted (`Grouper.SavesFailOpen`).
- Pagination stops on a 404, a missing `response` or a missing item key.
  An empty `Items([])` page does not stop it.
- `get_enrollments` shares one parameter map across lectures, so each
  lecture after the first starts on the page where the previous walk
  stopped. That page is past page 1 only when an earlier lecture's walk
  read an item page (see Findings and
  `SisPaging.EmptyFirstLectureDoesNotAdvance`).
- The staff entries keep the last section per role
  (`Reconciler.AssignStaffLastWins`), not the union over sections.
- Staff entries are sets. `replace_users` iterates them in some order,
  and the model states only that each member is sent exactly once.

## Model

| member | source | states |
|---|---|---|
| Sis.FilterLectures | sis2calgroups/sis.py:20-31 | every returned code belongs to a section whose whitespace-split description shares a whole word with the keywords; every such section's code is returned; the result is never longer than the input |
| Sis.FilterLecturesConcat | sis2calgroups/sis.py:26-31 | the filter keeps input order: the codes of a concatenation are the codes of each part, in order |
| Sis.WholeWordOnly | sis2calgroups/sis.py:28-29 | a one-word description qualifies iff it is itself a keyword, so "LECTURE" or "XLAB" alone does not |
| Sis.KeywordBetweenWords | sis2calgroups/sis.py:28-29 | a keyword appearing as any word of a space-separated description qualifies the section |
| Strings.WordsJoin | sis2calgroups/sis.py:28 | whitespace `split()` of non-empty, space-free words joined by single spaces returns exactly those words |
| Sis.IdentifierUids | sis2calgroups/sis.py:137-142 | an id is collected iff some identifier has a disclose key, disclose is true and its type is campus-uid |
| Sis.InstructorUids | sis2calgroups/sis.py:133-136 | an instructor without identifiers contributes nothing; the others contribute their disclosed campus uids |
| Sis.MeetingUids | sis2calgroups/sis.py:130-133 | a meeting without assigned instructors contributes nothing; the others contribute their instructors' uids |
| Sis.SectionUids | sis2calgroups/sis.py:126-130 | a section without meetings yields the empty set |
| Sis.SectionUidsSpec | sis2calgroups/sis.py:126-143 | a uid is extracted iff some identifier reachable through present meetings, assigned instructors and identifiers is disclosed, is a campus uid and has that id; so the result is a subset of the identifier ids |
| Sis.CampusUid | sis2calgroups/sis.py:171-174 | the id of the first campus-uid identifier; None iff there is none |
| Sis.CampusEmail | sis2calgroups/sis.py:179-183 | the address of the first CAMP email; None iff there is none, including when emails are absent |
| Sis.GetEnrollmentUids | sis2calgroups/sis.py:169-175 | one entry per enrollment, in order: that enrollment's campus uid |
| Sis.GetEnrollmentEmails | sis2calgroups/sis.py:177-184 | one entry per enrollment, in order: that enrollment's campus email |
| Sis.GetEnrollmentUidsConcat | sis2calgroups/sis.py:175 | uid extraction commutes with concatenation |
| Sis.FilterEnrollmentStatus | sis2calgroups/sis.py:186-191 | keeps exactly the enrollments whose status code equals the argument, each as often as in the input, and nothing else |
| Sis.FilterEnrollmentStatusConcat | sis2calgroups/sis.py:190-191 | the status filter keeps order: it distributes over concatenation |
| Sis.FilterEnrollmentStatusDisjoint | sis2calgroups/sis.py:190-191 | filters for different status codes share no enrollment |
| SisPaging.GetItems | sis2calgroups/sis.py:33-64 | an unpaginated query makes one GET and returns that page's items, or [] on a 404, a missing response or a missing item key; a paginated walk ends on a terminal page at or after the start, makes one GET per page it reads and leaves the page number on the terminal page |
| SisPaging.GetItemsPages | sis2calgroups/sis.py:55-61 | given item pages n..n+count-1 followed by a terminal page, the walk returns their items concatenated in page order, makes count+1 GETs and ends on page n+count; an empty item page does not stop it |
| SisPaging.GetTermId | sis2calgroups/sis.py:66-76 | succeeds iff the terms lookup returns a non-empty list, with the first term's id |
| SisPaging.NormalizeTermId | sis2calgroups/sis.py:78-83 | an id that is present and not all letters passes through unchanged; otherwise the result is the id of the first term the lookup returns, and it fails iff no term comes back |
| SisPaging.GetLectureSectionIds | sis2calgroups/sis.py:85-101 | the codes are exactly those of the descriptors fetched from page 1 whose description has a section keyword as a whole word |
| SisPaging.EnrollmentsFrom | sis2calgroups/sis.py:116-121 | the shared-parameter loop makes at least one GET per lecture and leaves the page number, never beyond the bound, on a terminal page of the last lecture |
| SisPaging.GetEnrollments | sis2calgroups/sis.py:103-123 | as written: no lectures give no enrollments, and a single lecture gives its full roster from page 1 |
| SisPaging.GetEnrollmentsFresh | sis2calgroups/sis.py:103-123 | the evidently intended enrollments: for a single lecture, that lecture's full roster from page 1 |
| SisPaging.GetEnrollmentsFreshConcat | sis2calgroups/sis.py:116-121 | with a fresh page number per lecture, the enrollments of a lecture list are the rosters of its parts, in order |
| SisPaging.OnePageWalk | sis2calgroups/sis.py:57-61 | a one-page roster walked from page 1 yields its items after two GETs and leaves the page number at 2 |
| SisPaging.SharedPageNumberLosesSecondLecture | sis2calgroups/sis.py:112-121 | with the shared parameter map, a second one-page lecture starts on page 2 and its enrollment is lost |
| SisPaging.FreshPageNumberKeepsBothLectures | sis2calgroups/sis.py:112-121 | walking each of the same two lectures from page 1 keeps both enrollments, in lecture order |
| SisPaging.EmptyFirstLectureDoesNotAdvance | sis2calgroups/sis.py:39-61 | a first lecture whose page 1 is a 404 returns before the page number is advanced, so the next lecture starts on page 1 and keeps its roster |
| Grouper.StemSaveBody | sis2calgroups/grouper.py:21-27 | description and displayExtension are the name; stemName is the path |
| Grouper.GroupSaveBody | sis2calgroups/grouper.py:46-52 | description and displayExtension are the name; groupName is the path |
| Grouper.ReplaceUsersBody | sis2calgroups/grouper.py:74-83 | replaceAllExisting is "T"; a list of users becomes the lookups in the same order, one per entry; a set becomes one lookup per member, each member exactly once and nothing else |
| Grouper.CheckResultCode | sis2calgroups/grouper.py:35-39 | a reply with the result key fails iff its code is neither SUCCESS_INSERTED nor SUCCESS_NO_CHANGES_NEEDED, with the error "code: message" |
| Grouper.CreateStemOutcome | sis2calgroups/grouper.py:31-40 | fails iff the reply has a problem envelope or a rejected stem result code; a problem raises its message |
| Grouper.CreateGroupOutcome | sis2calgroups/grouper.py:56-68 | fails iff the reply has a problem envelope or a rejected group result code; a problem raises its metadata |
| Grouper.ReplaceUsersOutcome | sis2calgroups/grouper.py:87-91 | fails iff the reply has a problem envelope; any other reply is accepted |
| Grouper.ProblemPrecedesResultCode | sis2calgroups/grouper.py:32-39 | the problem check comes first: a problem fails the save even alongside an accepted result code |
| Grouper.SavesFailOpen | sis2calgroups/grouper.py:32-40 | a reply with neither the problem key nor a result key is accepted by every call |
| Grouper.RepeatedSaveSucceeds | sis2calgroups/grouper.py:37 | an "inserted" reply and then a "no changes needed" reply to the same save both succeed |
| CalGroups.ChildId | sis2calgroups/calgroups.py:9-12 | the child path is the parent, a colon, the parent's last colon-segment, a dash and the child |
| CalGroups.ChildIdSegments | sis2calgroups/calgroups.py:11-12 | a colon-free child adds exactly one segment and keeps the parent's segments |
| CalGroups.ChildIdOfSingleSegment | sis2calgroups/calgroups.py:11-12 | a colon-free parent p gives "p:p-child" |
| CalGroups.NestedLastSegments | sis2calgroups/calgroups.py:17-20 | the term folder's last segment is last(base)-term, the course folder's is last(base)-term-course, and the course folder is two segments below the base |
| CalGroups.FolderOps | sis2calgroups/calgroups.py:14-34 | the writes in order: the term folder, the course folder, then one group per subgroup at child_id(course folder, subgroup), named after it |
| CalGroups.ChildIdExtends | sis2calgroups/calgroups.py:12 | a child's path extends its parent's path followed by a colon |
| CalGroups.FolderOpsUnderBase | sis2calgroups/calgroups.py:17-33 | every path written lies strictly under the base folder |
| CalGroups.FolderOpsDepth | sis2calgroups/calgroups.py:30-33 | with colon-free names, each subgroup's group is three segments below the base |
| CalGroups.ApplyOps | sis2calgroups/calgroups.py:23-33 | writes are sent in order and stop at the first that raises; on success all were sent and accepted |
| CalGroups.CreateFolders | sis2calgroups/calgroups.py:14-34 | on success every write was sent and the course folder's path is returned; on failure the last write sent is the one that raised, with its error, every earlier one was accepted, and none after it was sent |
| CalGroups.CreateFoldersIdempotent | sis2calgroups/calgroups.py:24-33 | against a service that answers every write as inserted or unchanged, the call completes and returns the course folder |
| CalGroups.PopulateGroup | sis2calgroups/calgroups.py:36-40 | the replaced group is child_id(course folder, subgroup), a path directly under "course folder:", and the users are sent unchanged |
| Reconciler.HasAllKeys | sis2calgroups/__main__.py:45-46 | holds iff every required key is a key of the data |
| Reconciler.MissingKeys | sis2calgroups/__main__.py:55 | the missing set is exactly the required keys minus the present keys |
| Reconciler.MissingKeysWhenCheckFails | sis2calgroups/__main__.py:54-57 | the key check fails iff the missing set is non-empty |
| Reconciler.CheckRequiredKeys | sis2calgroups/__main__.py:48-58 | the data is returned unchanged iff all keys are present; otherwise the error lists exactly the missing keys, and at least one |
| Reconciler.ValidTerm | sis2calgroups/__main__.py:127-132 | accepts a string iff it is all digits or one of Current/Next/Previous, and returns it unchanged |
| Reconciler.ValidTermLookup | sis2calgroups/__main__.py:127-132 | an accepted term is resolved by the terms endpoint iff it is a temporal position |
| Reconciler.CsvList | sis2calgroups/__main__.py:134-135 | at least one item, none containing a comma |
| Reconciler.CsvListJoin | sis2calgroups/__main__.py:134-135 | csv_list inverts ",".join on a non-empty list of comma-free names |
| Reconciler.DefaultSubgroupsRoundTrip | sis2calgroups/__main__.py:156-157 | the default -S value parses back to the default subgroup list |
| Reconciler.CourseName | sis2calgroups/__main__.py:64-66 | the subject, a dash, then the catalog number, with no case change |
| Reconciler.CourseNameInjective | sis2calgroups/__main__.py:64-66 | for dash-free subjects, the course name determines subject and catalog number |
| Reconciler.NeedsEnrollments | sis2calgroups/__main__.py:88-89 | enrollments are needed iff enrolled, waitlisted or dropped is requested |
| Reconciler.NeedsSections | sis2calgroups/__main__.py:104-105 | sections are needed iff instructors or gsis is requested |
| Reconciler.StudentSubgroups | sis2calgroups/__main__.py:88 | exactly the requested subgroups among enrolled, waitlisted and dropped |
| Reconciler.StudentUids | sis2calgroups/__main__.py:96-101 | the uid map has an entry for exactly the requested student subgroups, each a list |
| Reconciler.UidsOfStatus | sis2calgroups/__main__.py:99-101 | a status's list has one entry per enrollment with that status, each such enrollment's uid is in it, and it holds nothing else |
| Reconciler.StudentUidsByStatus | sis2calgroups/__main__.py:97-101 | a requested student subgroup's entry lists exactly the uids of the enrollments with its status code E, W or D |
| Reconciler.AssignStaff | sis2calgroups/__main__.py:113-118 | the section loop adds the role key of each section it sees and keeps every other key |
| Reconciler.LastOfRole | sis2calgroups/__main__.py:113-118 | the reference for "last": the index of the last section of a role, or None iff there is none |
| Reconciler.AssignStaffSnoc | sis2calgroups/__main__.py:113-118 | one more section overwrites its role's entry with its uids |
| Reconciler.AssignStaffLastWins | sis2calgroups/__main__.py:113-118 | instructors holds the uids of the last primary section and gsis those of the last non-primary one; a role with no section keeps its previous entry or stays absent |
| Reconciler.AssignStaffKeepsStudents | sis2calgroups/__main__.py:113-118 | the section loop never touches a student subgroup's entry |
| Reconciler.LectureAndLab | sis2calgroups/__main__.py:113-118 | a lecture taught by A and a lab taught by B give instructors {A} and gsis {B} |
| Sync.ResolveTerm | sis2calgroups/__main__.py:73-78 | the terms endpoint is called, once, iff the term is absent or all letters; resolution succeeds iff normalize_term_id does, with its id |
| Sync.CreateStage | sis2calgroups/__main__.py:80-85 | only writes are sent; a dry run sends none and has no course folder; a real run that succeeds has one |
| Sync.CreateStageWrites | sis2calgroups/__main__.py:80-85 | a real run that succeeds sent every create_folders write, in order, and got the course folder of the base, term and course name |
| Sync.CreateStageFailurePrefix | sis2calgroups/__main__.py:80-85 | a real run whose folder creation failed sent a non-empty prefix of the create_folders writes, in order; the last of them raised and is the stage's error, and every earlier one was accepted |
| Sync.GatherStage | sis2calgroups/__main__.py:87-118 | it only fetches: enrollments are fetched iff a student subgroup is requested, then sections iff a staff subgroup is |
| Sync.GatherStageStudents | sis2calgroups/__main__.py:96-118 | in the uid map a run builds, a requested student subgroup's entry lists the uids of the enrollments with its status code, and the section loop leaves it unchanged |
| Sync.GatherStageStaff | sis2calgroups/__main__.py:103-118 | in the uid map a run builds, instructors holds the uids of the last primary section and gsis those of the last other section; a role's key is absent when no section has that role or no staff subgroup is requested |
| Sync.Prepare | sis2calgroups/__main__.py:68-118 | the preparation only looks up, writes folders and fetches; a dry run's preparation writes nothing; once it succeeds, there is a course folder iff the run is not a dry run |
| Sync.PrepareEffects | sis2calgroups/__main__.py:73-118 | the preparation's calls are those of the stages it reached, in order, and it stops at the first failing stage |
| Sync.DryRunEffects | sis2calgroups/__main__.py:120-123 | the dry run only prints, and it completes iff every requested subgroup has a uid entry |
| Sync.DryRunEffectsConcat | sis2calgroups/__main__.py:120-123 | the dry-run output of subgroups with entries is followed by the rest's output |
| Sync.PopulateEffects | sis2calgroups/__main__.py:125 | the evidently intended populate loop: on success, one replacement per requested subgroup, in order, at child_id(course folder, subgroup) with its uid entry |
| Sync.AsWrittenNeverPopulates | sis2calgroups/__main__.py:124-125 | as written, every real run fails and replaces no membership, whatever the services answer |
| Sync.GatherFetchCounts | sis2calgroups/__main__.py:88-109 | the gathering fetches each source once if it is needed, otherwise not at all |
| Sync.PrepareEnrollmentFetches | sis2calgroups/__main__.py:88-94 | the preparation fetches enrollments once if a student subgroup is requested and the run gets that far, otherwise never |
| Sync.PrepareSectionFetches | sis2calgroups/__main__.py:103-109 | the preparation fetches sections once if a staff subgroup is requested and the run gets that far, otherwise never |
| Sync.OutputStage | sis2calgroups/__main__.py:120-125 | a dry run's output stage only prints; a real run's only replaces members |
| Sync.RunAsWritten | sis2calgroups/__main__.py:68-125 | the run as written begins with its preparation, replaces no membership, and completes only as a dry run whose preparation succeeded |
| Sync.Run | sis2calgroups/__main__.py:68-125 | the corrected run begins with its preparation and completes only if that succeeds; a dry run neither writes nor replaces members, and a real run prints nothing |
| Sync.RunEffects | sis2calgroups/__main__.py:120-125 | a run is its preparation followed, if that succeeds, by the output stage |
| Sync.RunFetchesEachSourceAtMostOnce | sis2calgroups/__main__.py:88-109 | each source is fetched at most once per run; a completed run fetched enrollments iff a student subgroup was requested, and sections iff a staff subgroup was |
| Sync.DryRunWritesNothing | sis2calgroups/__main__.py:80-125 | a dry run makes no directory write, and on a dry run the run as written and the corrected run are identical |
| Sync.PrepareWritesFolders | sis2calgroups/__main__.py:80-85 | a successful real preparation wrote every create_folders operation and holds the course folder |
| Sync.RunWritesFoldersThenMembers | sis2calgroups/__main__.py:80-125 | a completed real run wrote all folders and groups, then replaced each requested subgroup's members in request order with its uid entry |
| Sync.RendersConcat | sis2calgroups/__main__.py:120-123 | the printed lines of consecutive output blocks are concatenated |
| Sync.RendersSubgroup | sis2calgroups/__main__.py:122-123 | a subgroup's output is "_" + its name, then its member lines |
| Sync.DryRunExample | sis2calgroups/__main__.py:120-123 | enrolled {111, 222} and instructors {333} print "_enrolled", 111, 222, "_instructors", 333 |
| Sync.DryRunLinesStep | sis2calgroups/__main__.py:121-123 | printing one more subgroup that has an entry appends "_" + its name and its member lines to the output so far |
| Sync.DryRunLinesMissing | sis2calgroups/__main__.py:121-123 | at the first subgroup without an entry, its name is printed and the loop fails on that subgroup |
| Sync.ListMembers | sis2calgroups/__main__.py:123 | one line per member: a list in order, with None printed as "None"; a set in some order, each member exactly once |
| Sync.DryRunLines | sis2calgroups/__main__.py:120-123 | the printed lines are, for each requested subgroup in order, "_" + name followed by its members; the output stops after the name of the first subgroup without an entry, which is reported |

## Left out

- HTTP transport, basic authentication, JSON decoding and URL templates:
  these are foreign calls, modelled as oracles and response datatypes.
- Logging, including the `print` of the failing request in `create_group`:
  these only produce output.
- `read_json_data` file reading, `read_credentials` and `main`'s argparse
  wiring: these are I/O. The lower-casing of the subject in `main` is
  also left out. The model keeps the key check, `valid_term`, `csv_list`
  and the default subgroups.
- `get_sections` and the SIS calls behind `get_enrollments` inside a run:
  `Sync.World` supplies the sections and enrollments. Their walks are the
  `GetItems` model. A run records each fetch as one effect.
- `create_all_group`: line 47 of calgroups.py ends a call with `:`, a
  syntax error. As written, importing calgroups fails at line 21 of
  `__main__.py`, and no run starts, dry or real. The model treats the
  program as if `create_all_group` were deleted. `Sync.RunAsWritten`
  and `Sync.AsWrittenNeverPopulates` describe that program.
- Exceptions from malformed JSON, that is, a required key that is absent:
  the datatypes make those keys always present.
- `get_items` recurses once per page, so in Python a long enough walk
  raises `RecursionError`. The model's walk has no such bound.
- The roster walks of `get_enrollments` need one ghost bound `last` whose
  page is terminal for every lecture (`SisPaging.RostersEnd`). Python
  also stops when lectures end on different pages. The bound excludes
  only services where a page after a terminal page holds items again;
  such services are not modelled.
- `isdigit` and `isalpha` are ASCII-only here. Python also accepts other
  Unicode digits and letters.
- SisPaging.GetEnrollments: its contract states only the cases of zero
  lectures and one lecture. Its behaviour on a shared page number is
  exhibited by `SisPaging.SharedPageNumberLosesSecondLecture`.
- SisPaging.EnrollmentsFrom: its contract states the page bounds, the
  request count and where the page number ends. It does not state the
  items; `SisPaging.SharedPageNumberLosesSecondLecture` shows them on an
  example.

## Findings

| source | as written | input that shows it | evidently intended | confidence | as-written member | corrected member |
|---|---|---|---|---|---|---|
| sis2calgroups/sis.py:112-121 | one `params` map is shared by all lectures, and `get_items` advances its page number in place, so each lecture after the first starts on the page where the previous walk stopped | lectures A and B with one page each: A's walk ends on page 2, B is asked for page 2 (a 404) and its student is lost | every lecture's roster walked from page 1 | not executed | SisPaging.SharedPageNumberLosesSecondLecture | SisPaging.FreshPageNumberKeepsBothLectures |
| sis2calgroups/__main__.py:125 | a real run calls `calgroups.populate_groups`, which calgroups.py does not define. With `create_all_group` deleted, so that calgroups.py imports, it raises after creating the folders. As shipped, the syntax error at calgroups.py:47 stops every run at import | any run without `-n` that gets past the preparation | `populate_group` for each requested subgroup in order | not executed | Sync.AsWrittenNeverPopulates | Sync.RunWritesFoldersThenMembers |
