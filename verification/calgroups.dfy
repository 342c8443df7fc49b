/** sis2calgroups/calgroups.py: how group paths are derived from the base
    folder, the term, the course and the subgroup names, and the ordered
    directory writes that create and fill them. */
module CalGroups {
  import opened Wrappers
  import opened Strings
  import opened Grouper

  const PathSep: char := ':'

  /** `child_id`: append a segment made of the parent's last segment, a
      dash and the child name. */
  function ChildId(parent: string, child: string): (id: string)
    ensures id == parent + ":" + Last(Split(parent, PathSep)) + "-" + child
  {
    var els := Split(parent, PathSep);
    JoinSnoc(els, Last(els) + "-" + child, PathSep);
    JoinSplit(parent, PathSep);
    Join(els + [Last(els) + "-" + child], PathSep)
  }

  /** A child name without a colon adds exactly one segment: the parent's
      segments are kept and the new last segment is last-of-parent-dash-child. */
  lemma ChildIdSegments(parent: string, child: string)
    requires PathSep !in child
    ensures Split(ChildId(parent, child), PathSep)
      == Split(parent, PathSep) + [Last(Split(parent, PathSep)) + "-" + child]
    ensures |Split(ChildId(parent, child), PathSep)| == |Split(parent, PathSep)| + 1
  {
    var els := Split(parent, PathSep);
    var seg := Last(els) + "-" + child;
    assert PathSep !in seg;
    var xs := els + [seg];
    assert forall i :: 0 <= i < |xs| ==> PathSep !in xs[i];
    JoinSnoc(els, seg, PathSep);
    JoinSplit(parent, PathSep);
    SplitJoin(xs, PathSep);
  }

  /** A parent without a colon is its own last segment: `child_id("a", c)`
      is "a:a-c". */
  lemma ChildIdOfSingleSegment(parent: string, child: string)
    requires PathSep !in parent
    ensures ChildId(parent, child) == parent + ":" + parent + "-" + child
  {
    SplitNoSep(parent, PathSep);
  }

  /** The term folder: `{base}:{last(base)}-{term}`. */
  function TermGroup(base: string, term: string): string {
    ChildId(base, term)
  }

  /** The course folder: `{term group}:{last(base)}-{term}-{course}`. */
  function CourseGroup(base: string, term: string, course: string): string {
    ChildId(TermGroup(base, term), course)
  }

  /** Last segments accumulate under nesting: the term folder ends in
      last(base)-term and the course folder in last(base)-term-course. */
  lemma NestedLastSegments(base: string, term: string, course: string)
    requires PathSep !in term && PathSep !in course
    ensures Last(Split(TermGroup(base, term), PathSep)) == Last(Split(base, PathSep)) + "-" + term
    ensures Last(Split(CourseGroup(base, term, course), PathSep))
      == Last(Split(base, PathSep)) + "-" + term + "-" + course
    ensures |Split(CourseGroup(base, term, course), PathSep)| == |Split(base, PathSep)| + 2
  {
    ChildIdSegments(base, term);
    ChildIdSegments(TermGroup(base, term), course);
  }

  /** A directory write issued by `create_folders`. */
  datatype DirectoryOp = SaveStem(path: string, name: string) | SaveGroup(path: string, name: string)

  /** The writes of `create_folders`, in order: the term folder, the course
      folder, then one group per subgroup named after it. */
  function FolderOps(base: string, term: string, course: string, subgroups: seq<string>): (ops: seq<DirectoryOp>)
    ensures |ops| == |subgroups| + 2
    ensures ops[0] == SaveStem(TermGroup(base, term), term)
    ensures ops[1] == SaveStem(CourseGroup(base, term, course), course)
    ensures forall i :: 0 <= i < |subgroups| ==>
      ops[2..][i] == SaveGroup(ChildId(CourseGroup(base, term, course), subgroups[i]), subgroups[i])
  {
    var courseGroup := CourseGroup(base, term, course);
    [SaveStem(TermGroup(base, term), term), SaveStem(courseGroup, course)]
      + seq(|subgroups|, i requires 0 <= i < |subgroups| => SaveGroup(ChildId(courseGroup, subgroups[i]), subgroups[i]))
  }

  /** A child's path extends its parent's path with a colon. */
  lemma ChildIdExtends(parent: string, child: string, prefix: string)
    requires |parent| >= |prefix| && parent[..|prefix|] == prefix
    ensures |ChildId(parent, child)| > |parent|
    ensures ChildId(parent, child)[..|parent| + 1] == parent + ":"
    ensures ChildId(parent, child)[..|prefix|] == prefix
  {
    var c := ChildId(parent, child);
    assert c[..|parent| + 1] == parent + ":";
    assert c[..|prefix|] == c[..|parent| + 1][..|prefix|];
  }

  /** Every path `create_folders` writes lies under the base folder. */
  lemma FolderOpsUnderBase(base: string, term: string, course: string, subgroups: seq<string>)
    ensures forall op :: op in FolderOps(base, term, course, subgroups) ==>
      |op.path| > |base| && op.path[..|base| + 1] == base + ":"
  {
    var ops := FolderOps(base, term, course, subgroups);
    var tg := TermGroup(base, term);
    var cg := CourseGroup(base, term, course);
    var under := base + ":";
    ChildIdExtends(base, term, base);
    ChildIdExtends(tg, course, under);
    forall op | op in ops ensures |op.path| > |base| && op.path[..|base| + 1] == under {
      var k :| 0 <= k < |ops| && ops[k] == op;
      if k >= 2 {
        assert ops[2..][k - 2] == op;
        ChildIdExtends(cg, subgroups[k - 2], under);
      }
    }
  }

  /** With colon-free names the term folder sits one level below the base,
      the course folder two, and each subgroup's group three. */
  lemma FolderOpsDepth(base: string, term: string, course: string, subgroups: seq<string>)
    requires PathSep !in term && PathSep !in course
    requires forall i :: 0 <= i < |subgroups| ==> PathSep !in subgroups[i]
    ensures forall i :: 0 <= i < |subgroups| ==>
      |Split(FolderOps(base, term, course, subgroups)[2..][i].path, PathSep)| == |Split(base, PathSep)| + 3
  {
    var ops := FolderOps(base, term, course, subgroups);
    var cg := CourseGroup(base, term, course);
    NestedLastSegments(base, term, course);
    forall i | 0 <= i < |subgroups|
      ensures |Split(ops[2..][i].path, PathSep)| == |Split(base, PathSep)| + 3
    {
      ChildIdSegments(cg, subgroups[i]);
    }
  }

  /** The verdict of one write on the service's reply. */
  function OpOutcome(op: DirectoryOp, out: Response): Result<Response, Failure> {
    match op
    case SaveStem(_, _) => CreateStemOutcome(out)
    case SaveGroup(_, _) => CreateGroupOutcome(out)
  }

  /** Issue writes in order, stopping at the first that raises. Returns how
      many were sent and the first failure, if any. */
  function ApplyOps(ops: seq<DirectoryOp>, service: DirectoryOp -> Response): (r: (nat, Result<(), Failure>))
    ensures r.1.Success? ==>
      (r.0 == |ops| && forall i :: 0 <= i < |ops| ==> OpOutcome(ops[i], service(ops[i])).Success?)
    ensures r.1.Failure? ==>
      (&& 1 <= r.0 <= |ops|
       && OpOutcome(ops[r.0 - 1], service(ops[r.0 - 1])) == Failure(r.1.error)
       && forall i :: 0 <= i < r.0 - 1 ==> OpOutcome(ops[i], service(ops[i])).Success?)
  {
    if |ops| == 0 then (0, Success(()))
    else
      match OpOutcome(ops[0], service(ops[0]))
      case Failure(e) => (1, Failure(e))
      case Success(_) =>
        var rest := ApplyOps(ops[1..], service);
        assert forall i :: 1 <= i < |ops| ==> ops[i] == ops[1..][i - 1];
        (rest.0 + 1, rest.1)
  }

  /** `create_folders`: issue the folder and group writes and return the
      course folder's path. */
  function CreateFolders(base: string, term: string, course: string, subgroups: seq<string>,
                         service: DirectoryOp -> Response): (r: (nat, Result<string, Failure>))
    ensures r.0 <= |subgroups| + 2
    ensures r.1.Success? ==> r.1.value == CourseGroup(base, term, course) && r.0 == |subgroups| + 2
    ensures r.1.Failure? ==> ApplyOps(FolderOps(base, term, course, subgroups), service) == (r.0, Failure(r.1.error))
  {
    var applied := ApplyOps(FolderOps(base, term, course, subgroups), service);
    match applied.1
    case Success(_) => (applied.0, Success(CourseGroup(base, term, course)))
    case Failure(e) => (applied.0, Failure(e))
  }

  /** A service that answers every write with no problem and an accepted
      code, or without a result at all. */
  ghost predicate Accepts(service: DirectoryOp -> Response, ops: seq<DirectoryOp>) {
    forall i :: 0 <= i < |ops| ==>
      !SaveRejected(service(ops[i]), if ops[i].SaveStem? then StemResultKey else GroupResultKey)
  }

  /** Re-running is safe: against a service that answers each write with
      "inserted" or "no changes needed", `create_folders` completes. */
  lemma CreateFoldersIdempotent(base: string, term: string, course: string, subgroups: seq<string>,
                                service: DirectoryOp -> Response)
    requires Accepts(service, FolderOps(base, term, course, subgroups))
    ensures CreateFolders(base, term, course, subgroups, service)
      == (|subgroups| + 2, Success(CourseGroup(base, term, course)))
  {
  }

  /** A membership replacement: the group whose members are replaced and
      the users sent to `replace_users` (whose body is `ReplaceUsersBody`). */
  datatype Replacement = Replacement(group: string, users: Members)

  /** `populate_group`: replace the members of the subgroup's group, a
      direct child of the course folder, with exactly the given users. */
  function PopulateGroup(courseGroup: string, subgroup: string, users: Members): (r: Replacement)
    ensures r.group == ChildId(courseGroup, subgroup)
    ensures |r.group| > |courseGroup| && r.group[..|courseGroup| + 1] == courseGroup + ":"
    ensures r.users == users
  {
    ChildIdExtends(courseGroup, subgroup, "");
    Replacement(ChildId(courseGroup, subgroup), users)
  }
}
