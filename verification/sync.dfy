/** The `sis2calgroups` function of sis2calgroups/__main__.py as a trace of
    the external calls it makes, in order. The SIS and the directory
    service are oracles; the enrollments and sections the SIS returns are
    given directly. */
module Sync {
  import opened Wrappers
  import opened Seqs
  import opened Strings
  import opened Sis
  import opened SisPaging
  import opened Grouper
  import opened CalGroups
  import opened Reconciler

  /** The arguments of one run. */
  datatype Args = Args(baseGroup: string, termId: Option<string>, subject: string, catalog: string,
                       subgroups: seq<string>, dryrun: bool)

  /** What the outside world answers: the terms endpoint per position, the
      directory's reply to each save and to each member replacement, and
      what `get_enrollments` and `get_sections` return. */
  datatype World = World(
    terms: Option<string> -> Page<Term>,
    saveReplies: DirectoryOp -> Response,
    memberReplies: (string, Members) -> Response,
    enrollments: seq<Enrollment>,
    sections: seq<ClassSection>)

  /** An external call, or a block of dry-run output. */
  datatype Effect =
    | LookupTerm(position: Option<string>)
    | Write(op: DirectoryOp)
    | FetchEnrollments(term: string)
    | FetchSections(term: string)
    | PrintHeader(subgroup: string)
    | PrintMembers(members: Members)
    | ReplaceMembers(group: string, members: Members)

  /** Why a run stops: the term lookup found nothing, a directory call
      raised, a requested subgroup has no entry in the uid map (KeyError),
      or the missing `calgroups.populate_groups` was called (AttributeError). */
  datatype RunError =
    | TermLookupFailed
    | DirectoryFailed(failure: Failure)
    | MissingSubgroup(subgroup: string)
    | PopulateGroupsUndefined

  /** The calls made so far and how the stage ended. */
  datatype Stage<T> = Stage(effects: seq<Effect>, result: Result<T, RunError>)

  /** What the run has once data is gathered. */
  datatype Prepared = Prepared(term: string, courseGroup: Option<string>, uids: map<string, Members>)

  predicate IsWrite(e: Effect) { e.Write? || e.ReplaceMembers? }

  predicate IsPrint(e: Effect) { e.PrintHeader? || e.PrintMembers? }

  /** The writes actually sent by `create_folders`. */
  function Writes(ops: seq<DirectoryOp>): (effects: seq<Effect>)
    ensures |effects| == |ops|
    ensures forall i :: 0 <= i < |ops| ==> effects[i] == Write(ops[i])
  {
    seq(|ops|, i requires 0 <= i < |ops| => Write(ops[i]))
  }

  /** An effect of the preparation: a lookup, a folder write or a fetch. */
  predicate IsPreparation(e: Effect) {
    e.LookupTerm? || e.Write? || e.FetchEnrollments? || e.FetchSections?
  }

  /** The term resolution at the top of `sis2calgroups`. */
  function ResolveTerm(args: Args, world: World): (s: Stage<string>)
    ensures s.effects == if NeedsTermLookup(args.termId) then [LookupTerm(args.termId)] else []
    ensures forall e :: e in s.effects ==> e.LookupTerm?
    ensures s.result.Success? <==> NormalizeTermId(args.termId, world.terms).Success?
    ensures s.result.Success? ==> s.result.value == NormalizeTermId(args.termId, world.terms).value
  {
    var lookup := if NeedsTermLookup(args.termId) then [LookupTerm(args.termId)] else [];
    match NormalizeTermId(args.termId, world.terms)
    case Failure(_) => Stage(lookup, Failure(TermLookupFailed))
    case Success(term) => Stage(lookup, Success(term))
  }

  /** The folder creation of a real run; a dry run creates nothing and has
      no course folder. */
  function CreateStage(args: Args, term: string, world: World): (s: Stage<Option<string>>)
    ensures forall e :: e in s.effects ==> e.Write?
    ensures args.dryrun ==> s == Stage([], Success(None))
    ensures !args.dryrun && s.result.Success? ==> s.result.value.Some?
  {
    if args.dryrun then Stage([], Success(None))
    else
      var course := CourseName(args.subject, args.catalog);
      var ops := FolderOps(args.baseGroup, term, course, args.subgroups);
      var created := CreateFolders(args.baseGroup, term, course, args.subgroups, world.saveReplies);
      var writes := Writes(ops[..created.0]);
      match created.1
      case Failure(e) => Stage(writes, Failure(DirectoryFailed(e)))
      case Success(g) =>
        assert ops[..created.0] == ops;
        Stage(writes, Success(Some(g)))
  }

  /** A real run's folder creation that succeeded sent every write of
      `create_folders`, in order, and returned the course folder. */
  lemma CreateStageWrites(args: Args, term: string, world: World)
    requires !args.dryrun && CreateStage(args, term, world).result.Success?
    ensures var course := CourseName(args.subject, args.catalog);
      && CreateStage(args, term, world).result.value == Some(CourseGroup(args.baseGroup, term, course))
      && CreateStage(args, term, world).effects == Writes(FolderOps(args.baseGroup, term, course, args.subgroups))
  {
    var course := CourseName(args.subject, args.catalog);
    var ops := FolderOps(args.baseGroup, term, course, args.subgroups);
    var created := CreateFolders(args.baseGroup, term, course, args.subgroups, world.saveReplies);
    assert created.1.Success?;
    assert ops[..created.0] == ops;
  }

  /** A real run's folder creation that failed sent the writes of
      `create_folders` up to and including the one that raised, in order;
      every earlier write was accepted and none after it was sent. */
  lemma CreateStageFailurePrefix(args: Args, term: string, world: World)
    requires !args.dryrun && CreateStage(args, term, world).result.Failure?
    ensures var ops := FolderOps(args.baseGroup, term, CourseName(args.subject, args.catalog), args.subgroups);
      var n := |CreateStage(args, term, world).effects|;
      && 1 <= n <= |ops|
      && CreateStage(args, term, world).effects == Writes(ops[..n])
      && OpOutcome(ops[n - 1], world.saveReplies(ops[n - 1])).Failure?
      && CreateStage(args, term, world).result
         == Failure(DirectoryFailed(OpOutcome(ops[n - 1], world.saveReplies(ops[n - 1])).error))
      && forall i :: 0 <= i < n - 1 ==> OpOutcome(ops[i], world.saveReplies(ops[i])).Success?
  {
    var course := CourseName(args.subject, args.catalog);
    var created := CreateFolders(args.baseGroup, term, course, args.subgroups, world.saveReplies);
    assert created.1.Failure?;
  }

  /** The data gathering: fetch enrollments if a student subgroup is
      requested, then sections if a staff subgroup is, and build the uid map. */
  function GatherStage(args: Args, term: string, world: World): (s: Stage<map<string, Members>>)
    ensures s.effects ==
      (if NeedsEnrollments(args.subgroups) then [FetchEnrollments(term)] else [])
      + (if NeedsSections(args.subgroups) then [FetchSections(term)] else [])
    ensures forall e :: e in s.effects ==> e.FetchEnrollments? || e.FetchSections?
    ensures s.result.Success?
  {
    var fetchEnrollments := if NeedsEnrollments(args.subgroups) then [FetchEnrollments(term)] else [];
    var fetchSections := if NeedsSections(args.subgroups) then [FetchSections(term)] else [];
    var students := StudentUids(args.subgroups, world.enrollments);
    var uids := if NeedsSections(args.subgroups) then AssignStaff(world.sections, students) else students;
    Stage(fetchEnrollments + fetchSections, Success(uids))
  }

  /** In the uid map a run builds, a requested student subgroup's entry
      lists the uids of the enrollments with its status code, whether or
      not the section loop ran. */
  lemma GatherStageStudents(args: Args, term: string, world: World, sg: string)
    requires sg in args.subgroups && sg in SubgroupStatuses
    ensures var uids := GatherStage(args, term, world).result.value;
      && sg in uids
      && uids[sg] == Listed(GetEnrollmentUids(FilterEnrollmentStatus(world.enrollments, SubgroupStatuses[sg])))
  {
    var students := StudentUids(args.subgroups, world.enrollments);
    var entry := Listed(GetEnrollmentUids(FilterEnrollmentStatus(world.enrollments, SubgroupStatuses[sg])));
    assert sg in students && students[sg] == entry by {
      StudentUidsByStatus(args.subgroups, world.enrollments, sg);
    }
    if NeedsSections(args.subgroups) {
      AssignStaffKeepsStudents(world.sections, students, sg);
    }
  }

  /** In the uid map a run builds, `instructors` holds the uids of the
      last primary section and `gsis` those of the last other section; a
      role's key is absent when no section has that role or no staff
      subgroup is requested. */
  lemma GatherStageStaff(args: Args, term: string, world: World, primary: bool)
    ensures var uids := GatherStage(args, term, world).result.value;
      var key := if primary then "instructors" else "gsis";
      var last := LastOfRole(world.sections, primary);
      if NeedsSections(args.subgroups) && last.Some? then
        key in uids && uids[key] == Unordered(SectionUids(world.sections[last.value]))
      else key !in uids
  {
    var key := if primary then "instructors" else "gsis";
    var students := StudentUids(args.subgroups, world.enrollments);
    var uids := GatherStage(args, term, world).result.value;
    assert key !in students by {
      StaffKeysNotStudents(args.subgroups, world.enrollments);
    }
    if NeedsSections(args.subgroups) {
      assert uids == AssignStaff(world.sections, students);
      AssignStaffLastWins(world.sections, students, primary);
    } else {
      assert uids == students;
    }
  }

  /** Everything before the output: resolve the term, create the folders
      unless dry-running, fetch each needed data source once and build the
      uid map. */
  function Prepare(args: Args, world: World): (s: Stage<Prepared>)
    ensures forall e :: e in s.effects ==> IsPreparation(e)
    ensures args.dryrun ==> forall e :: e in s.effects ==> !e.Write?
    ensures s.result.Success? ==> (s.result.value.courseGroup.Some? <==> !args.dryrun)
  {
    var resolved := ResolveTerm(args, world);
    match resolved.result
    case Failure(e) => Stage(resolved.effects, Failure(e))
    case Success(term) =>
      var created := CreateStage(args, term, world);
      match created.result
      case Failure(e) => Stage(resolved.effects + created.effects, Failure(e))
      case Success(courseGroup) =>
        var gathered := GatherStage(args, term, world);
        Stage(resolved.effects + created.effects + gathered.effects,
              Success(Prepared(term, courseGroup, gathered.result.value)))
  }

  /** The dry-run loop: each requested subgroup's name, then its members;
      a subgroup without an entry raises after its name is printed. */
  function DryRunEffects(subgroups: seq<string>, uids: map<string, Members>): (s: Stage<()>)
    ensures forall e :: e in s.effects ==> IsPrint(e)
    ensures s.result.Success? <==> forall sg :: sg in subgroups ==> sg in uids
    decreases |subgroups|
  {
    if |subgroups| == 0 then Stage([], Success(()))
    else
      var sg := subgroups[0];
      assert forall i :: 1 <= i < |subgroups| ==> subgroups[i] == subgroups[1..][i - 1];
      if sg !in uids then Stage([PrintHeader(sg)], Failure(MissingSubgroup(sg)))
      else
        var rest := DryRunEffects(subgroups[1..], uids);
        Stage([PrintHeader(sg), PrintMembers(uids[sg])] + rest.effects, rest.result)
  }

  /** The evidently intended `populate_groups`: `populate_group` for each
      requested subgroup in order, stopping at the first failure. */
  function PopulateEffects(courseGroup: string, subgroups: seq<string>, uids: map<string, Members>,
                           memberReplies: (string, Members) -> Response): (s: Stage<()>)
    ensures forall e :: e in s.effects ==> e.ReplaceMembers?
    ensures |s.effects| <= |subgroups|
    ensures s.result.Success? ==> |s.effects| == |subgroups|
    ensures s.result.Success? ==> forall i :: 0 <= i < |subgroups| ==>
      subgroups[i] in uids && s.effects[i] == ReplaceMembers(ChildId(courseGroup, subgroups[i]), uids[subgroups[i]])
    decreases |subgroups|
  {
    if |subgroups| == 0 then Stage([], Success(()))
    else
      var sg := subgroups[0];
      assert forall i :: 1 <= i < |subgroups| ==> subgroups[i] == subgroups[1..][i - 1];
      if sg !in uids then Stage([], Failure(MissingSubgroup(sg)))
      else
        var replacement := PopulateGroup(courseGroup, sg, uids[sg]);
        var effect := ReplaceMembers(replacement.group, replacement.users);
        match ReplaceUsersOutcome(memberReplies(replacement.group, replacement.users))
        case Failure(e) => Stage([effect], Failure(DirectoryFailed(e)))
        case Success(_) =>
          var rest := PopulateEffects(courseGroup, subgroups[1..], uids, memberReplies);
          Stage([effect] + rest.effects, rest.result)
  }

  /** The output stage of a run, once the preparation succeeded: the
      dry-run listing, or the evidently intended populate loop. */
  function OutputStage(args: Args, p: Prepared, world: World): (s: Stage<()>)
    requires !args.dryrun ==> p.courseGroup.Some?
    ensures args.dryrun ==> forall e :: e in s.effects ==> IsPrint(e)
    ensures !args.dryrun ==> forall e :: e in s.effects ==> e.ReplaceMembers?
  {
    if args.dryrun then DryRunEffects(args.subgroups, p.uids)
    else PopulateEffects(p.courseGroup.value, args.subgroups, p.uids, world.memberReplies)
  }

  /** The run as written: a real run ends by calling `populate_groups`,
      which calgroups.py does not define. */
  function RunAsWritten(args: Args, world: World): (s: Stage<()>)
    ensures Prepare(args, world).effects <= s.effects
    ensures s.result.Success? ==> args.dryrun && Prepare(args, world).result.Success?
    ensures forall e :: e in s.effects ==> !e.ReplaceMembers?
  {
    var prepared := Prepare(args, world);
    match prepared.result
    case Failure(e) => Stage(prepared.effects, Failure(e))
    case Success(p) =>
      if args.dryrun then
        var out := OutputStage(args, p, world);
        Stage(prepared.effects + out.effects, out.result)
      else Stage(prepared.effects, Failure(PopulateGroupsUndefined))
  }

  /** The run with the per-subgroup `populate_group` loop in place of the
      missing call. */
  function Run(args: Args, world: World): (s: Stage<()>)
    ensures Prepare(args, world).effects <= s.effects
    ensures s.result.Success? ==> Prepare(args, world).result.Success?
    ensures args.dryrun ==> forall e :: e in s.effects ==> !e.Write? && !e.ReplaceMembers?
    ensures !args.dryrun ==> forall e :: e in s.effects ==> !e.PrintHeader? && !e.PrintMembers?
  {
    Finish(args, Prepare(args, world), world)
  }

  /** The corrected run after its preparation: stop on a failed
      preparation, otherwise append the output stage. */
  function Finish(args: Args, prepared: Stage<Prepared>, world: World): (s: Stage<()>)
    requires forall e :: e in prepared.effects ==> IsPreparation(e)
    requires args.dryrun ==> forall e :: e in prepared.effects ==> !e.Write?
    requires prepared.result.Success? ==> (prepared.result.value.courseGroup.Some? <==> !args.dryrun)
    ensures prepared.effects <= s.effects
    ensures s.result.Success? ==> prepared.result.Success?
    ensures args.dryrun ==> forall e :: e in s.effects ==> !e.Write? && !e.ReplaceMembers?
    ensures !args.dryrun ==> forall e :: e in s.effects ==> !e.PrintHeader? && !e.PrintMembers?
  {
    assert forall e :: IsPreparation(e) ==> !IsPrint(e) && !e.ReplaceMembers?;
    match prepared.result
    case Failure(e) => Stage(prepared.effects, Failure(e))
    case Success(p) =>
      var out := OutputStage(args, p, world);
      Stage(prepared.effects + out.effects, out.result)
  }

  /** As written, a run that is not a dry run never completes and never
      replaces any membership, whatever the services answer. */
  lemma AsWrittenNeverPopulates(args: Args, world: World)
    requires !args.dryrun
    ensures RunAsWritten(args, world).result.Failure?
    ensures forall e :: e in RunAsWritten(args, world).effects ==> !e.ReplaceMembers?
  {
  }

  predicate IsFetchEnrollments(e: Effect) { e.FetchEnrollments? }

  predicate IsFetchSections(e: Effect) { e.FetchSections? }

  /** The effects of the preparation are those of the stages it reached. */
  lemma PrepareEffects(args: Args, world: World)
    ensures ResolveTerm(args, world).result.Failure? ==>
      Prepare(args, world).effects == ResolveTerm(args, world).effects && Prepare(args, world).result.Failure?
    ensures ResolveTerm(args, world).result.Success? ==>
      var term := ResolveTerm(args, world).result.value;
      && (CreateStage(args, term, world).result.Failure? ==>
           Prepare(args, world).effects == ResolveTerm(args, world).effects + CreateStage(args, term, world).effects
           && Prepare(args, world).result.Failure?)
      && (CreateStage(args, term, world).result.Success? ==>
           Prepare(args, world).effects
             == ResolveTerm(args, world).effects + CreateStage(args, term, world).effects
                + GatherStage(args, term, world).effects
           && Prepare(args, world).result
             == Success(Prepared(term, CreateStage(args, term, world).result.value,
                                 GatherStage(args, term, world).result.value)))
  {
  }

  /** The data gathering fetches each source once if it is needed. */
  lemma GatherFetchCounts(args: Args, term: string, world: World)
    ensures Count(IsFetchEnrollments, GatherStage(args, term, world).effects)
      == if NeedsEnrollments(args.subgroups) then 1 else 0
    ensures Count(IsFetchSections, GatherStage(args, term, world).effects)
      == if NeedsSections(args.subgroups) then 1 else 0
  {
    var fe := if NeedsEnrollments(args.subgroups) then [FetchEnrollments(term)] else [];
    var fs := if NeedsSections(args.subgroups) then [FetchSections(term)] else [];
    assert GatherStage(args, term, world).effects == fe + fs;
    CountSingleton(IsFetchEnrollments, FetchEnrollments(term));
    CountSingleton(IsFetchEnrollments, FetchSections(term));
    CountSingleton(IsFetchSections, FetchEnrollments(term));
    CountSingleton(IsFetchSections, FetchSections(term));
    CountConcat(IsFetchEnrollments, fe, fs);
    CountConcat(IsFetchSections, fe, fs);
  }

  /** The preparation fetches enrollments once if they are needed and it
      gets that far, otherwise never. */
  lemma PrepareEnrollmentFetches(args: Args, world: World)
    ensures Count(IsFetchEnrollments, Prepare(args, world).effects)
      == if Prepare(args, world).result.Success? && NeedsEnrollments(args.subgroups) then 1 else 0
  {
    var prepared := Prepare(args, world);
    var resolved := ResolveTerm(args, world);
    assert Count(IsFetchEnrollments, resolved.effects) == 0 by {
      CountNone(IsFetchEnrollments, resolved.effects);
    }
    if resolved.result.Failure? {
      assert prepared.effects == resolved.effects && prepared.result.Failure? by {
        PrepareEffects(args, world);
      }
    } else {
      var term := resolved.result.value;
      var created := CreateStage(args, term, world);
      var before := resolved.effects + created.effects;
      assert Count(IsFetchEnrollments, before) == 0 by {
        CountNone(IsFetchEnrollments, created.effects);
        CountConcat(IsFetchEnrollments, resolved.effects, created.effects);
      }
      if created.result.Failure? {
        assert prepared.effects == before && prepared.result.Failure? by {
          PrepareEffects(args, world);
        }
      } else {
        var gathered := GatherStage(args, term, world);
        assert prepared.effects == before + gathered.effects && prepared.result.Success? by {
          PrepareEffects(args, world);
        }
        GatherFetchCounts(args, term, world);
        CountConcat(IsFetchEnrollments, before, gathered.effects);
      }
    }
  }

  /** The preparation fetches sections once if they are needed and it gets
      that far, otherwise never. */
  lemma PrepareSectionFetches(args: Args, world: World)
    ensures Count(IsFetchSections, Prepare(args, world).effects)
      == if Prepare(args, world).result.Success? && NeedsSections(args.subgroups) then 1 else 0
  {
    var prepared := Prepare(args, world);
    var resolved := ResolveTerm(args, world);
    assert Count(IsFetchSections, resolved.effects) == 0 by {
      CountNone(IsFetchSections, resolved.effects);
    }
    if resolved.result.Failure? {
      assert prepared.effects == resolved.effects && prepared.result.Failure? by {
        PrepareEffects(args, world);
      }
    } else {
      var term := resolved.result.value;
      var created := CreateStage(args, term, world);
      var before := resolved.effects + created.effects;
      assert Count(IsFetchSections, before) == 0 by {
        CountNone(IsFetchSections, created.effects);
        CountConcat(IsFetchSections, resolved.effects, created.effects);
      }
      if created.result.Failure? {
        assert prepared.effects == before && prepared.result.Failure? by {
          PrepareEffects(args, world);
        }
      } else {
        var gathered := GatherStage(args, term, world);
        assert prepared.effects == before + gathered.effects && prepared.result.Success? by {
          PrepareEffects(args, world);
        }
        GatherFetchCounts(args, term, world);
        CountConcat(IsFetchSections, before, gathered.effects);
      }
    }
  }

  /** A run is its preparation followed, if that succeeded, by its output. */
  lemma RunEffects(args: Args, world: World)
    ensures Prepare(args, world).result.Failure? ==>
      Run(args, world) == Stage(Prepare(args, world).effects, Failure(Prepare(args, world).result.error))
    ensures Prepare(args, world).result.Success? ==>
      var out := OutputStage(args, Prepare(args, world).result.value, world);
      Run(args, world) == Stage(Prepare(args, world).effects + out.effects, out.result)
  {
  }

  /** Each data source is fetched at most once per run, and a completed
      run fetched enrollments exactly when a student subgroup was requested
      and sections exactly when a staff subgroup was. */
  lemma RunFetchesEachSourceAtMostOnce(args: Args, world: World)
    ensures Count(IsFetchEnrollments, Run(args, world).effects) <= 1
    ensures Count(IsFetchSections, Run(args, world).effects) <= 1
    ensures Run(args, world).result.Success? ==>
      (Count(IsFetchEnrollments, Run(args, world).effects) == 1 <==> NeedsEnrollments(args.subgroups))
    ensures Run(args, world).result.Success? ==>
      (Count(IsFetchSections, Run(args, world).effects) == 1 <==> NeedsSections(args.subgroups))
  {
    var prepared := Prepare(args, world);
    PrepareEnrollmentFetches(args, world);
    PrepareSectionFetches(args, world);
    RunEffects(args, world);
    if prepared.result.Success? {
      var out := OutputStage(args, prepared.result.value, world);
      CountNone(IsFetchEnrollments, out.effects);
      CountNone(IsFetchSections, out.effects);
      CountConcat(IsFetchEnrollments, prepared.effects, out.effects);
      CountConcat(IsFetchSections, prepared.effects, out.effects);
    }
  }

  /** A dry run writes nothing to the directory, and on a dry run the run
      as written and the corrected run are the same. */
  lemma DryRunWritesNothing(args: Args, world: World)
    requires args.dryrun
    ensures RunAsWritten(args, world) == Run(args, world)
    ensures forall e :: e in Run(args, world).effects ==> !IsWrite(e)
  {
  }

  /** A real preparation that succeeded wrote the term folder, the course
      folder and every subgroup's group, and hands on the course folder. */
  lemma PrepareWritesFolders(args: Args, world: World)
    requires !args.dryrun && Prepare(args, world).result.Success?
    ensures var p := Prepare(args, world).result.value;
      var course := CourseName(args.subject, args.catalog);
      && p.courseGroup == Some(CourseGroup(args.baseGroup, p.term, course))
      && forall op :: op in FolderOps(args.baseGroup, p.term, course, args.subgroups) ==>
           Write(op) in Prepare(args, world).effects
  {
    PrepareEffects(args, world);
    var prepared := Prepare(args, world);
    var resolved := ResolveTerm(args, world);
    var term := resolved.result.value;
    var created := CreateStage(args, term, world);
    var gathered := GatherStage(args, term, world);
    var course := CourseName(args.subject, args.catalog);
    var ops := FolderOps(args.baseGroup, term, course, args.subgroups);
    CreateStageWrites(args, term, world);
    assert forall op :: op in ops ==> Write(op) in created.effects by {
      assert created.effects == Writes(ops);
      forall op | op in ops ensures Write(op) in created.effects {
        var k :| 0 <= k < |ops| && ops[k] == op;
        assert created.effects[k] == Write(op);
      }
    }
  }

  /** A completed real run first wrote the term folder, the course folder
      and every subgroup's group, then replaced the members of each
      requested subgroup's group, in request order, with its uid entry. */
  lemma RunWritesFoldersThenMembers(args: Args, world: World)
    requires !args.dryrun && Run(args, world).result.Success?
    ensures Prepare(args, world).result.Success?
    ensures var p := Prepare(args, world).result.value;
      var course := CourseName(args.subject, args.catalog);
      var courseGroup := CourseGroup(args.baseGroup, p.term, course);
      var effects := Run(args, world).effects;
      var before := Prepare(args, world).effects;
      && p.courseGroup == Some(courseGroup)
      && (forall op :: op in FolderOps(args.baseGroup, p.term, course, args.subgroups) ==> Write(op) in before)
      && |effects| == |before| + |args.subgroups|
      && forall i :: 0 <= i < |args.subgroups| ==>
        args.subgroups[i] in p.uids
        && effects[|before| + i] == ReplaceMembers(ChildId(courseGroup, args.subgroups[i]), p.uids[args.subgroups[i]])
  {
    var prepared := Prepare(args, world);
    var run := Run(args, world);
    assert prepared.result.Success? by {
      RunEffects(args, world);
    }
    var p := prepared.result.value;
    var out := PopulateEffects(p.courseGroup.value, args.subgroups, p.uids, world.memberReplies);
    assert run == Stage(prepared.effects + out.effects, out.result) by {
      RunEffects(args, world);
      assert out == OutputStage(args, p, world);
    }
    PrepareWritesFolders(args, world);
  }

  // ---------------------------------------------------------------------
  // Dry-run output lines

  /** How a uid prints: Python prints `None` for a student without one. */
  function Show(uid: Option<string>): string {
    match uid
    case Some(u) => u
    case None => "None"
  }

  function MemberCount(members: Members): nat {
    match members
    case Listed(uids) => |uids|
    case Unordered(uids) => |uids|
  }

  /** `lines` prints `members` one per line: a list in its order, a set in
      some order, each member exactly once. */
  ghost predicate IsListing(lines: seq<string>, members: Members) {
    match members
    case Listed(uids) => |lines| == |uids| && forall i :: 0 <= i < |uids| ==> lines[i] == Show(uids[i])
    case Unordered(uids) =>
      && |lines| == |uids|
      && (forall i :: 0 <= i < |lines| ==> lines[i] in uids)
      && (forall u :: u in uids ==> u in lines)
  }

  /** The number of lines an output effect prints. */
  function LineCount(e: Effect): nat {
    match e
    case PrintHeader(_) => 1
    case PrintMembers(members) => MemberCount(members)
    case _ => 0
  }

  ghost predicate RendersOne(e: Effect, lines: seq<string>) {
    match e
    case PrintHeader(subgroup) => lines == ["_" + subgroup]
    case PrintMembers(members) => IsListing(lines, members)
    case _ => lines == []
  }

  /** `lines` is what the effects print, in order. */
  ghost predicate Renders(effects: seq<Effect>, lines: seq<string>)
    decreases |effects|
  {
    if |effects| == 0 then lines == []
    else
      var n := LineCount(effects[0]);
      n <= |lines| && RendersOne(effects[0], lines[..n]) && Renders(effects[1..], lines[n..])
  }

  lemma {:induction false} RendersConcat(e1: seq<Effect>, l1: seq<string>, e2: seq<Effect>, l2: seq<string>)
    requires Renders(e1, l1) && Renders(e2, l2)
    ensures Renders(e1 + e2, l1 + l2)
    decreases |e1|
  {
    if |e1| == 0 {
      assert e1 + e2 == e2;
      assert l1 + l2 == l2;
    } else {
      var n := LineCount(e1[0]);
      RendersConcat(e1[1..], l1[n..], e2, l2);
      assert (e1 + e2)[1..] == e1[1..] + e2;
      assert (l1 + l2)[..n] == l1[..n];
      assert (l1 + l2)[n..] == l1[n..] + l2;
    }
  }

  /** The dry-run loop over a prefix of subgroups that all have entries
      contributes its own effects, and the rest follows. */
  lemma {:induction false} DryRunEffectsConcat(a: seq<string>, b: seq<string>, uids: map<string, Members>)
    requires forall i :: 0 <= i < |a| ==> a[i] in uids
    ensures DryRunEffects(a + b, uids)
      == Stage(DryRunEffects(a, uids).effects + DryRunEffects(b, uids).effects, DryRunEffects(b, uids).result)
    decreases |a|
  {
    if |a| == 0 {
      assert a + b == b;
    } else {
      assert (a + b)[0] == a[0];
      assert (a + b)[1..] == a[1..] + b;
      DryRunEffectsConcat(a[1..], b, uids);
    }
  }

  /** One subgroup's output: its name behind `_`, then its listing. */
  lemma RendersSubgroup(sg: string, members: Members, block: seq<string>)
    requires IsListing(block, members)
    ensures Renders([PrintHeader(sg), PrintMembers(members)], ["_" + sg] + block)
  {
    var step := [PrintHeader(sg), PrintMembers(members)];
    var ls := ["_" + sg] + block;
    assert ls[..1] == ["_" + sg];
    assert ls[1..] == block;
    assert step[1..] == [PrintMembers(members)];
    assert block[..|block|] == block;
    assert block[|block|..] == [];
    assert step[1..][1..] == [];
  }

  /** Listing `enrolled` (students 111 and 222) and `instructors` (333)
      prints each name behind `_`, then its members. */
  lemma DryRunExample()
    ensures var uids := map["enrolled" := Listed([Some("111"), Some("222")]), "instructors" := Unordered({"333"})];
      var out := DryRunEffects(["enrolled", "instructors"], uids);
      out.result.Success? && Renders(out.effects, ["_enrolled", "111", "222", "_instructors", "333"])
  {
    var uids := map["enrolled" := Listed([Some("111"), Some("222")]), "instructors" := Unordered({"333"})];
    var students := [PrintHeader("enrolled"), PrintMembers(uids["enrolled"])];
    var staff := [PrintHeader("instructors"), PrintMembers(uids["instructors"])];
    var l1 := ["_" + "enrolled"] + ["111", "222"];
    var l2 := ["_" + "instructors"] + ["333"];
    assert DryRunEffects(["enrolled", "instructors"], uids) == Stage(students + staff, Success(())) by {
      assert ["enrolled", "instructors"][1..] == ["instructors"];
      assert ["instructors"][1..] == [];
    }
    assert Renders(students, l1) by {
      RendersSubgroup("enrolled", uids["enrolled"], ["111", "222"]);
    }
    assert Renders(staff, l2) by {
      assert IsListing(["333"], uids["instructors"]);
      RendersSubgroup("instructors", uids["instructors"], ["333"]);
    }
    RendersConcat(students, l1, staff, l2);
    assert l1 + l2 == ["_enrolled", "111", "222", "_instructors", "333"] by {
      assert "_" + "enrolled" == "_enrolled";
      assert "_" + "instructors" == "_instructors";
    }
  }

  /** Print one subgroup's members, one per line. */
  method ListMembers(members: Members) returns (lines: seq<string>)
    ensures IsListing(lines, members)
  {
    match members
    case Listed(uids) =>
      lines := seq(|uids|, i requires 0 <= i < |uids| => Show(uids[i]));
    case Unordered(uids) =>
      lines := [];
      var rest := uids;
      while rest != {}
        invariant rest <= uids
        invariant |lines| + |rest| == |uids|
        invariant forall i :: 0 <= i < |lines| ==> lines[i] in uids && lines[i] !in rest
        invariant forall u :: u in uids ==> u in rest || u in lines
        decreases |rest|
      {
        var u :| u in rest;
        lines := lines + [u];
        rest := rest - {u};
      }
  }

  /** Extending the printed prefix by one subgroup that has an entry. */
  lemma DryRunLinesStep(done: seq<string>, sg: string, uids: map<string, Members>,
                        lines: seq<string>, block: seq<string>)
    requires forall j :: 0 <= j < |done| ==> done[j] in uids
    requires Renders(DryRunEffects(done, uids).effects, lines)
    requires sg in uids && IsListing(block, uids[sg])
    ensures Renders(DryRunEffects(done + [sg], uids).effects, lines + (["_" + sg] + block))
  {
    var step := [PrintHeader(sg), PrintMembers(uids[sg])];
    RendersSubgroup(sg, uids[sg], block);
    DryRunEffectsConcat(done, [sg], uids);
    assert DryRunEffects([sg], uids).effects == step by {
      assert [sg][1..] == [];
    }
    RendersConcat(DryRunEffects(done, uids).effects, lines, step, ["_" + sg] + block);
  }

  /** The first subgroup without an entry: its name is printed, then the
      loop stops with that subgroup missing. */
  lemma DryRunLinesMissing(done: seq<string>, rest: seq<string>, uids: map<string, Members>, lines: seq<string>)
    requires forall j :: 0 <= j < |done| ==> done[j] in uids
    requires Renders(DryRunEffects(done, uids).effects, lines)
    requires |rest| > 0 && rest[0] !in uids
    ensures Renders(DryRunEffects(done + rest, uids).effects, lines + ["_" + rest[0]])
    ensures DryRunEffects(done + rest, uids).result == Failure(MissingSubgroup(rest[0]))
  {
    var sg := rest[0];
    DryRunEffectsConcat(done, rest, uids);
    assert DryRunEffects(rest, uids) == Stage([PrintHeader(sg)], Failure(MissingSubgroup(sg)));
    assert Renders([PrintHeader(sg)], ["_" + sg]) by {
      assert ["_" + sg][..1] == ["_" + sg];
      assert ["_" + sg][1..] == [];
    }
    RendersConcat(DryRunEffects(done, uids).effects, lines, [PrintHeader(sg)], ["_" + sg]);
  }

  /** The dry-run output: for each requested subgroup, `_` and its name,
      then its members; it stops after the name of the first subgroup that
      has no entry. */
  method DryRunLines(subgroups: seq<string>, uids: map<string, Members>) returns (lines: seq<string>, missing: Option<string>)
    ensures Renders(DryRunEffects(subgroups, uids).effects, lines)
    ensures missing.None? <==> DryRunEffects(subgroups, uids).result.Success?
    ensures missing.Some? ==> DryRunEffects(subgroups, uids).result == Failure(MissingSubgroup(missing.value))
  {
    lines := [];
    var i := 0;
    while i < |subgroups|
      invariant 0 <= i <= |subgroups|
      invariant forall j :: 0 <= j < i ==> subgroups[j] in uids
      invariant Renders(DryRunEffects(subgroups[..i], uids).effects, lines)
    {
      var sg := subgroups[i];
      if sg !in uids {
        assert subgroups[..i] + subgroups[i..] == subgroups;
        DryRunLinesMissing(subgroups[..i], subgroups[i..], uids, lines);
        lines := lines + ["_" + sg];
        missing := Some(sg);
        return;
      }
      var block := ListMembers(uids[sg]);
      DryRunLinesStep(subgroups[..i], sg, uids, lines, block);
      assert subgroups[..i + 1] == subgroups[..i] + [sg];
      lines := lines + (["_" + sg] + block);
      i := i + 1;
    }
    assert subgroups[..i] == subgroups;
    missing := None;
  }
}
