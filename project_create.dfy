/** The plugin handler of events/project_create.js: rules in the nested shape
    (`regex`, `commit.message`, `commit.paths`, `groups`), a commit deferred by a
    fixed delay, and a completion callback. */
module ProjectCreate {
  import opened Js
  import opened Gitlab
  import opened Provisioning

  /** The `commit` section of a rule. */
  datatype CommitConfig = CommitConfig(message: Scalar, paths: Option<seq<PathPair>>)

  /** One configured rule, with its `regex` compiled by the loader. */
  datatype Rule = Rule(regex: Option<Regex>, commit: Option<CommitConfig>, groups: Option<seq<Grant>>)

  /** The fields of the `project_create` payload the handler reads. */
  datatype EventData = EventData(projectId: int, pathWithNamespace: string, name: string)

  /** `REQUEST_DELAY`: milliseconds between building the actions and committing them. */
  const RequestDelay: nat := 5000

  /** The predicate given to `find`: `gic.regex && gic.regex.test(projectName)`. */
  predicate Selects(rule: Rule, namespacePath: string)
  {
    rule.regex.Some? && rule.regex.value.test(namespacePath)
  }

  /** `projectConfigs.find(...)`: the first rule, in list order, with a regex that
      matches the path, or none. */
  function SelectRule(rules: seq<Rule>, namespacePath: string): (r: Option<nat>)
    ensures r.Some? ==> r.value < |rules| && Selects(rules[r.value], namespacePath)
    ensures r.Some? ==> forall j :: 0 <= j < r.value ==> !Selects(rules[j], namespacePath)
    ensures r.None? <==> forall j :: 0 <= j < |rules| ==> !Selects(rules[j], namespacePath)
  {
    Find(rules, (rule: Rule) => Selects(rule, namespacePath))
  }

  /** The selected rule itself, as the handler's `projectConfig`. */
  function Selected(rules: seq<Rule>, namespacePath: string): Option<Rule>
  {
    match SelectRule(rules, namespacePath)
    case None => None
    case Some(i) => Some(rules[i])
  }

  // ---------------------------------------------------------------------------
  // Reading templates

  const UnauthorizedPrefix: string := "Unauthorized: "

  predicate IsPermissionError(err: Error)
  {
    err.code == Some("EACCES") || err.code == Some("EPERM")
  }

  /** The rejection `readFileAsync` gives for a failed read: a permission error
      becomes a new error whose message is the original one behind the
      "Unauthorized: " prefix; any other error is passed on unchanged. */
  function RejectionFor(err: Error): (r: Error)
    ensures IsPermissionError(err) ==> UnauthorizedPrefix <= r.message
    ensures IsPermissionError(err) ==> r.message[|UnauthorizedPrefix|..] == err.message && r.code.None?
    ensures !IsPermissionError(err) ==> r == err
  {
    if IsPermissionError(err) then Error(None, UnauthorizedPrefix + err.message) else err
  }

  /** `readFileAsync` of events/project_create.js: the read of the template below the
      templates root; the contents on success, and on failure `RejectionFor` the
      file system's error, so a permission error reads "Unauthorized: ...". */
  function ReadFileAsync(fs: FileSystem, file: string): (r: Result<string, Error>)
    ensures r.Ok? <==> fs(InjectablesRoot + file).Ok?
    ensures r.Ok? ==> r.value == fs(InjectablesRoot + file).value
    ensures r.Err? && IsPermissionError(fs(InjectablesRoot + file).error) ==>
      r.error == Error(None, UnauthorizedPrefix + fs(InjectablesRoot + file).error.message)
    ensures r.Err? && !IsPermissionError(fs(InjectablesRoot + file).error) ==>
      r.error == fs(InjectablesRoot + file).error
  {
    match fs(FullSourcePath(file))
    case Ok(data) => Ok(data)
    case Err(err) => Err(RejectionFor(err))
  }

  // ---------------------------------------------------------------------------
  // The commit task

  /** How `addCommitToProject` ends: the effects it issued and, when it scheduled
      the commit, the actions the timer will commit. */
  datatype CommitTask = CommitTask(trace: seq<Effect>, scheduled: Option<seq<Action>>)

  /** Reference definition of `addCommitToProject`. */
  function CommitTaskOf(fs: FileSystem, api: Remote, projectId: int, branch: string, projectConfig: Option<Rule>)
    : (t: CommitTask)
    ensures t.scheduled.Some? ==> projectConfig.Some? && projectConfig.value.commit.Some?
  {
    if projectConfig.None? then CommitTask([], None)
    else match projectConfig.value.commit
      case None => CommitTask([], None)         // `commit.paths` throws; the catch logs it
      case Some(commit) =>
        match commit.paths
        case None => CommitTask([], None)       // `paths.length` throws; the catch logs it
        case Some(paths) =>
          if |paths| == 0 then CommitTask([], None)
          else match ReadAll(file => ReadFileAsync(fs, file), paths)
            case Err(_) => CommitTask(ReadCalls(paths), None)
            case Ok(data) =>
              CommitTask(ReadCalls(paths) + ExistenceChecks(projectId, branch, paths) + [Schedule(RequestDelay)],
                         Some(DerivedActions(api, projectId, branch, paths, data)))
  }

  /** `addCommitToProject`: returns early without a rule or without paths, reads
      every template, derives the actions and schedules the commit. */
  method AddCommitToProject(fs: FileSystem, api: Remote, projectId: int, branch: string, projectConfig: Option<Rule>)
    returns (trace: seq<Effect>, scheduled: Option<seq<Action>>)
    ensures CommitTask(trace, scheduled) == CommitTaskOf(fs, api, projectId, branch, projectConfig)
  {
    trace, scheduled := [], None;
    if projectConfig.None? || projectConfig.value.commit.None? || projectConfig.value.commit.value.paths.None? {
      return;
    }
    var paths := projectConfig.value.commit.value.paths.value;
    if |paths| == 0 {
      return;
    }
    trace := ReadCalls(paths);
    var data := ReadAll(file => ReadFileAsync(fs, file), paths);
    if data.Err? {
      return;
    }
    var actions, checks := DetermineActions(api, projectId, branch, paths, data.value);
    assert paths[..|data.value|] == paths;
    trace := trace + checks + [Schedule(RequestDelay)];
    scheduled := Some(actions);
  }

  /** `createCommit`, run when the timer fires: one `Commits.create` with every
      action and the rule's message, or the placeholder when that is falsy. */
  method CreateCommit(projectId: int, branch: string, actions: seq<Action>, commit: CommitConfig)
    returns (trace: seq<Effect>)
    ensures |trace| == 1 && trace[0].CommitCreate?
    ensures trace[0].project == projectId && trace[0].branch == branch && trace[0].actions == actions
    ensures Truthy(trace[0].message)
    ensures Truthy(commit.message) ==> trace[0].message == commit.message
    ensures !Truthy(commit.message) ==> trace[0].message == Str(Placeholder)
  {
    var commitMessage := Or(commit.message, Str(Placeholder));
    trace := [CommitCreate(projectId, branch, commitMessage, actions)];
  }

  // ---------------------------------------------------------------------------
  // The group task

  /** `validateAccessLevels(projectConfig)`: warnings only, for a rule whose
      `groups` is a list. */
  method ValidateAccessLevels(projectConfig: Rule) returns (warnings: seq<Effect>)
    ensures warnings == match projectConfig.groups case None => [] case Some(grants) => Warnings(grants)
  {
    warnings := [];
    if projectConfig.groups.Some? {
      warnings := WarnUnsupportedAccess(projectConfig.groups.value);
    }
  }

  /** Reference definition of `addGroupsToProject`: the warnings, then the grant
      loop. Without a rule, validation throws before any call and the task's
      promise rejects. */
  function GroupTaskTrace(api: Remote, projectId: int, projectConfig: Option<Rule>): seq<Effect>
  {
    match projectConfig
    case None => []
    case Some(rule) =>
      match rule.groups
      case None => []
      case Some(grants) => Warnings(grants) + GrantsCalls(api, projectId, grants)
  }

  /** `addGroupsToProject` */
  method AddGroupsToProject(api: Remote, projectId: int, projectConfig: Option<Rule>) returns (trace: seq<Effect>)
    ensures trace == GroupTaskTrace(api, projectId, projectConfig)
  {
    if projectConfig.None? {
      return [];
    }
    var warnings := ValidateAccessLevels(projectConfig.value);
    trace := warnings;
    var groups := projectConfig.value.groups;
    if groups.Some? && |groups.value| > 0 {
      var calls := ProvisionGrants(api, projectId, groups.value);
      trace := trace + calls;
    }
  }

  // ---------------------------------------------------------------------------
  // The handler

  /** Reference definition of the exported handler, its tasks run one after the
      other: the commit task up to scheduling, the group task, the callback, and
      last the commit the timer sends. */
  function HandlerTrace(fs: FileSystem, api: Remote, eventData: EventData, rules: seq<Rule>, branch: string,
                        callbackIsFunction: bool): seq<Effect>
  {
    var projectConfig := Selected(rules, eventData.pathWithNamespace);
    var task := CommitTaskOf(fs, api, eventData.projectId, branch, projectConfig);
    task.trace
    + GroupTaskTrace(api, eventData.projectId, projectConfig)
    + (if callbackIsFunction then [Callback] else [])
    + match task.scheduled
      case None => []
      case Some(actions) =>
        [CommitCreate(eventData.projectId, branch, MessageOrPlaceholder(projectConfig.value.commit.value.message), actions)]
  }

  /** The exported handler. */
  method Handle(fs: FileSystem, api: Remote, eventData: EventData, rules: seq<Rule>, branch: string,
                callbackIsFunction: bool) returns (trace: seq<Effect>)
    ensures trace == HandlerTrace(fs, api, eventData, rules, branch, callbackIsFunction)
  {
    var found := SelectRule(rules, eventData.pathWithNamespace);
    var projectConfig := if found.Some? then Some(rules[found.value]) else None;
    var commitTrace, scheduled := AddCommitToProject(fs, api, eventData.projectId, branch, projectConfig);
    var groupTrace := AddGroupsToProject(api, eventData.projectId, projectConfig);
    trace := commitTrace + groupTrace;
    if callbackIsFunction {
      trace := trace + [Callback];
    }
    if scheduled.Some? {
      // REQUEST_DELAY later, the timer runs createCommit
      var commitCall := CreateCommit(eventData.projectId, branch, scheduled.value, projectConfig.value.commit.value);
      trace := trace + commitCall;
    }
  }

  // ---------------------------------------------------------------------------
  // Properties of the handler

  /** The commit task issues commit work only, schedules at most once, always with
      `REQUEST_DELAY`, and schedules exactly when it hands actions to the timer. */
  lemma {:induction false} CommitTaskShape(fs: FileSystem, api: Remote, projectId: int, branch: string, projectConfig: Option<Rule>)
    ensures var t := CommitTaskOf(fs, api, projectId, branch, projectConfig);
      && (forall e :: e in t.trace ==> e.ReadFile? || e.FileShow? || e == Schedule(RequestDelay))
      && multiset(t.trace)[Schedule(RequestDelay)] == (if t.scheduled.Some? then 1 else 0)
  {
    var t := CommitTaskOf(fs, api, projectId, branch, projectConfig);
    if t.trace != [] {
      var paths := projectConfig.value.commit.value.paths.value;
      var pre := ReadCalls(paths) + ExistenceChecks(projectId, branch, paths);
      ReadsAndChecksOnly(projectId, branch, paths);
      if t.scheduled.Some? {
        assert t.trace == pre + [Schedule(RequestDelay)];
        assert multiset(t.trace) == multiset(pre) + multiset{Schedule(RequestDelay)};
      } else {
        assert t.trace == ReadCalls(paths);
        assert forall e :: e in t.trace ==> e in pre;
      }
    }
  }

  /** Template reads and existence checks are neither schedules nor commits. */
  lemma {:induction false} ReadsAndChecksOnly(projectId: int, branch: string, paths: seq<PathPair>)
    ensures forall e :: e in ReadCalls(paths) + ExistenceChecks(projectId, branch, paths) ==> e.ReadFile? || e.FileShow?
  {
    var readCalls, checks := ReadCalls(paths), ExistenceChecks(projectId, branch, paths);
    forall e: Effect | e in readCalls + checks ensures e.ReadFile? || e.FileShow? {
      if e in readCalls {
        var k :| 0 <= k < |readCalls| && readCalls[k] == e;
      } else {
        var k :| 0 <= k < |checks| && checks[k] == e;
      }
    }
  }

  /** The group task issues group work only. */
  lemma {:induction false} GroupTaskShape(api: Remote, projectId: int, projectConfig: Option<Rule>)
    ensures forall e :: e in GroupTaskTrace(api, projectId, projectConfig) ==> e.IsGroupEffect()
  {
    if projectConfig.Some? && projectConfig.value.groups.Some? {
      var grants := projectConfig.value.groups.value;
      WarningsExactlyForUnsupported(grants);
      GrantsCallsAreGroupEffects(api, projectId, grants);
    }
  }

  /** The callback is invoked exactly once whenever it is a function, whether or
      not a rule matched and whatever the provisioning calls did. */
  lemma {:induction false} CallbackExactlyOnce(fs: FileSystem, api: Remote, eventData: EventData, rules: seq<Rule>, branch: string,
                            callbackIsFunction: bool)
    ensures multiset(HandlerTrace(fs, api, eventData, rules, branch, callbackIsFunction))[Callback]
         == if callbackIsFunction then 1 else 0
  {
    var projectConfig := Selected(rules, eventData.pathWithNamespace);
    CommitTaskShape(fs, api, eventData.projectId, branch, projectConfig);
    GroupTaskShape(api, eventData.projectId, projectConfig);
    var task := CommitTaskOf(fs, api, eventData.projectId, branch, projectConfig);
    assert Callback !in task.trace;
    assert Callback !in GroupTaskTrace(api, eventData.projectId, projectConfig);
  }

  /** Without a matching rule nothing is read, checked, built, scheduled or shared:
      the callback is all that happens. */
  lemma {:induction false} NoRuleOnlyCallback(fs: FileSystem, api: Remote, eventData: EventData, rules: seq<Rule>, branch: string,
                           callbackIsFunction: bool)
    requires forall j :: 0 <= j < |rules| ==> !Selects(rules[j], eventData.pathWithNamespace)
    ensures HandlerTrace(fs, api, eventData, rules, branch, callbackIsFunction)
         == if callbackIsFunction then [Callback] else []
  {
  }

  /** A selected rule whose `commit.paths` is empty (or missing) leads to no read,
      no existence check, nothing scheduled and no commit. */
  lemma {:induction false} NoPathsNoCommitWork(fs: FileSystem, api: Remote, eventData: EventData, rules: seq<Rule>, branch: string,
                            callbackIsFunction: bool)
    requires Selected(rules, eventData.pathWithNamespace).Some?
    requires var commit := Selected(rules, eventData.pathWithNamespace).value.commit;
      commit.None? || commit.value.paths.None? || commit.value.paths == Some([])
    ensures forall e :: e in HandlerTrace(fs, api, eventData, rules, branch, callbackIsFunction) ==> !e.IsCommitEffect()
  {
    GroupTaskShape(api, eventData.projectId, Selected(rules, eventData.pathWithNamespace));
  }

  /** If any template of the selected rule cannot be read, every read is still
      issued but no existence check is made and no commit is scheduled or sent;
      a permission error is reported as "Unauthorized: ...". */
  lemma {:induction false} ReadFailureNothingScheduled(fs: FileSystem, api: Remote, eventData: EventData, rules: seq<Rule>,
                                                       branch: string, callbackIsFunction: bool, i: nat)
    requires Selected(rules, eventData.pathWithNamespace).Some?
    requires var commit := Selected(rules, eventData.pathWithNamespace).value.commit;
      commit.Some? && commit.value.paths.Some? && i < |commit.value.paths.value|
      && fs(FullSourcePath(commit.value.paths.value[i].source)).Err?
    ensures var paths := Selected(rules, eventData.pathWithNamespace).value.commit.value.paths.value;
      var t := HandlerTrace(fs, api, eventData, rules, branch, callbackIsFunction);
      && t[..|paths|] == ReadCalls(paths)
      && forall e :: e in t ==> !(e.FileShow? || e.Schedule? || e.CommitCreate?)
    ensures var paths := Selected(rules, eventData.pathWithNamespace).value.commit.value.paths.value;
      IsPermissionError(fs(FullSourcePath(paths[i].source)).error) ==>
        UnauthorizedPrefix <= ReadFileAsync(fs, paths[i].source).error.message
  {
    var projectConfig := Selected(rules, eventData.pathWithNamespace);
    var paths := projectConfig.value.commit.value.paths.value;
    var read := file => ReadFileAsync(fs, file);
    assert read(paths[i].source).Err?;
    assert ReadAll(read, paths).Err?;
    var task := CommitTaskOf(fs, api, eventData.projectId, branch, projectConfig);
    assert task.trace == ReadCalls(paths);
    GroupTaskShape(api, eventData.projectId, projectConfig);
    var t := HandlerTrace(fs, api, eventData, rules, branch, callbackIsFunction);
    var rest := GroupTaskTrace(api, eventData.projectId, projectConfig) + (if callbackIsFunction then [Callback] else []);
    assert t == ReadCalls(paths) + rest;
    forall e | e in t ensures !(e.FileShow? || e.Schedule? || e.CommitCreate?) {
      if e in ReadCalls(paths) {
        var k :| 0 <= k < |paths| && ReadCalls(paths)[k] == e;
      }
    }
  }

  /** Once the commit task has scheduled, the handler's trace holds that one
      schedule and ends with the one commit the timer sends. */
  lemma {:induction false} ScheduledTraceEndsWithCommit(fs: FileSystem, api: Remote, eventData: EventData, rules: seq<Rule>,
                                                        branch: string, callbackIsFunction: bool)
    requires CommitTaskOf(fs, api, eventData.projectId, branch, Selected(rules, eventData.pathWithNamespace)).scheduled.Some?
    ensures var projectConfig := Selected(rules, eventData.pathWithNamespace);
      var task := CommitTaskOf(fs, api, eventData.projectId, branch, projectConfig);
      var t := HandlerTrace(fs, api, eventData, rules, branch, callbackIsFunction);
      && multiset(t)[Schedule(RequestDelay)] == 1
      && (forall e :: e in t && e.Schedule? ==> e.delay == RequestDelay)
      && (forall k :: 0 <= k < |t| - 1 ==> !t[k].CommitCreate?)
      && |t| > 0
      && t[|t| - 1] == CommitCreate(eventData.projectId, branch,
                                    MessageOrPlaceholder(projectConfig.value.commit.value.message), task.scheduled.value)
  {
    var projectConfig := Selected(rules, eventData.pathWithNamespace);
    var task := CommitTaskOf(fs, api, eventData.projectId, branch, projectConfig);
    CommitTaskShape(fs, api, eventData.projectId, branch, projectConfig);
    GroupTaskShape(api, eventData.projectId, projectConfig);
    var groups := GroupTaskTrace(api, eventData.projectId, projectConfig);
    var tail := if callbackIsFunction then [Callback] else [];
    var before := task.trace + groups + tail;
    var last := CommitCreate(eventData.projectId, branch,
                             MessageOrPlaceholder(projectConfig.value.commit.value.message), task.scheduled.value);
    var t := HandlerTrace(fs, api, eventData, rules, branch, callbackIsFunction);
    assert t == before + [last];
    OneScheduleThenCommit(task.trace, groups, tail, last);
  }

  /** Sequence facts behind ScheduledTraceEndsWithCommit: a commit task trace with
      one schedule, then group work and the callback, then one commit. */
  lemma {:induction false} OneScheduleThenCommit(task: seq<Effect>, groups: seq<Effect>, tail: seq<Effect>, last: Effect)
    requires forall e :: e in task ==> e.ReadFile? || e.FileShow? || e == Schedule(RequestDelay)
    requires multiset(task)[Schedule(RequestDelay)] == 1
    requires forall e :: e in groups ==> e.IsGroupEffect()
    requires tail == [] || tail == [Callback]
    requires last.CommitCreate?
    ensures var t := task + groups + tail + [last];
      && multiset(t)[Schedule(RequestDelay)] == 1
      && (forall e :: e in t && e.Schedule? ==> e.delay == RequestDelay)
      && (forall k :: 0 <= k < |t| - 1 ==> !t[k].CommitCreate?)
  {
    var before := task + groups + tail;
    assert Schedule(RequestDelay) !in groups + tail;
    assert multiset(before + [last]) == multiset(task) + multiset(groups + tail) + multiset([last]);
    assert forall e :: e in before ==> !e.CommitCreate?;
    forall k | 0 <= k < |before| ensures !(before + [last])[k].CommitCreate? {
      assert (before + [last])[k] == before[k] && before[k] in before;
    }
  }

  /** When the selected rule's templates all read, the commit is scheduled exactly
      once, with `REQUEST_DELAY`, and exactly one commit follows, last, carrying one
      action per path in path order and the rule's message or the placeholder. */
  lemma {:induction false} ScheduledCommitExactlyOnce(fs: FileSystem, api: Remote, eventData: EventData, rules: seq<Rule>,
                                                      branch: string, callbackIsFunction: bool)
    requires Selected(rules, eventData.pathWithNamespace).Some?
    requires var commit := Selected(rules, eventData.pathWithNamespace).value.commit;
      commit.Some? && commit.value.paths.Some? && |commit.value.paths.value| > 0
      && forall k :: 0 <= k < |commit.value.paths.value| ==> fs(FullSourcePath(commit.value.paths.value[k].source)).Ok?
    ensures var commit := Selected(rules, eventData.pathWithNamespace).value.commit.value;
      var t := HandlerTrace(fs, api, eventData, rules, branch, callbackIsFunction);
      && multiset(t)[Schedule(RequestDelay)] == 1
      && (forall e :: e in t && e.Schedule? ==> e.delay == RequestDelay)
      && (forall k :: 0 <= k < |t| - 1 ==> !t[k].CommitCreate?)
      && |t| > 0 && t[|t| - 1].CommitCreate?
      && t[|t| - 1].project == eventData.projectId && t[|t| - 1].branch == branch
      && t[|t| - 1].message == MessageOrPlaceholder(commit.message)
      && |t[|t| - 1].actions| == |commit.paths.value|
      && (forall k :: 0 <= k < |commit.paths.value| ==> t[|t| - 1].actions[k].filePath == commit.paths.value[k].target)
  {
    var projectConfig := Selected(rules, eventData.pathWithNamespace);
    var paths := projectConfig.value.commit.value.paths.value;
    var read := file => ReadFileAsync(fs, file);
    assert forall k :: 0 <= k < |paths| ==> read(paths[k].source).Ok?;
    var data := ReadAll(read, paths);
    var task := CommitTaskOf(fs, api, eventData.projectId, branch, projectConfig);
    assert task.scheduled == Some(DerivedActions(api, eventData.projectId, branch, paths, data.value));
    ScheduledTraceEndsWithCommit(fs, api, eventData, rules, branch, callbackIsFunction);
  }

  /** Validation never blocks sharing: an actionable grant whose access is not a
      supported level (25, say) is warned about and still shared. */
  lemma {:induction false} UnsupportedAccessStillShared(fs: FileSystem, api: Remote, eventData: EventData, rules: seq<Rule>,
                                     branch: string, callbackIsFunction: bool, k: nat)
    requires Selected(rules, eventData.pathWithNamespace).Some?
    requires var groups := Selected(rules, eventData.pathWithNamespace).value.groups;
      groups.Some? && k < |groups.value| && IsActionable(groups.value[k])
      && !IsSupportedAccess(groups.value[k].access) && api.groupsShow(groups.value[k].name).Ok?
    ensures var g := Selected(rules, eventData.pathWithNamespace).value.groups.value[k];
      var t := HandlerTrace(fs, api, eventData, rules, branch, callbackIsFunction);
      && Warn(g.name, g.access) in t
      && Share(eventData.projectId, api.groupsShow(g.name).value, g.access) in t
  {
    var projectConfig := Selected(rules, eventData.pathWithNamespace);
    var grants := projectConfig.value.groups.value;
    WarningsExactlyForUnsupported(grants);
    EveryActionableGrantIsShared(api, eventData.projectId, grants, k);
    var task := CommitTaskOf(fs, api, eventData.projectId, branch, projectConfig);
    var t := HandlerTrace(fs, api, eventData, rules, branch, callbackIsFunction);
    var groupPart := Warnings(grants) + GrantsCalls(api, eventData.projectId, grants);
    assert groupPart == GroupTaskTrace(api, eventData.projectId, projectConfig);
    var rest := t[|task.trace| + |groupPart|..];
    assert t == task.trace + groupPart + rest;
  }

  /** A grant with access 0 draws no warning, since 0 is an official level, yet is
      skipped by the share loop, since 0 is falsy. */
  lemma {:induction false} ZeroAccessSkippedSilently(api: Remote, projectId: int, before: seq<Grant>, name: Scalar, after: seq<Grant>)
    ensures IsSupportedAccess(Number(0))
    ensures GrantsCalls(api, projectId, before + [Grant(name, Number(0))] + after)
         == GrantsCalls(api, projectId, before) + GrantsCalls(api, projectId, after)
  {
    SkippedGrantIsInvisible(api, projectId, before, Grant(name, Number(0)), after);
  }

  /** A worked scenario: project 42 at "teams/ruby", one rule for "teams/..." that
      injects README.md (absent from the new project) with message "init" and
      grants "core-team" Developer access. */
  lemma {:induction false} TeamsRubyScenario(fs: FileSystem, api: Remote, re: Regex, branch: string, content: string, groupId: int)
    requires re.test("teams/ruby")
    requires fs(FullSourcePath("tmpl/README.md")) == Ok(content)
    requires api.repositoryFilesShow(42, "README.md", branch).Err?
    requires api.groupsShow(Str("core-team")) == Ok(groupId)
    ensures HandlerTrace(fs, api, EventData(42, "teams/ruby", "Ruby"),
                         [Rule(Some(re), Some(CommitConfig(Str("init"), Some([PathPair("tmpl/README.md", "README.md")]))),
                               Some([Grant(Str("core-team"), Number(30))]))],
                         branch, true)
         == [ReadFile("../config/tmpl/README.md"), FileShow(42, "README.md", branch), Schedule(5000),
             GroupShow(Str("core-team")), Share(42, groupId, Number(30)), Callback,
             CommitCreate(42, branch, Str("init"), [Action(Create, "README.md", content)])]
  {
    var paths := [PathPair("tmpl/README.md", "README.md")];
    var grants := [Grant(Str("core-team"), Number(30))];
    var rule := Rule(Some(re), Some(CommitConfig(Str("init"), Some(paths))), Some(grants));
    assert SelectRule([rule], "teams/ruby") == Some(0);
    assert Selected([rule], "teams/ruby") == Some(rule);
    TeamsRubyCommitTask(fs, api, branch, content, rule);
    TeamsRubyGroupTask(api, groupId, rule);
  }

  /** The scenario's commit task: one read, one existence check, the schedule, and a
      single `create` action handed to the timer. */
  lemma {:induction false} TeamsRubyCommitTask(fs: FileSystem, api: Remote, branch: string, content: string, rule: Rule)
    requires rule.commit == Some(CommitConfig(Str("init"), Some([PathPair("tmpl/README.md", "README.md")])))
    requires fs(FullSourcePath("tmpl/README.md")) == Ok(content)
    requires api.repositoryFilesShow(42, "README.md", branch).Err?
    ensures CommitTaskOf(fs, api, 42, branch, Some(rule))
         == CommitTask([ReadFile("../config/tmpl/README.md"), FileShow(42, "README.md", branch), Schedule(5000)],
                       Some([Action(Create, "README.md", content)]))
  {
    var paths := [PathPair("tmpl/README.md", "README.md")];
    assert FullSourcePath("tmpl/README.md") == "../config/tmpl/README.md";
    var read := file => ReadFileAsync(fs, file);
    assert ReadAll(read, paths) == Ok([content]) by {
      assert ReadFileAsync(fs, "tmpl/README.md") == Ok(content);
      assert read(paths[0].source) == Ok(content);
      assert paths[1..] == [];
      assert ReadAll(read, paths[1..]) == Ok([]);
      assert [content] + [] == [content];
    }
    assert DerivedActions(api, 42, branch, paths, [content]) == [Action(Create, "README.md", content)];
    assert ReadCalls(paths) == [ReadFile("../config/tmpl/README.md")];
    assert ExistenceChecks(42, branch, paths) == [FileShow(42, "README.md", branch)];
  }

  /** The scenario's group task: no warning for Developer access, one lookup and one share. */
  lemma {:induction false} TeamsRubyGroupTask(api: Remote, groupId: int, rule: Rule)
    requires rule.groups == Some([Grant(Str("core-team"), Number(30))])
    requires api.groupsShow(Str("core-team")) == Ok(groupId)
    ensures GroupTaskTrace(api, 42, Some(rule)) == [GroupShow(Str("core-team")), Share(42, groupId, Number(30))]
  {
    var grants := [Grant(Str("core-team"), Number(30))];
    assert Warnings(grants) == [] by {
      assert grants[..0] == [];
    }
    assert GrantsCalls(api, 42, grants) == [GroupShow(Str("core-team")), Share(42, groupId, Number(30))] by {
      assert grants[..0] == [];
    }
  }
}
