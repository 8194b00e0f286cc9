/** The monolithic pipeline of app.js: rules in the flat shape (`regex`, `message`,
    `paths`, `groups`), commit provisioning awaited before group provisioning. */
module App {
  import opened Js
  import opened Gitlab
  import opened Provisioning

  /** One configured rule, after `loadConfig` compiled its `regex`. */
  datatype Rule = Rule(regex: Option<Regex>, message: Scalar, paths: Option<seq<PathPair>>, groups: Option<seq<Grant>>)

  /** The fields of a `project_create` webhook body the pipeline reads. */
  datatype ProjectEvent = ProjectEvent(projectId: int, pathWithNamespace: string)

  /** The predicate given to `find`: `gic.regex && gic.regex.test(projectName)`. */
  predicate Selects(rule: Rule, namespacePath: string)
  {
    rule.regex.Some? && rule.regex.value.test(namespacePath)
  }

  /** Rule `i` is the first, in list order, that has a regex matching the path. */
  predicate FirstMatch(rules: seq<Rule>, namespacePath: string, i: nat)
  {
    i < |rules| && Selects(rules[i], namespacePath)
    && forall j :: 0 <= j < i ==> !Selects(rules[j], namespacePath)
  }

  /** `projectConfigs.find(...)`: the first rule with a regex that matches, or none. */
  function SelectRule(rules: seq<Rule>, namespacePath: string): (r: Option<nat>)
    ensures r.Some? ==> FirstMatch(rules, namespacePath, r.value)
    ensures r.None? <==> forall j :: 0 <= j < |rules| ==> !Selects(rules[j], namespacePath)
  {
    Find(rules, (rule: Rule) => Selects(rule, namespacePath))
  }

  /** A rule without a regex is never selected, whatever the path. */
  lemma {:induction false} RuleWithoutRegexNeverSelected(rules: seq<Rule>, namespacePath: string, i: nat)
    requires i < |rules| && rules[i].regex.None?
    ensures SelectRule(rules, namespacePath) != Some(i)
  {
  }

  /** At most one rule is the first match. */
  lemma {:induction false} FirstMatchIsUnique(rules: seq<Rule>, namespacePath: string, i: nat)
    requires FirstMatch(rules, namespacePath, i)
    ensures forall j: nat :: FirstMatch(rules, namespacePath, j) ==> j == i
  {
  }

  // ---------------------------------------------------------------------------
  // The commit

  /** The message `createCommit` computes by scanning the rules again: the selected
      rule's message or the placeholder, and `''` if no rule matches at all. */
  function CommitMessage(rules: seq<Rule>, namespacePath: string): (m: Scalar)
    ensures forall i: nat :: FirstMatch(rules, namespacePath, i) ==> m == MessageOrPlaceholder(rules[i].message)
    ensures (forall j :: 0 <= j < |rules| ==> !Selects(rules[j], namespacePath)) ==> m == Str("")
  {
    match SelectRule(rules, namespacePath)
    case Some(i) =>
      FirstMatchIsUnique(rules, namespacePath, i);
      MessageOrPlaceholder(rules[i].message)
    case None => Str("")
  }

  /** The rescan in `createCommit` agrees with the lookup that chose the rule: over
      the same rule list the commit carries the chosen rule's message, or the
      placeholder, and never the empty default. */
  lemma {:induction false} CommitMessageOfSelectedRule(rules: seq<Rule>, namespacePath: string, i: nat)
    requires SelectRule(rules, namespacePath) == Some(i)
    ensures i < |rules|
    ensures CommitMessage(rules, namespacePath) == MessageOrPlaceholder(rules[i].message)
    ensures Truthy(CommitMessage(rules, namespacePath))
  {
    assert FirstMatch(rules, namespacePath, i);
  }

  /** `createCommit`: the loop that picks the message of the first matching rule and
      breaks, then one `Commits.create` with every action. */
  method CreateCommit(rules: seq<Rule>, projectId: int, namespacePath: string, branch: string, actions: seq<Action>)
    returns (trace: seq<Effect>)
    ensures trace == [CommitCreate(projectId, branch, CommitMessage(rules, namespacePath), actions)]
  {
    var commitMessage := Str("");
    var k := 0;
    while k < |rules|
      invariant k <= |rules|
      invariant forall j :: 0 <= j < k ==> !Selects(rules[j], namespacePath)
      invariant commitMessage == Str("")
    {
      var config := rules[k];
      if config.regex.Some? && config.regex.value.test(namespacePath) {
        commitMessage := Or(config.message, Str(Placeholder));
        assert FirstMatch(rules, namespacePath, k);
        break;
      }
      k := k + 1;
    }
    trace := [CommitCreate(projectId, branch, commitMessage, actions)];
  }

  /** `readFileAsync` of app.js: the read of the template below the templates root;
      the contents on success, and on failure the file system's error unchanged. */
  function ReadFileAsync(fs: FileSystem, file: string): (r: Result<string, Error>)
    ensures r.Ok? <==> fs(InjectablesRoot + file).Ok?
    ensures r.Ok? ==> r.value == fs(InjectablesRoot + file).value
    ensures r.Err? ==> r.error == fs(InjectablesRoot + file).error
  {
    fs(FullSourcePath(file))
  }

  /** Reference definition of what `addCommitToProject` does for a rule. */
  function CommitTrace(fs: FileSystem, api: Remote, rules: seq<Rule>, projectId: int,
                       namespacePath: string, rule: Rule, branch: string): seq<Effect>
  {
    match rule.paths
    case None => []                     // `paths.length` throws; the catch logs it
    case Some(paths) =>
      if |paths| == 0 then []
      else
        ReadCalls(paths) +
        match ReadAll(file => ReadFileAsync(fs, file), paths)
        case Err(_) => []
        case Ok(data) =>
          ExistenceChecks(projectId, branch, paths)
          + [CommitCreate(projectId, branch, CommitMessage(rules, namespacePath),
                          DerivedActions(api, projectId, branch, paths, data))]
  }

  /** An empty or missing `paths` ends commit provisioning before any read,
      existence check or commit. */
  lemma {:induction false} NoPathsNoCommitCalls(fs: FileSystem, api: Remote, rules: seq<Rule>, projectId: int,
                             namespacePath: string, rule: Rule, branch: string)
    requires rule.paths == None || rule.paths == Some([])
    ensures CommitTrace(fs, api, rules, projectId, namespacePath, rule, branch) == []
  {
  }

  /** If any template read fails, the reads were all issued but nothing else is:
      no existence check and no commit. */
  lemma {:induction false} ReadFailureNoCommit(fs: FileSystem, api: Remote, rules: seq<Rule>, projectId: int,
                                               namespacePath: string, rule: Rule, branch: string, i: nat)
    requires rule.paths.Some? && i < |rule.paths.value|
    requires fs(FullSourcePath(rule.paths.value[i].source)).Err?
    ensures CommitTrace(fs, api, rules, projectId, namespacePath, rule, branch) == ReadCalls(rule.paths.value)
    ensures forall e :: e in CommitTrace(fs, api, rules, projectId, namespacePath, rule, branch) ==> e.ReadFile?
  {
    var paths := rule.paths.value;
    assert ReadFileAsync(fs, paths[i].source).Err?;
    assert ReadAll(file => ReadFileAsync(fs, file), paths).Err?;
  }

  /** When every template reads, exactly one commit is made, last, after one
      existence check per path; it carries one action per path in path order and
      the message of the rule chosen over the same list. */
  lemma {:induction false} SuccessfulReadsCommitOnce(fs: FileSystem, api: Remote, rules: seq<Rule>, projectId: int,
                                                     namespacePath: string, i: nat, branch: string)
    requires SelectRule(rules, namespacePath) == Some(i)
    requires i < |rules| && rules[i].paths.Some? && |rules[i].paths.value| > 0
    requires forall k :: 0 <= k < |rules[i].paths.value| ==> fs(FullSourcePath(rules[i].paths.value[k].source)).Ok?
    ensures var t := CommitTrace(fs, api, rules, projectId, namespacePath, rules[i], branch);
      var paths := rules[i].paths.value;
      && |t| == 2 * |paths| + 1
      && t[..|paths|] == ReadCalls(paths)
      && t[|paths|..2 * |paths|] == ExistenceChecks(projectId, branch, paths)
      && t[2 * |paths|].CommitCreate?
      && t[2 * |paths|].message == MessageOrPlaceholder(rules[i].message)
      && |t[2 * |paths|].actions| == |paths|
      && (forall k :: 0 <= k < |paths| ==> t[2 * |paths|].actions[k].filePath == paths[k].target)
      && (forall k :: 0 <= k < 2 * |paths| ==> !t[k].CommitCreate?)
  {
    var paths := rules[i].paths.value;
    var read := file => ReadFileAsync(fs, file);
    assert forall k :: 0 <= k < |paths| ==> read(paths[k].source).Ok?;
    var data := ReadAll(read, paths);
    CommitMessageOfSelectedRule(rules, namespacePath, i);
    var t := CommitTrace(fs, api, rules, projectId, namespacePath, rules[i], branch);
    var commit := CommitCreate(projectId, branch, CommitMessage(rules, namespacePath),
                               DerivedActions(api, projectId, branch, paths, data.value));
    assert t == ReadCalls(paths) + ExistenceChecks(projectId, branch, paths) + [commit];
  }

  /** `addCommitToProject`: reads every template, derives the actions, commits. */
  method AddCommitToProject(fs: FileSystem, api: Remote, rules: seq<Rule>, projectId: int,
                            namespacePath: string, rule: Rule, branch: string)
    returns (trace: seq<Effect>)
    ensures trace == CommitTrace(fs, api, rules, projectId, namespacePath, rule, branch)
  {
    if rule.paths.None? {
      return [];
    }
    var paths := rule.paths.value;
    if |paths| == 0 {
      return [];
    }
    trace := ReadCalls(paths);
    var data := ReadAll(file => ReadFileAsync(fs, file), paths);
    if data.Err? {
      return;
    }
    var actions, checks := DetermineActions(api, projectId, branch, paths, data.value);
    assert paths[..|data.value|] == paths;
    trace := trace + checks;
    var commit := CreateCommit(rules, projectId, namespacePath, branch, actions);
    trace := trace + commit;
  }

  // ---------------------------------------------------------------------------
  // Groups and the handler

  /** What `addGroupsToProject` does for a rule: the grant loop when `groups` is a
      non-empty list, nothing otherwise. */
  function GroupsTrace(api: Remote, projectId: int, rule: Rule): seq<Effect>
  {
    match rule.groups
    case None => []
    case Some(grants) => GrantsCalls(api, projectId, grants)
  }

  /** `addGroupsToProject` */
  method AddGroupsToProject(api: Remote, projectId: int, rule: Rule) returns (trace: seq<Effect>)
    ensures trace == GroupsTrace(api, projectId, rule)
  {
    trace := [];
    if rule.groups.Some? && |rule.groups.value| > 0 {
      trace := ProvisionGrants(api, projectId, rule.groups.value);
    }
  }

  /** Reference definition of `handleProjectCreateEvent`: nothing without a matching
      rule; otherwise commit provisioning, awaited, then group provisioning. */
  function EventTrace(fs: FileSystem, api: Remote, rules: seq<Rule>, event: ProjectEvent, branch: string): seq<Effect>
  {
    match SelectRule(rules, event.pathWithNamespace)
    case None => []
    case Some(i) =>
      CommitTrace(fs, api, rules, event.projectId, event.pathWithNamespace, rules[i], branch)
      + GroupsTrace(api, event.projectId, rules[i])
  }

  /** Commit provisioning only reads templates, checks files and commits. */
  lemma {:induction false} CommitTraceIsCommitWork(fs: FileSystem, api: Remote, rules: seq<Rule>, projectId: int,
                                                   namespacePath: string, rule: Rule, branch: string)
    ensures forall e :: e in CommitTrace(fs, api, rules, projectId, namespacePath, rule, branch) ==>
      e.ReadFile? || e.FileShow? || e.CommitCreate?
  {
    var t := CommitTrace(fs, api, rules, projectId, namespacePath, rule, branch);
    forall e | e in t ensures e.ReadFile? || e.FileShow? || e.CommitCreate? {
      var k :| 0 <= k < |t| && t[k] == e;
    }
  }

  /** With a matching rule, every commit effect precedes every group effect; without
      one, no call is made at all. */
  lemma {:induction false} CommitBeforeGroups(fs: FileSystem, api: Remote, rules: seq<Rule>, event: ProjectEvent, branch: string)
    ensures SelectRule(rules, event.pathWithNamespace).None? ==> EventTrace(fs, api, rules, event, branch) == []
    ensures var t := EventTrace(fs, api, rules, event, branch);
      forall a, b :: 0 <= a < |t| && 0 <= b < |t| && t[a].IsCommitEffect() && t[b].IsGroupEffect() ==> a < b
  {
    var t := EventTrace(fs, api, rules, event, branch);
    match SelectRule(rules, event.pathWithNamespace)
    case None =>
    case Some(i) =>
      var c := CommitTrace(fs, api, rules, event.projectId, event.pathWithNamespace, rules[i], branch);
      var g := GroupsTrace(api, event.projectId, rules[i]);
      CommitTraceIsCommitWork(fs, api, rules, event.projectId, event.pathWithNamespace, rules[i], branch);
      if rules[i].groups.Some? {
        GrantsCallsAreGroupEffects(api, event.projectId, rules[i].groups.value);
      }
      assert t == c + g;
      CommitWorkThenGroupWork(c, g);
  }

  /** A trace made of commit work followed by group work has every commit effect
      before every group effect. */
  lemma {:induction false} CommitWorkThenGroupWork(c: seq<Effect>, g: seq<Effect>)
    requires forall e :: e in c ==> !e.IsGroupEffect()
    requires forall e :: e in g ==> !e.IsCommitEffect()
    ensures forall a, b ::
      (0 <= a < |c + g| && 0 <= b < |c + g| && (c + g)[a].IsCommitEffect() && (c + g)[b].IsGroupEffect()) ==> a < b
  {
    var t := c + g;
    forall k | 0 <= k < |c| ensures !t[k].IsGroupEffect() {
      assert t[k] == c[k] && c[k] in c;
    }
    forall k | |c| <= k < |t| ensures !t[k].IsCommitEffect() {
      assert t[k] == g[k - |c|] && g[k - |c|] in g;
    }
  }

  /** `handleProjectCreateEvent` */
  method HandleProjectCreateEvent(fs: FileSystem, api: Remote, rules: seq<Rule>, event: ProjectEvent, branch: string)
    returns (trace: seq<Effect>)
    ensures trace == EventTrace(fs, api, rules, event, branch)
  {
    trace := [];
    var found := SelectRule(rules, event.pathWithNamespace);
    if found.Some? {
      var projectConfig := rules[found.value];
      var commitTrace := AddCommitToProject(fs, api, rules, event.projectId, event.pathWithNamespace, projectConfig, branch);
      var groupTrace := AddGroupsToProject(api, event.projectId, projectConfig);
      trace := commitTrace + groupTrace;
    }
  }

  // ---------------------------------------------------------------------------
  // Access-level validation over the whole configuration

  /** The warnings for every rule whose `groups` is a list, rule by rule. */
  function ConfigWarnings(rules: seq<Rule>): seq<Effect>
  {
    if rules == [] then []
    else
      var last := rules[|rules| - 1];
      ConfigWarnings(rules[..|rules| - 1]) + match last.groups case None => [] case Some(grants) => Warnings(grants)
  }

  /** Every grant of every rule with an unsupported access is warned about, and
      every warning is about such a grant. */
  lemma {:induction false} ConfigWarningsExactlyForUnsupported(rules: seq<Rule>)
    ensures forall i, k ::
      (0 <= i < |rules| && rules[i].groups.Some? && 0 <= k < |rules[i].groups.value|
       && !IsSupportedAccess(rules[i].groups.value[k].access)) ==>
      Warn(rules[i].groups.value[k].name, rules[i].groups.value[k].access) in ConfigWarnings(rules)
    ensures forall name, access :: Warn(name, access) in ConfigWarnings(rules) ==> !IsSupportedAccess(access)
  {
    if rules != [] {
      var n := |rules| - 1;
      ConfigWarningsExactlyForUnsupported(rules[..n]);
      if rules[n].groups.Some? {
        WarningsExactlyForUnsupported(rules[n].groups.value);
      }
      forall i | 0 <= i < n ensures rules[..n][i] == rules[i] { }
    }
  }

  /** `validateAccessLevels`: warns, and only warns; `!projectConfigs` returns at once. */
  method ValidateAccessLevels(projectConfigs: Option<seq<Rule>>) returns (warnings: seq<Effect>)
    ensures warnings == match projectConfigs case None => [] case Some(rules) => ConfigWarnings(rules)
  {
    warnings := [];
    if projectConfigs.None? {
      return;
    }
    var rules := projectConfigs.value;
    var i := 0;
    while i < |rules|
      invariant i <= |rules|
      invariant warnings == ConfigWarnings(rules[..i])
    {
      assert rules[..i + 1][..i] == rules[..i];
      if rules[i].groups.Some? {
        var ruleWarnings := WarnUnsupportedAccess(rules[i].groups.value);
        warnings := warnings + ruleWarnings;
      }
      i := i + 1;
    }
    assert rules[..i] == rules;
  }
}
