# GitLab project provisioning: a verified model

The repository is a GitLab webhook receiver. When GitLab reports a `project_create`
event, the receiver picks the first configured rule whose regular expression matches
the new project's `path_with_namespace`. It then commits the rule's template files into
the project and shares the project with the rule's groups at the configured access levels.

This project models that decision logic in Dafny, once for each of the two
implementations:

- `app.js`: the monolithic server. Rules have the flat shape `regex`, `message`,
  `paths`, `groups`. The handler awaits commit provisioning, then group provisioning.
- `events/project_create.js`: the plugin handler. Rules have the nested shape
  `regex`, `commit.message`, `commit.paths`, `groups`. The commit is deferred by
  `REQUEST_DELAY` (5000 ms), and a completion callback is invoked.

Modules:

- `Js` (js.dfy): JavaScript values as the configuration gives them. `Scalar` covers
  undefined, null, booleans, integers and strings. Also here: truthiness, `||`, and
  `Array.prototype.find`.
- `Gitlab` (gitlab.dfy): the shared entities and the outside world.
  - Rule parts, commit actions and the official access levels.
  - The GitLab API as an oracle value (`Remote`): the answers of `Groups.show` and
    `RepositoryFiles.show`.
  - The template file system as an oracle function.
  - `Effect`: the trace of everything the pipeline does outside itself. That is
    file reads, API calls, the timer, warnings and the callback.
- `Provisioning` (provisioning.dfy): logic that is the same in both source files.
  That is `determineActions`, the template reads, the message fallback, the grant
  loop of `addGroupsToProject` and the warning test of `validateAccessLevels`. The
  files differ in these ways, and the model follows each:
  - `determineActions` and `getFileExists` take the project id and branch as
    arguments in app.js (app.js:293, app.js:298, app.js:322). In
    events/project_create.js they take them from the handler's scope
    (events/project_create.js:102, events/project_create.js:107,
    events/project_create.js:135-138). There the branch is `defaultBranch`.
    `Provisioning.DetermineActions` takes both as parameters.
  - The warning loop is a `for ... of` inside `projectConfigs.forEach` over every
    rule in app.js (app.js:338-346). It is `projectConfig.groups.forEach` over one
    rule in events/project_create.js (events/project_create.js:148-153).
    `Provisioning.WarnUnsupportedAccess` is the loop over one rule's grants.
    `App.ValidateAccessLevels` wraps it in the loop over rules.
  - `readFileAsync` passes errors through unchanged in app.js. In
    events/project_create.js, it turns `EACCES` and `EPERM` into "Unauthorized: "
    errors (events/project_create.js:123-127). Each file has its own
    `ReadFileAsync`. `Provisioning.ReadAll` takes the read as a parameter.
- `App` (app.dfy) and `ProjectCreate` (project_create.dfy): each file's own
  pipeline, against its own rule shape.

Every pipeline method returns the effects it issued, in order. Each is proved equal to
a reference definition (`CommitTrace`, `EventTrace`, `CommitTaskOf`, `HandlerTrace`,
`GrantsCalls`, `Warnings`, `DerivedActions`). The lemmas then state the promised
properties over those definitions.

Points of the code's behaviour that the model follows exactly:

- Both files skip a grant when its `name` or `access` is falsy
  (app.js:238-240, events/project_create.js:35-37). So a grant with `access: 0` is
  skipped, although 0 is an official level and draws no warning
  (`ProjectCreate.ZeroAccessSkippedSilently`).
- app.js awaits commit provisioning before it starts group provisioning
  (app.js:216-221).
- `determineActions` awaits each existence check before it starts the next, in path
  order.
- An empty `paths` list makes commit provisioning return without a read, a check or
  a commit.

## Model

| member | source | states |
|---|---|---|
| `Js.Find` | app.js:212-214 | `find` returns the first index whose element satisfies the predicate, and none exactly when no element does |
| `App.SelectRule` | app.js:212-214 | the selected rule is the first, in list order, that has a regex matching the path; the result is none exactly when no rule has a matching regex |
| `App.RuleWithoutRegexNeverSelected` | app.js:212-214 | a rule without a regex is never selected |
| `App.CommitMessage` | app.js:189-195 | the rescan's message is the message of the first matching rule, or the placeholder when that message is falsy; it is `''` when no rule matches |
| `App.CommitMessageOfSelectedRule` | app.js:189-195 | over the list that selected rule i, the commit message is rule i's message or the placeholder, and never falsy |
| `App.CreateCommit` | app.js:186-202 | the message loop with `break` yields `CommitMessage`, and exactly one `Commits.create` is issued, carrying every action |
| `App.ReadFileAsync` | app.js:309-320 | reads the template at the templates root followed by the file name; resolves exactly when the read succeeds, with its contents, and otherwise rejects with the file system's error unchanged |
| `App.AddCommitToProject` | app.js:263-288 | issues exactly the effects of `CommitTrace`: reads, existence checks, then the commit |
| `App.NoPathsNoCommitCalls` | app.js:266-268 | an empty or missing `paths` makes no read, existence check or commit |
| `App.ReadFailureNoCommit` | app.js:278-287 | if any template read fails, every read is still issued, but nothing else: no existence check and no commit |
| `App.SuccessfulReadsCommitOnce` | app.js:277-283 | when every read succeeds: the reads, then one existence check per path, then exactly one commit, last, with one action per path in order and the selected rule's message |
| `App.AddGroupsToProject` | app.js:231-260 | runs the grant loop only when `groups` is a non-empty list |
| `App.HandleProjectCreateEvent` | app.js:206-227 | no effect without a matching rule; otherwise the commit effects followed by the group effects |
| `App.CommitTraceIsCommitWork` | app.js:263-288 | commit provisioning only reads templates, checks files and commits |
| `App.CommitBeforeGroups` | app.js:216-221 | every commit effect precedes every group effect; with no matching rule, no call is made |
| `App.ValidateAccessLevels` | app.js:333-347 | does nothing when no configuration is loaded; otherwise gives the warnings of every rule whose `groups` is a list, rule by rule, and changes nothing else |
| `App.ConfigWarningsExactlyForUnsupported` | app.js:338-347 | every grant with an unsupported access in any rule is warned about, and every warning names an unsupported access |
| `Gitlab.SupportedAccessLevels` | app.js:15-23 | an access passes validation exactly when it is a number in {0, 5, 10, 20, 30, 40, 50} |
| `Gitlab.GetFileExists` | app.js:322-331 | makes one `RepositoryFiles.show` call, and reports existence exactly when the call resolved; any rejection means "does not exist" |
| `Provisioning.ReadAll` | app.js:278 | `Promise.all` of the reads resolves exactly when every read resolves, with the contents in path order; otherwise it rejects with one of the read errors |
| `Provisioning.DerivedActions` | app.js:293-307 | one action per content entry, in index order, with `file_path = paths[i].target` and `content = contentData[i]`; the action is `update` exactly when the file lookup resolved |
| `Provisioning.DetermineActions` | app.js:293-307 | the index loop yields `DerivedActions` and issues one existence check per entry, in order; events/project_create.js:102-116 has the same loop, with the project id and branch taken from the handler's scope |
| `Provisioning.AnyRejectionMeansCreate` | app.js:299 | an existence check that rejects, for any reason, yields a `create` action |
| `Provisioning.ProvisionGrants` | app.js:235-255 | the grant loop, with `continue` and a per-grant catch, issues exactly `GrantsCalls`; events/project_create.js:32-52 has the same loop |
| `Provisioning.GrantsCallsAppend` | app.js:235-255 | the calls for a list are the calls for any prefix followed by the calls for the rest; earlier grants and their failures do not change what later grants get |
| `Provisioning.SkippedGrantIsInvisible` | app.js:238-241 | a grant with a falsy name or falsy access, 0 included, makes no call; the others are processed as if it were absent |
| `Provisioning.EveryActionableGrantIsShared` | app.js:243-249 | every grant with a truthy name and access gets its group lookup, and its share when the lookup resolves, wherever it stands in the list |
| `Provisioning.SharesComeFromGrants` | app.js:243-249 | every share is for this project, for a grant with a truthy name and access, to the group that name resolved to, at that grant's access |
| `Provisioning.GrantsCallsAreGroupEffects` | app.js:246-249 | the grant loop only looks up groups and shares the project |
| `Provisioning.MessageOrPlaceholder` | events/project_create.js:93 | the message is the configured one when truthy, else the placeholder; it is never falsy |
| `Provisioning.WarnUnsupportedAccess` | events/project_create.js:148-153 | the warning loop yields `Warnings`, one warning per grant whose access is unsupported, in order |
| `Provisioning.WarningsExactlyForUnsupported` | events/project_create.js:148-153 | a grant is warned about exactly when its access is not a number among the official levels; only warnings are produced |
| `ProjectCreate.SelectRule` | events/project_create.js:20 | the selected rule is the first, in list order, whose regex is present and matches; none exactly when no rule's regex matches |
| `ProjectCreate.RejectionFor` | events/project_create.js:122-127 | an `EACCES` or `EPERM` error becomes a new error whose message is the original behind the `"Unauthorized: "` prefix; any other error passes through unchanged |
| `ProjectCreate.ReadFileAsync` | events/project_create.js:118-133 | reads the template at the templates root followed by the file name; resolves exactly when the read succeeds, with its contents; an `EACCES` or `EPERM` error becomes a code-less error whose message is "Unauthorized: " followed by the original message, and any other error passes through unchanged |
| `ProjectCreate.CommitTaskOf` | events/project_create.js:59-89 | a commit is scheduled only for a selected rule that has a `commit` section |
| `ProjectCreate.AddCommitToProject` | events/project_create.js:59-89 | issues the effects of `CommitTaskOf` and hands the timer exactly the actions it schedules |
| `ProjectCreate.CommitTaskShape` | events/project_create.js:77-85 | the commit task only reads, checks files and schedules; it schedules at most once, always with `REQUEST_DELAY`, and exactly when it hands actions to the timer |
| `ProjectCreate.CreateCommit` | events/project_create.js:91-100 | one `Commits.create` with all the actions and `commit.message`, or the placeholder when that is falsy |
| `ProjectCreate.ValidateAccessLevels` | events/project_create.js:146-155 | warns about the rule's grants only when `groups` is a list, and does nothing else |
| `ProjectCreate.AddGroupsToProject` | events/project_create.js:25-57 | without a rule, no call; otherwise the warnings, then the grant loop's calls |
| `ProjectCreate.GroupTaskShape` | events/project_create.js:25-57 | the group task only warns, looks up groups and shares |
| `ProjectCreate.Handle` | events/project_create.js:17-165 | issues exactly `HandlerTrace`: the commit task, the group task, the callback, then the commit sent by the timer |
| `ProjectCreate.CallbackExactlyOnce` | events/project_create.js:163-165 | the callback is invoked exactly once when it is a function, and never otherwise, whether or not a rule matched |
| `ProjectCreate.NoRuleOnlyCallback` | events/project_create.js:61-64 | with no matching rule, nothing is read, checked, built, scheduled or shared; only the callback happens |
| `ProjectCreate.NoPathsNoCommitWork` | events/project_create.js:66-68 | an empty or missing `commit.paths` leads to no read, no existence check, no schedule and no commit |
| `ProjectCreate.ReadFailureNothingScheduled` | events/project_create.js:78-88 | a failed template read: every read is still issued, but no existence check, schedule or commit follows; a permission error reads "Unauthorized: ..." |
| `ProjectCreate.ScheduledTraceEndsWithCommit` | events/project_create.js:83-85 | once the commit is scheduled, the trace holds exactly one schedule, with `REQUEST_DELAY`, and ends with the only commit |
| `ProjectCreate.ScheduledCommitExactlyOnce` | events/project_create.js:83-95 | when every template reads, the commit is scheduled once after 5000 ms and exactly one commit is sent, last, with every action in path order and `commit.message` or the placeholder |
| `ProjectCreate.UnsupportedAccessStillShared` | events/project_create.js:27 | a grant with an unsupported access such as 25 is warned about and still shared |
| `ProjectCreate.ZeroAccessSkippedSilently` | events/project_create.js:35 | access 0 passes validation, yet the grant is skipped with no call |
| `ProjectCreate.TeamsRubyScenario` | events/project_create.js:17-165 | project 42 at "teams/ruby", with an absent README.md: one read, one check, one schedule, one lookup, a share at 30, the callback, then one commit with message "init" and a single `create` action |

## Left out

- The Express server, its routes and its responses. This includes the 400 reply sent
  after a reply was already sent (app.js:157) and the 500 reply of the handler's catch
  (app.js:223-226). These are HTTP input and output.
- `loadConfig`, `watchConfigFile`, YAML parsing, regex compilation and the server's
  start and stop (app.js:48-88, app.js:119-183). The rule list is a parameter. Its
  `regex` is either absent or already compiled.
- `verifyEnvironment` and the SIGINT handler (app.js:90-116). These are process glue.
  The default branch is a parameter.
- The regex engine. `Regex.test` is an uninterpreted predicate.
- The gitbeaker client. `Groups.show` and `RepositoryFiles.show` are oracle answers.
  The outcomes of `Projects.share` and `Commits.create` are not modelled: the source
  only logs them, and nothing later depends on them.
- Timing and interleaving. The model runs the handler's steps one after another:
  - app.js: the commit, then the groups.
  - events/project_create.js: the commit task up to `setTimeout`, the group task, the
    callback, then the commit when the timer fires. In the running program, the
    callback fires as soon as both tasks reach their first `await`, and the tasks'
    calls interleave.
- `Promise.all` rejects with the first failure in time. The model uses the first
  failure in path order. The choice shows only in a log line.
- `App.CreateCommit`: the model gives it the same rule list that selected the rule.
  In app.js, `createCommit` reads the global list again after several `await`s. A
  configuration reload in between could give a different message, or `''`. Reloads
  are not modelled.
- events/project_create.js:27 with no matching rule: `validateAccessLevels(undefined)`
  throws inside an un-awaited async function. This gives an unhandled promise
  rejection. The model states only that no warning or call follows.
- `path.join` normalisation of template paths. The full path is the root
  `../config/` followed by `source`.
- Configuration values outside the modelled shapes: fractional numbers and NaN,
  grants that are not objects, and `groups` or `paths` that are truthy but not lists.
- Log and warning text. The model records only whether a warning is emitted, and for
  which name and access.
