/** The provisioning steps that app.js and events/project_create.js implement with
    the same code: reading the templates, deriving the commit actions, the commit
    message fallback, the per-grant share loop and the access-level warnings. */
module Provisioning {
  import opened Js
  import opened Gitlab

  /** The fixed commit message used when a rule gives none. */
  const Placeholder: string := "Placeholder commit message...."

  /** `message || 'Placeholder commit message....'`: the message sent is never falsy. */
  function MessageOrPlaceholder(message: Scalar): (r: Scalar)
    ensures Truthy(r)
    ensures Truthy(message) ==> r == message
    ensures !Truthy(message) ==> r == Str(Placeholder)
  {
    Or(message, Str(Placeholder))
  }

  // ---------------------------------------------------------------------------
  // Reading the templates: `Promise.all(paths.map((p) => readFileAsync(p.source, 'utf8')))`

  /** The reads `paths.map(readFileAsync)` issues: one per path, all of them, in order. */
  function ReadCalls(paths: seq<PathPair>): seq<Effect>
  {
    seq(|paths|, i requires 0 <= i < |paths| => ReadFile(FullSourcePath(paths[i].source)))
  }

  /** How the `Promise.all` settles, given how each read settles: resolved with the
      contents in path order when every read resolves, rejected otherwise (here with
      the error of the first failing path; the source only logs that error). */
  function ReadAll(read: string -> Result<string, Error>, paths: seq<PathPair>): (r: Result<seq<string>, Error>)
    ensures r.Ok? <==> forall i :: 0 <= i < |paths| ==> read(paths[i].source).Ok?
    ensures r.Ok? ==> |r.value| == |paths|
    ensures r.Ok? ==> forall i :: 0 <= i < |paths| ==> r.value[i] == read(paths[i].source).value
    ensures r.Err? ==> exists i :: 0 <= i < |paths| && read(paths[i].source) == Err(r.error)
  {
    if paths == [] then Ok([])
    else match read(paths[0].source)
      case Err(e) => Err(e)
      case Ok(content) =>
        match ReadAll(read, paths[1..])
        case Err(e) => Err(e)
        case Ok(rest) => Ok([content] + rest)
  }

  // ---------------------------------------------------------------------------
  // Commit actions: `determineActions`

  /** Reference definition of the action list: one action per content entry, built
      recursively from the front. */
  function DerivedActions(api: Remote, projectId: int, branch: string, paths: seq<PathPair>, contentData: seq<string>)
    : (r: seq<Action>)
    requires |contentData| <= |paths|
    ensures |r| == |contentData|
    ensures forall i :: 0 <= i < |r| ==> r[i].filePath == paths[i].target && r[i].content == contentData[i]
    ensures forall i :: 0 <= i < |r| ==>
      (r[i].action == Update <==> api.repositoryFilesShow(projectId, paths[i].target, branch).Ok?)
  {
    if contentData == [] then []
    else
      var kind := if api.repositoryFilesShow(projectId, paths[0].target, branch).Ok? then Update else Create;
      [Action(kind, paths[0].target, contentData[0])]
        + DerivedActions(api, projectId, branch, paths[1..], contentData[1..])
  }

  /** The existence checks `determineActions` issues: one per path, in order. */
  function ExistenceChecks(projectId: int, branch: string, paths: seq<PathPair>): seq<Effect>
  {
    seq(|paths|, i requires 0 <= i < |paths| => FileShow(projectId, paths[i].target, branch))
  }

  /** A target is committed as an update exactly when its existence check resolved;
      every rejection, whatever its status or message, yields a create. */
  lemma {:induction false} AnyRejectionMeansCreate(
    api: Remote, projectId: int, branch: string, paths: seq<PathPair>, contentData: seq<string>, i: nat)
    requires |contentData| <= |paths| && i < |contentData|
    requires api.repositoryFilesShow(projectId, paths[i].target, branch).Err?
    ensures DerivedActions(api, projectId, branch, paths, contentData)[i] == Action(Create, paths[i].target, contentData[i])
  {
    var r := DerivedActions(api, projectId, branch, paths, contentData);
    assert r[i].action != Update;
  }

  /** `determineActions`: the index loop that awaits `getFileExists` and pushes one
      action per content entry. */
  method DetermineActions(api: Remote, projectId: int, branch: string, paths: seq<PathPair>, contentData: seq<string>)
    returns (actions: seq<Action>, trace: seq<Effect>)
    requires |contentData| <= |paths|
    ensures actions == DerivedActions(api, projectId, branch, paths, contentData)
    ensures trace == ExistenceChecks(projectId, branch, paths[..|contentData|])
  {
    ghost var expected := DerivedActions(api, projectId, branch, paths, contentData);
    ghost var checks := ExistenceChecks(projectId, branch, paths[..|contentData|]);
    actions, trace := [], [];
    var index := 0;
    while index < |contentData|
      invariant index <= |contentData|
      invariant actions == expected[..index]
      invariant trace == checks[..index]
    {
      var content := contentData[index];
      var targetPath := paths[index].target;
      var fileExists, check := GetFileExists(api, projectId, targetPath, branch);
      var action := if fileExists then Update else Create;
      assert expected[index] == Action(action, targetPath, content);
      assert expected[..index + 1] == expected[..index] + [expected[index]];
      assert checks[..index + 1] == checks[..index] + check;
      actions := actions + [Action(action, targetPath, content)];
      trace := trace + check;
      index := index + 1;
    }
    assert expected[..index] == expected;
    assert checks[..index] == checks;
  }

  // ---------------------------------------------------------------------------
  // Group grants: the loop of `addGroupsToProject`

  /** A grant the loop acts on: `!groupInfo.name || !groupInfo.access` skips the rest,
      so an access of 0, though an official level, is skipped too. */
  predicate IsActionable(g: Grant)
  {
    Truthy(g.name) && Truthy(g.access)
  }

  /** The calls one iteration makes: nothing for a skipped grant; otherwise the group
      lookup, and the share only when the lookup resolved. A rejected share is only
      logged, so it leaves no further trace. */
  function GrantCalls(api: Remote, projectId: int, g: Grant): seq<Effect>
  {
    if !IsActionable(g) then []
    else match api.groupsShow(g.name)
      case Err(_) => [GroupShow(g.name)]
      case Ok(id) => [GroupShow(g.name), Share(projectId, id, g.access)]
  }

  /** The calls of the whole loop, in grant order. */
  function GrantsCalls(api: Remote, projectId: int, grants: seq<Grant>): seq<Effect>
  {
    if grants == [] then []
    else GrantsCalls(api, projectId, grants[..|grants| - 1]) + GrantCalls(api, projectId, grants[|grants| - 1])
  }

  /** The calls for a list are the calls for any prefix followed by those for the
      rest: what happens to earlier grants, failures included, does not change what
      is done for later ones. */
  lemma {:induction false} GrantsCallsAppend(api: Remote, projectId: int, front: seq<Grant>, back: seq<Grant>)
    ensures GrantsCalls(api, projectId, front + back)
         == GrantsCalls(api, projectId, front) + GrantsCalls(api, projectId, back)
  {
    if back == [] {
      assert front + back == front;
    } else {
      var last := back[|back| - 1];
      var init := back[..|back| - 1];
      assert (front + back)[..|front + back| - 1] == front + init;
      assert (front + back)[|front + back| - 1] == last;
      GrantsCallsAppend(api, projectId, front, init);
      assert GrantsCalls(api, projectId, back) == GrantsCalls(api, projectId, init) + GrantCalls(api, projectId, last);
    }
  }

  /** A skipped grant (falsy name or falsy access, 0 included) contributes no call
      at all, and the grants around it are processed as if it were absent. */
  lemma {:induction false} SkippedGrantIsInvisible(
    api: Remote, projectId: int, before: seq<Grant>, g: Grant, after: seq<Grant>)
    requires !IsActionable(g)
    ensures GrantsCalls(api, projectId, before + [g] + after)
         == GrantsCalls(api, projectId, before) + GrantsCalls(api, projectId, after)
  {
    assert GrantsCalls(api, projectId, [g]) == [] by {
      assert [g][..0] == [];
      assert GrantCalls(api, projectId, g) == [];
    }
    GrantsCallsAppend(api, projectId, before, [g]);
    GrantsCallsAppend(api, projectId, before + [g], after);
  }

  /** Every actionable grant, wherever it stands in the list, gets its group lookup,
      and its share when the lookup resolves: failures of other grants never stop it. */
  lemma {:induction false} EveryActionableGrantIsShared(api: Remote, projectId: int, grants: seq<Grant>, i: nat)
    requires i < |grants| && IsActionable(grants[i])
    ensures GroupShow(grants[i].name) in GrantsCalls(api, projectId, grants)
    ensures api.groupsShow(grants[i].name).Ok? ==>
      Share(projectId, api.groupsShow(grants[i].name).value, grants[i].access) in GrantsCalls(api, projectId, grants)
  {
    assert grants == grants[..i] + [grants[i]] + grants[i + 1..];
    GrantsCallsAppend(api, projectId, grants[..i] + [grants[i]], grants[i + 1..]);
    GrantsCallsAppend(api, projectId, grants[..i], [grants[i]]);
    assert [grants[i]][..0] == [];
  }

  /** Conversely, every share made is for an actionable grant, to the group its
      name resolved to, at the grant's configured access. */
  lemma {:induction false} SharesComeFromGrants(api: Remote, projectId: int, grants: seq<Grant>, e: Effect)
    requires e in GrantsCalls(api, projectId, grants) && e.Share?
    ensures e.project == projectId
    ensures exists i :: (0 <= i < |grants| && IsActionable(grants[i])
                         && api.groupsShow(grants[i].name) == Ok(e.group) && e.access == grants[i].access)
  {
    var n := |grants| - 1;
    if e in GrantsCalls(api, projectId, grants[..n]) {
      SharesComeFromGrants(api, projectId, grants[..n], e);
      var i :| 0 <= i < n && IsActionable(grants[..n][i])
        && api.groupsShow(grants[..n][i].name) == Ok(e.group) && e.access == grants[..n][i].access;
      assert grants[..n][i] == grants[i];
    } else {
      assert e in GrantCalls(api, projectId, grants[n]);
    }
  }

  /** Group provisioning only looks up groups and shares the project. */
  lemma {:induction false} GrantsCallsAreGroupEffects(api: Remote, projectId: int, grants: seq<Grant>)
    ensures forall e :: e in GrantsCalls(api, projectId, grants) ==> e.GroupShow? || e.Share?
  {
    if grants != [] {
      GrantsCallsAreGroupEffects(api, projectId, grants[..|grants| - 1]);
    }
  }

  /** The per-grant loop with `continue` on a malformed grant and a catch around the
      lookup and the share. */
  method ProvisionGrants(api: Remote, projectId: int, grants: seq<Grant>) returns (trace: seq<Effect>)
    ensures trace == GrantsCalls(api, projectId, grants)
  {
    trace := [];
    var i := 0;
    while i < |grants|
      invariant i <= |grants|
      invariant trace == GrantsCalls(api, projectId, grants[..i])
    {
      var groupInfo := grants[i];
      assert grants[..i + 1][..i] == grants[..i];
      i := i + 1;
      if !Truthy(groupInfo.name) || !Truthy(groupInfo.access) {
        continue;
      }
      trace := trace + [GroupShow(groupInfo.name)];
      match api.groupsShow(groupInfo.name)
      case Err(_) =>
      case Ok(groupId) =>
        trace := trace + [Share(projectId, groupId, groupInfo.access)];
    }
    assert grants[..i] == grants;
  }

  // ---------------------------------------------------------------------------
  // Access-level validation: the warning loop over one rule's grants

  /** The warnings for a grant list: one per grant whose access is unsupported, in order. */
  function Warnings(grants: seq<Grant>): seq<Effect>
  {
    if grants == [] then []
    else
      var g := grants[|grants| - 1];
      Warnings(grants[..|grants| - 1]) + if IsSupportedAccess(g.access) then [] else [Warn(g.name, g.access)]
  }

  /** A warning names a configured grant exactly when that grant's access is not a
      supported level; only warnings are produced. */
  lemma {:induction false} WarningsExactlyForUnsupported(grants: seq<Grant>)
    ensures forall e :: e in Warnings(grants) ==> e.Warn?
    ensures forall i :: 0 <= i < |grants| && !IsSupportedAccess(grants[i].access) ==>
      Warn(grants[i].name, grants[i].access) in Warnings(grants)
    ensures forall name, access :: Warn(name, access) in Warnings(grants) ==>
      !IsSupportedAccess(access) && Grant(name, access) in grants
  {
    if grants != [] {
      var n := |grants| - 1;
      WarningsExactlyForUnsupported(grants[..n]);
      assert grants == grants[..n] + [grants[n]];
      forall i | 0 <= i < n ensures grants[..n][i] == grants[i] { }
    }
  }

  /** The warning loop (`forEach` / `for ... of`) over one rule's grants. */
  method WarnUnsupportedAccess(grants: seq<Grant>) returns (warnings: seq<Effect>)
    ensures warnings == Warnings(grants)
  {
    warnings := [];
    var i := 0;
    while i < |grants|
      invariant i <= |grants|
      invariant warnings == Warnings(grants[..i])
    {
      var groupInfo := grants[i];
      assert grants[..i + 1][..i] == grants[..i];
      if !groupInfo.access.Number? || groupInfo.access.n !in OfficialAccessLevels {
        warnings := warnings + [Warn(groupInfo.name, groupInfo.access)];
      }
      i := i + 1;
    }
    assert grants[..i] == grants;
  }
}
