/** The entities the provisioning pipeline shares with GitLab: rule parts, commit
    actions, the remote API and local template files as oracles, and the trace of
    effects the pipeline issues. */
module Gitlab {
  import opened Js

  /** A compiled `RegExp`; `test` is its `RegExp.prototype.test`, an uninterpreted
      predicate on the namespace path (no flags, so it keeps no state). */
  datatype Regex = Regex(test: string -> bool)

  /** One template injection: `source` below the templates root, `target` in the new repository. */
  datatype PathPair = PathPair(source: string, target: string)

  /** One group grant of a rule, with the values exactly as configured. */
  datatype Grant = Grant(name: Scalar, access: Scalar)

  datatype ActionKind = Create | Update

  /** One entry of the `actions` array sent to `Commits.create`. */
  datatype Action = Action(action: ActionKind, filePath: string, content: string)

  /** The answers of the read-only GitLab calls whose outcome the pipeline inspects.
      `Projects.share` and `Commits.create` are not here: their outcome is only logged. */
  datatype Remote = Remote(
    groupsShow: Scalar -> Result<int, Error>,                  // Groups.show(name): the group's id
    repositoryFilesShow: (int, string, string) -> Result<(), Error>)  // RepositoryFiles.show(project, file, branch)

  /** The local file system: what `fs.readFile` of a full path yields. */
  type FileSystem = string -> Result<string, Error>

  /** Everything the pipeline does outside itself, in the order it does it. */
  datatype Effect =
    | ReadFile(path: string)                                   // fs.readFile of a template
    | FileShow(project: int, file: string, branch: string)     // api.RepositoryFiles.show
    | CommitCreate(project: int, branch: string, message: Scalar, actions: seq<Action>)  // api.Commits.create
    | Schedule(delay: nat)                                     // setTimeout of the deferred commit
    | GroupShow(name: Scalar)                                  // api.Groups.show
    | Share(project: int, group: int, access: Scalar)          // api.Projects.share
    | Warn(name: Scalar, access: Scalar)                       // console.warn of an unsupported access level
    | Callback                                                 // the dispatcher's completion callback
  {
    /** Effects of commit provisioning. */
    predicate IsCommitEffect()
    {
      ReadFile? || FileShow? || CommitCreate? || Schedule?
    }

    /** Effects of group provisioning, validation included. */
    predicate IsGroupEffect()
    {
      GroupShow? || Share? || Warn?
    }
  }

  /** `injectiblesFilePath`, the root that template sources are joined to. */
  const InjectablesRoot: string := "../config/"

  /** `path.join(injectiblesFilePath, file)`; path normalisation is not modelled. */
  function FullSourcePath(file: string): string
  {
    InjectablesRoot + file
  }

  /** `officialAccessLevels`: GitLab's access levels and their role names. */
  const OfficialAccessLevels: map<int, string> := map[
    0 := "No access", 5 := "Minimal access", 10 := "Guest", 20 := "Reporter",
    30 := "Developer", 40 := "Maintainer", 50 := "Owner"]

  /** The negation of the warning test `typeof access !== 'number' || !(access in officialAccessLevels)`. */
  predicate IsSupportedAccess(access: Scalar)
  {
    access.Number? && access.n in OfficialAccessLevels
  }

  /** The supported access values are exactly the seven integer levels. */
  lemma {:induction false} SupportedAccessLevels(access: Scalar)
    ensures IsSupportedAccess(access) <==>
      access in {Number(0), Number(5), Number(10), Number(20), Number(30), Number(40), Number(50)}
  {
  }

  /** `getFileExists`: one `RepositoryFiles.show` call; any rejection, not just
      "404 not found", is read as "does not exist". */
  method GetFileExists(api: Remote, projectId: int, file: string, branch: string)
    returns (fileExists: bool, trace: seq<Effect>)
    ensures trace == [FileShow(projectId, file, branch)]
    ensures fileExists <==> api.repositoryFilesShow(projectId, file, branch).Ok?
  {
    fileExists := false;
    trace := [FileShow(projectId, file, branch)];
    match api.repositoryFilesShow(projectId, file, branch)
    case Ok(_) =>
      fileExists := true;
    case Err(_) =>
  }
}
