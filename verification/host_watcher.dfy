/** The older host-side entry point: it watches each project under the working
    directory and writes one `command|source|destination` line per change to a
    log that the container replays. The working directory is a parameter. */
module HostWatcher {
  import opened Text
  import opened Configuration
  import opened WatchRules

  /** Where the container mounts the host tree it copies from. */
  const ContainerSourcePath := "/source"
  /** Where the container keeps the project. */
  const ContainerDestinationPath := "/app"
  const HostWatcherLogDirPathTemplate := "./docker/watcher/{{project}}"
  const HostWatcherLogPathTemplate := HostWatcherLogDirPathTemplate + "/watcher.log"

  /** The source text of the regular expression for a project's host directory:
      the working directory with its backslashes doubled, a doubled backslash, the project. */
  function HostCurrentDirectoryPath(cwd: string, project: string): string
  {
    Escape(cwd) + "\\\\" + project
  }

  /** A host path relative to the project directory, in Unix form: every
      case-insensitive occurrence of the project directory removed, then every
      backslash turned into a slash. A missing path stays missing. */
  function ConvertToUnixRelativePath(cwd: string, path: Option<string>, project: string): (r: Option<string>)
    ensures r.Some? <==> path.Some?
    ensures r.Some? ==> '\\' !in r.value
  {
    match path
    case None => None
    case Some(p) =>
      var relative := ReplaceAll(p, Unescape(HostCurrentDirectoryPath(cwd, project)), "", true);
      ReplaceAllCharGone(relative, '\\', '/');
      Some(ReplaceAll(relative, "\\", "/", false))
  }

  /** How a possibly missing string is concatenated: a missing one reads `undefined`. */
  function Concatenated(s: Option<string>): string
  {
    match s
    case None => "undefined"
    case Some(v) => v
  }

  /** `renamedToPath || null`: an empty string counts as missing. */
  function PresentOrNull(s: Option<string>): Option<string>
  {
    if s == Some("") then None else s
  }

  /** The log line for one watcher event, or `None` (`null`) for an event it does not replay. */
  function CreateUnixExecCommand(cwd: string, eventName: string, targetPath: string,
                                 renamedToPath: Option<string>, project: string): (r: Option<string>)
    ensures r.Some? <==> eventName in ["change", "add", "unlink", "rename", "renameDir", "addDir", "unlinkDir"]
  {
    var target := Concatenated(ConvertToUnixRelativePath(cwd, Some(targetPath), project));
    if eventName == "change" || eventName == "add" then
      Some("cp|" + ContainerSourcePath + target + "|" + ContainerDestinationPath + target)
    else if eventName == "unlink" then
      Some("rm||" + ContainerDestinationPath + target)
    else if eventName == "rename" || eventName == "renameDir" then
      var renamed := Concatenated(ConvertToUnixRelativePath(cwd, PresentOrNull(renamedToPath), project));
      Some("mv|" + ContainerSourcePath + target + "|" + ContainerDestinationPath + renamed)
    else if eventName == "addDir" then
      Some("mkdir||" + ContainerDestinationPath + target)
    else if eventName == "unlinkDir" then
      Some("rmdir||" + ContainerDestinationPath + target)
    else None
  }

  /** The directory a project's log is written to. */
  function HostWatcherLogDirPath(project: string): string
  {
    ReplaceFirst(HostWatcherLogDirPathTemplate, "{{project}}", project)
  }

  /** The log a project's commands are appended to. */
  function HostWatcherLogPath(project: string): string
  {
    ReplaceFirst(HostWatcherLogPathTemplate, "{{project}}", project)
  }

  /** The paths the watcher does not report: anything inside a `.git`, `vendor`,
      `node_modules` or `.idea` directory. */
  predicate IgnoredByWatcher(path: string)
  {
    Contains(path, "\\.git\\") || Contains(path, "\\vendor\\") ||
    Contains(path, "\\node_modules\\") || Contains(path, "\\.idea\\")
  }

  // ---------------------------------------------------------------------------
  // Lemmas

  /** With a working directory free of regular-expression syntax other than
      backslashes, the project directory the pattern matches is `cwd\project`. */
  lemma HostDirectory(cwd: string, project: string)
    requires '\\' !in project
    ensures Unescape(HostCurrentDirectoryPath(cwd, project)) == cwd + "\\" + project
  {
    UnescapeJoin(cwd, project);
  }

  /** A path inside the project directory becomes its remainder with slashes,
      and the result holds no backslash. */
  lemma UnixRelativeOfHostPath(cwd: string, project: string, rest: string)
    requires '\\' !in project
    requires !Occurs(cwd + "\\" + project, rest, true)
    ensures ConvertToUnixRelativePath(cwd, Some(cwd + "\\" + project + rest), project)
         == Some(ReplaceAll(rest, "\\", "/", false))
    ensures '\\' !in ConvertToUnixRelativePath(cwd, Some(cwd + "\\" + project + rest), project).value
  {
    HostDirectory(cwd, project);
    ReplaceAllOnlyLeading(cwd + "\\" + project, rest, "", true);
    assert "" + rest == rest;
    ReplaceAllCharGone(rest, '\\', '/');
  }

  /** A line splits back at `|` into its command, source and destination, as
      long as the paths hold no `|`. */
  lemma CommandFields(cwd: string, eventName: string, targetPath: string, renamedToPath: Option<string>,
                      project: string)
    requires CreateUnixExecCommand(cwd, eventName, targetPath, renamedToPath, project).Some?
    requires '|' !in targetPath
    requires renamedToPath.Some? ==> '|' !in renamedToPath.value
    requires '|' !in cwd && '|' !in project
    ensures var target := Concatenated(ConvertToUnixRelativePath(cwd, Some(targetPath), project));
      var renamed := Concatenated(ConvertToUnixRelativePath(cwd, PresentOrNull(renamedToPath), project));
      var fields := Split(CreateUnixExecCommand(cwd, eventName, targetPath, renamedToPath, project).value, '|');
      fields == if eventName == "change" || eventName == "add" then ["cp", "/source" + target, "/app" + target]
                else if eventName == "unlink" then ["rm", "", "/app" + target]
                else if eventName == "rename" || eventName == "renameDir" then ["mv", "/source" + target, "/app" + renamed]
                else if eventName == "addDir" then ["mkdir", "", "/app" + target]
                else ["rmdir", "", "/app" + target]
  {
    var target := Concatenated(ConvertToUnixRelativePath(cwd, Some(targetPath), project));
    var renamed := Concatenated(ConvertToUnixRelativePath(cwd, PresentOrNull(renamedToPath), project));
    NoBarAfterConversion(cwd, Some(targetPath), project);
    NoBarAfterConversion(cwd, PresentOrNull(renamedToPath), project);
    var cmd := CreateUnixExecCommand(cwd, eventName, targetPath, renamedToPath, project).value;
    if eventName == "change" || eventName == "add" {
      assert cmd == "cp" + "|" + ("/source" + target) + "|" + ("/app" + target);
      ThreeFields("cp", "/source" + target, "/app" + target);
    } else if eventName == "unlink" {
      assert cmd == "rm" + "|" + "" + "|" + ("/app" + target);
      ThreeFields("rm", "", "/app" + target);
    } else if eventName == "rename" || eventName == "renameDir" {
      assert cmd == "mv" + "|" + ("/source" + target) + "|" + ("/app" + renamed);
      ThreeFields("mv", "/source" + target, "/app" + renamed);
    } else if eventName == "addDir" {
      assert cmd == "mkdir" + "|" + "" + "|" + ("/app" + target);
      ThreeFields("mkdir", "", "/app" + target);
    } else {
      assert cmd == "rmdir" + "|" + "" + "|" + ("/app" + target);
      ThreeFields("rmdir", "", "/app" + target);
    }
  }

  /** Three `|`-free fields joined by `|` split back into themselves. */
  lemma ThreeFields(a: string, b: string, c: string)
    requires '|' !in a && '|' !in b && '|' !in c
    ensures Split(a + "|" + b + "|" + c, '|') == [a, b, c]
  {
    assert a + "|" + b + "|" + c == a + ['|'] + (b + ['|'] + c);
    SplitAt(a, '|', b + ['|'] + c);
    SplitAt(b, '|', c);
    SplitPlain(c, '|');
  }

  /** Conversion brings in no `|` that the inputs did not have. */
  lemma NoBarAfterConversion(cwd: string, path: Option<string>, project: string)
    requires '|' !in cwd && '|' !in project
    requires path.Some? ==> '|' !in path.value
    ensures '|' !in Concatenated(ConvertToUnixRelativePath(cwd, path, project))
  {
    if path.Some? {
      var p := path.value;
      var once := ReplaceAll(p, Unescape(HostCurrentDirectoryPath(cwd, project)), "", true);
      ReplaceAllKeepsAbsentChar(p, Unescape(HostCurrentDirectoryPath(cwd, project)), "", true, '|');
      ReplaceAllKeepsAbsentChar(once, "\\", "/", false, '|');
    }
  }

  /** A rename without a destination (or with an empty one) writes `undefined` as the destination. */
  lemma RenameWithoutDestination(cwd: string, targetPath: string, project: string)
    ensures var target := Concatenated(ConvertToUnixRelativePath(cwd, Some(targetPath), project));
      CreateUnixExecCommand(cwd, "rename", targetPath, None, project)
        == CreateUnixExecCommand(cwd, "rename", targetPath, Some(""), project)
        == Some("mv|/source" + target + "|/appundefined")
  {
    var target := Concatenated(ConvertToUnixRelativePath(cwd, Some(targetPath), project));
    assert "mv|" + "/source" + target + "|" + "/app" + "undefined" == "mv|/source" + target + "|/appundefined";
  }

  lemma LogDirTemplate()
    ensures HostWatcherLogDirPathTemplate == "./docker/watcher/" + "{{project}}" + ""
    ensures HostWatcherLogPathTemplate == "./docker/watcher/" + "{{project}}" + "/watcher.log"
    ensures '{' !in "./docker/watcher/"
  {
  }

  /** A project's log directory and log file. */
  lemma LogPaths(project: string)
    ensures HostWatcherLogDirPath(project) == "./docker/watcher/" + project
    ensures HostWatcherLogPath(project) == "./docker/watcher/" + project + "/watcher.log"
  {
    LogDirTemplate();
    ReplaceFirstAt("./docker/watcher/", "{{project}}", project, "");
    ReplaceFirstAt("./docker/watcher/", "{{project}}", project, "/watcher.log");
  }

  /** The fixed ignore rule is the ignore-pattern rule with the four directories
      as `*` patterns, whatever the project. */
  lemma IgnoredByWatcherAsPatterns(cfg: Config, path: string, project: string)
    requires cfg.ignoreWindowsWatcherPaths == ["*\\.git\\", "*\\vendor\\", "*\\node_modules\\", "*\\.idea\\"]
    ensures IgnoredByWatcher(path) <==> ExcludeWindowsWatcherPaths(cfg, path, project)
  {
    var ps := cfg.ignoreWindowsWatcherPaths;
    assert IgnorePattern(ps[0], project) == "\\.git\\";
    assert IgnorePattern(ps[1], project) == "\\vendor\\";
    assert IgnorePattern(ps[2], project) == "\\node_modules\\";
    assert IgnorePattern(ps[3], project) == "\\.idea\\";
  }
}
