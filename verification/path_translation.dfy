/** Translation between the host tree (`<root>\<project>\...`) and the Docker
    volume tree (`w:\...\<name>_<project>\_data\...`) of one project. */
module PathTranslation {
  import opened Text
  import opened Configuration

  /** The source text of the regular expression for a project's host directory:
      the root as configured (backslashes doubled) joined by a doubled backslash. */
  function WindowsCurrentDirectoryPath(cfg: Config, project: string): string
  {
    cfg.windowsCurrentDirectoryRootPath + "\\\\" + project
  }

  /** The project's volume directory: the template with its first `{{project}}` filled in. */
  function GetLinuxVolumesDirPath(cfg: Config, project: string): string
  {
    ReplaceFirst(cfg.linuxVolumesDirPathTemplate, "{{project}}", project)
  }

  /** The host directory a project's pattern matches. */
  function HostProjectDir(cfg: Config, project: string): string
  {
    Unescape(WindowsCurrentDirectoryPath(cfg, project))
  }

  /** Host path to volume path: every case-insensitive occurrence of the host
      directory is replaced by the volume directory; a missing path passes through. */
  function ConvertToLinuxNetworkPath(cfg: Config, sourcePath: Option<string>, project: string): (r: Option<string>)
    ensures r.Some? <==> sourcePath.Some?
  {
    match sourcePath
    case None => None
    case Some(p) => Some(ReplaceAll(p, HostProjectDir(cfg, project), GetLinuxVolumesDirPath(cfg, project), true))
  }

  /** Volume path to host path: the volume directory is escaped into a pattern and
      every case-insensitive occurrence is replaced by the host directory. */
  function ConvertToWindowsNetworkPath(cfg: Config, sourcePath: Option<string>, project: string): (r: Option<string>)
    ensures r.Some? <==> sourcePath.Some?
  {
    match sourcePath
    case None => None
    case Some(p) =>
      Some(ReplaceAll(p, Unescape(Escape(GetLinuxVolumesDirPath(cfg, project))),
                      Unescape(WindowsCurrentDirectoryPath(cfg, project)), true))
  }

  // ---------------------------------------------------------------------------
  // Lemmas

  /** With a root escaped from a real directory (as the production configuration
      builds it from the working directory), a project's pattern matches exactly
      `root\project`. */
  lemma HostProjectDirOfEscapedRoot(cfg: Config, root: string, project: string)
    requires cfg.windowsCurrentDirectoryRootPath == Escape(root)
    requires '\\' !in project
    ensures HostProjectDir(cfg, project) == root + "\\" + project
  {
    UnescapeJoin(root, project);
  }

  /** The volume directory is the template with the project name in the placeholder. */
  lemma VolumesDirOfTemplate(cfg: Config, before: string, after: string, project: string)
    requires cfg.linuxVolumesDirPathTemplate == before + "{{project}}" + after
    requires '{' !in before
    ensures GetLinuxVolumesDirPath(cfg, project) == before + project + after
  {
    ReplaceFirstAt(before, "{{project}}", project, after);
  }

  /** The host directory is never empty: its pattern always holds a backslash. */
  lemma HostProjectDirNonEmpty(cfg: Config, project: string)
    ensures |HostProjectDir(cfg, project)| > 0
  {
    var w := WindowsCurrentDirectoryPath(cfg, project);
    assert w != [];
  }

  /** A path that does not mention the host directory comes back unchanged. */
  lemma ToLinuxUnchanged(cfg: Config, p: string, project: string)
    requires !Occurs(HostProjectDir(cfg, project), p, true)
    ensures ConvertToLinuxNetworkPath(cfg, Some(p), project) == Some(p)
  {
    HostProjectDirNonEmpty(cfg, project);
    ReplaceAllAbsent(p, HostProjectDir(cfg, project), GetLinuxVolumesDirPath(cfg, project), true);
  }

  /** A path that does not mention the volume directory comes back unchanged. */
  lemma ToWindowsUnchanged(cfg: Config, p: string, project: string)
    requires GetLinuxVolumesDirPath(cfg, project) != []
    requires !Occurs(GetLinuxVolumesDirPath(cfg, project), p, true)
    ensures ConvertToWindowsNetworkPath(cfg, Some(p), project) == Some(p)
  {
    var vol := GetLinuxVolumesDirPath(cfg, project);
    EscapeRoundTrip(vol);
    ReplaceAllAbsent(p, vol, HostProjectDir(cfg, project), true);
  }

  /** A path under the host directory maps to the same relative path under the volume directory. */
  lemma ToLinuxOfHostPath(cfg: Config, project: string, rest: string)
    requires !Occurs(HostProjectDir(cfg, project), rest, true)
    ensures ConvertToLinuxNetworkPath(cfg, Some(HostProjectDir(cfg, project) + rest), project)
         == Some(GetLinuxVolumesDirPath(cfg, project) + rest)
  {
    HostProjectDirNonEmpty(cfg, project);
    ReplaceAllOnlyLeading(HostProjectDir(cfg, project), rest, GetLinuxVolumesDirPath(cfg, project), true);
  }

  /** A path under the volume directory maps to the same relative path under the host directory. */
  lemma ToWindowsOfVolumePath(cfg: Config, project: string, rest: string)
    requires GetLinuxVolumesDirPath(cfg, project) != []
    requires !Occurs(GetLinuxVolumesDirPath(cfg, project), rest, true)
    ensures ConvertToWindowsNetworkPath(cfg, Some(GetLinuxVolumesDirPath(cfg, project) + rest), project)
         == Some(HostProjectDir(cfg, project) + rest)
  {
    var vol := GetLinuxVolumesDirPath(cfg, project);
    EscapeRoundTrip(vol);
    ReplaceAllOnlyLeading(vol, rest, HostProjectDir(cfg, project), true);
  }

  /** Round trip from the host side: a path under the host directory whose
      remainder mentions neither directory is recovered exactly. */
  lemma RoundTripFromHost(cfg: Config, project: string, rest: string)
    requires GetLinuxVolumesDirPath(cfg, project) != []
    requires !Occurs(HostProjectDir(cfg, project), rest, true)
    requires !Occurs(GetLinuxVolumesDirPath(cfg, project), rest, true)
    ensures ConvertToWindowsNetworkPath(cfg,
              ConvertToLinuxNetworkPath(cfg, Some(HostProjectDir(cfg, project) + rest), project), project)
         == Some(HostProjectDir(cfg, project) + rest)
  {
    ToLinuxOfHostPath(cfg, project, rest);
    ToWindowsOfVolumePath(cfg, project, rest);
  }

  /** Round trip from the volume side. */
  lemma RoundTripFromVolume(cfg: Config, project: string, rest: string)
    requires GetLinuxVolumesDirPath(cfg, project) != []
    requires !Occurs(HostProjectDir(cfg, project), rest, true)
    requires !Occurs(GetLinuxVolumesDirPath(cfg, project), rest, true)
    ensures ConvertToLinuxNetworkPath(cfg,
              ConvertToWindowsNetworkPath(cfg, Some(GetLinuxVolumesDirPath(cfg, project) + rest), project), project)
         == Some(GetLinuxVolumesDirPath(cfg, project) + rest)
  {
    ToWindowsOfVolumePath(cfg, project, rest);
    ToLinuxOfHostPath(cfg, project, rest);
  }

  /** A host root written as four backslash-free segments joined by doubled
      backslashes gives the host directory with single backslashes. */
  lemma HostProjectDirOfSegments(cfg: Config, a: string, b: string, c: string, d: string, project: string)
    requires cfg.windowsCurrentDirectoryRootPath == a + "\\\\" + b + "\\\\" + c + "\\\\" + d
    requires '\\' !in a && '\\' !in b && '\\' !in c && '\\' !in d && '\\' !in project
    ensures HostProjectDir(cfg, project) == a + "\\" + b + "\\" + c + "\\" + d + "\\" + project
  {
    assert WindowsCurrentDirectoryPath(cfg, project)
        == a + "\\\\" + (b + "\\\\" + (c + "\\\\" + (d + "\\\\" + project)));
    UnescapeDoubled(a, b + "\\\\" + (c + "\\\\" + (d + "\\\\" + project)));
    UnescapeDoubled(b, c + "\\\\" + (d + "\\\\" + project));
    UnescapeDoubled(c, d + "\\\\" + project);
    UnescapeDoubled(d, project);
    UnescapePlain(project);
  }

  /** The test root is the four segments `D:`, `Roman`, `webserver_v2` and the compose name. */
  lemma TestingRootSegments()
    ensures TestingConfig.windowsCurrentDirectoryRootPath
         == "D:" + "\\\\" + "Roman" + "\\\\" + "webserver_v2" + "\\\\" + ComposeName
  {
    assert "D:" + "\\\\" == "D:\\\\";
    assert "D:\\\\" + "Roman" == "D:\\\\Roman";
    assert "D:\\\\Roman" + "\\\\" == "D:\\\\Roman\\\\";
    assert "D:\\\\Roman\\\\" + "webserver_v2" == "D:\\\\Roman\\\\webserver_v2";
    assert "D:\\\\Roman\\\\webserver_v2" + "\\\\" == "D:\\\\Roman\\\\webserver_v2\\\\";
  }

  /** The regular expression source of project `projectName` under the test configuration. */
  lemma TestingPattern()
    ensures WindowsCurrentDirectoryPath(TestingConfig, "projectName")
         == "D:\\\\Roman\\\\webserver_v2\\\\spd-mothership9\\\\projectName"
  {
    assert "D:\\\\Roman\\\\webserver_v2\\\\" + "spd-mothership9" == "D:\\\\Roman\\\\webserver_v2\\\\spd-mothership9";
    assert "D:\\\\Roman\\\\webserver_v2\\\\spd-mothership9" + "\\\\" == "D:\\\\Roman\\\\webserver_v2\\\\spd-mothership9\\\\";
    assert "D:\\\\Roman\\\\webserver_v2\\\\spd-mothership9\\\\" + "projectName"
        == "D:\\\\Roman\\\\webserver_v2\\\\spd-mothership9\\\\projectName";
  }

  /** The host directory of project `projectName` under the test configuration, by segments. */
  lemma TestingHostDirSegments()
    ensures HostProjectDir(TestingConfig, "projectName")
         == "D:" + "\\" + "Roman" + "\\" + "webserver_v2" + "\\" + ComposeName + "\\" + "projectName"
  {
    TestingRootSegments();
    assert '\\' !in "D:" && '\\' !in "Roman" && '\\' !in "webserver_v2" && '\\' !in ComposeName && '\\' !in "projectName";
    HostProjectDirOfSegments(TestingConfig, "D:", "Roman", "webserver_v2", ComposeName, "projectName");
  }

  lemma HostDirLiteral()
    ensures "D:" + "\\" + "Roman" + "\\" + "webserver_v2" + "\\" + ComposeName + "\\" + "projectName"
         == "D:\\Roman\\webserver_v2\\spd-mothership9\\projectName"
  {
    assert "D:" + "\\" + "Roman" == "D:\\Roman";
    assert "D:\\Roman" + "\\" + "webserver_v2" == "D:\\Roman\\webserver_v2";
    assert "D:\\Roman\\webserver_v2" + "\\" + "spd-mothership9" == "D:\\Roman\\webserver_v2\\spd-mothership9";
    assert "D:\\Roman\\webserver_v2\\spd-mothership9" + "\\" + "projectName"
        == "D:\\Roman\\webserver_v2\\spd-mothership9\\projectName";
  }

  /** The host directory of project `projectName` under the test configuration. */
  lemma TestingHostDir()
    ensures HostProjectDir(TestingConfig, "projectName")
         == "D:\\Roman\\webserver_v2\\spd-mothership9\\projectName"
  {
    TestingHostDirSegments();
    HostDirLiteral();
  }

  /** The volume directory of project `projectName` under the test configuration. */
  lemma TestingVolumeDir()
    ensures GetLinuxVolumesDirPath(TestingConfig, "projectName")
         == "w:\\data\\docker\\volumes\\spd-mothership9_projectName\\_data"
  {
    var before := "w:\\data\\docker\\volumes\\spd-mothership9_";
    assert "_{{project}}\\_data" == "_" + "{{project}}" + "\\_data";
    VolumesDirOfTemplate(TestingConfig, before, "\\_data", "projectName");
    assert before + "projectName" == "w:\\data\\docker\\volumes\\spd-mothership9_projectName";
    assert "w:\\data\\docker\\volumes\\spd-mothership9_projectName" + "\\_data"
        == "w:\\data\\docker\\volumes\\spd-mothership9_projectName\\_data";
  }

  lemma ExampleFiles()
    ensures "D:\\Roman\\webserver_v2\\spd-mothership9\\projectName" + "\\server.php"
         == "D:\\Roman\\webserver_v2\\spd-mothership9\\projectName\\server.php"
    ensures "w:\\data\\docker\\volumes\\spd-mothership9_projectName\\_data" + "\\server.php"
         == "w:\\data\\docker\\volumes\\spd-mothership9_projectName\\_data\\server.php"
  {
  }

  /** Both directions are free of the other directory in the example's remainder. */
  lemma ExampleRestClear()
    ensures !Occurs(HostProjectDir(TestingConfig, "projectName"), "\\server.php", true)
    ensures !Occurs(GetLinuxVolumesDirPath(TestingConfig, "projectName"), "\\server.php", true)
    ensures GetLinuxVolumesDirPath(TestingConfig, "projectName") != []
  {
    TestingHostDir();
    TestingVolumeDir();
    ShortHasNoOccurrence("\\server.php", HostProjectDir(TestingConfig, "projectName"), true);
    ShortHasNoOccurrence("\\server.php", GetLinuxVolumesDirPath(TestingConfig, "projectName"), true);
  }

  /** The documented example, host to volume: `...\projectName\server.php` becomes the volume twin. */
  lemma ConvertExampleToLinux()
    ensures ConvertToLinuxNetworkPath(TestingConfig,
              Some("D:\\Roman\\webserver_v2\\spd-mothership9\\projectName\\server.php"), "projectName")
         == Some("w:\\data\\docker\\volumes\\spd-mothership9_projectName\\_data\\server.php")
  {
    ExampleRestClear();
    ToLinuxOfHostPath(TestingConfig, "projectName", "\\server.php");
    TestingHostDir();
    TestingVolumeDir();
    ExampleFiles();
  }

  /** The documented example, volume to host. */
  lemma ConvertExampleToWindows()
    ensures ConvertToWindowsNetworkPath(TestingConfig,
              Some("w:\\data\\docker\\volumes\\spd-mothership9_projectName\\_data\\server.php"), "projectName")
         == Some("D:\\Roman\\webserver_v2\\spd-mothership9\\projectName\\server.php")
  {
    ExampleRestClear();
    ToWindowsOfVolumePath(TestingConfig, "projectName", "\\server.php");
    TestingHostDir();
    TestingVolumeDir();
    ExampleFiles();
  }
}
