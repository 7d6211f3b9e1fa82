/** The short forms of paths shown in the event log: a host path loses its root
    and project folder, a volume path loses its project's volume directory. Only
    the strings are modelled; printing them is not. */
module ShortPaths {
  import opened Text
  import opened Configuration
  import opened WatchRules
  import opened PathTranslation

  const Placeholder := "{{project}}"

  // ---------------------------------------------------------------------------
  // The host side: the root removed, then `^\\.+?\\` replaced by one backslash

  /** The end of a leading `\name\`: scanning from `k`, the first backslash at
      index two or more, as long as no line terminator comes before it (`.`
      matches any other character, a backslash included). */
  function SeparatorAfterHead(p: string, k: nat): (r: Option<nat>)
    requires 2 <= k
    ensures r.Some? ==> k <= r.value < |p| && p[r.value] == '\\'
    decreases |p| - k
  {
    if k >= |p| then None
    else if IsLineTerminator(p[k - 1]) then None
    else if p[k] == '\\' then Some(k)
    else SeparatorAfterHead(p, k + 1)
  }

  /** `p.replace(/^\\.+?\\/, "\\")`: the leading folder is dropped, keeping one backslash. */
  function DropHeadSegment(p: string): string
  {
    if |p| >= 1 && p[0] == '\\' then
      match SeparatorAfterHead(p, 2)
      case Some(k) => "\\" + p[k + 1..]
      case None => p
    else p
  }

  /** `consoleLogWindowsPathToShortName`: the first occurrence of the host root is
      removed, and only if that changed the path is its leading folder dropped. */
  function WindowsPathToShortName(cfg: Config, sourcePath: string): string
  {
    var shortPath := ReplaceFirst(sourcePath, Unescape(cfg.windowsCurrentDirectoryRootPath), "");
    if shortPath != sourcePath then DropHeadSegment(shortPath) else shortPath
  }

  // ---------------------------------------------------------------------------
  // The volume side: the template with `.+?` for the project, removed everywhere

  /** The text before and after the first occurrence of `pat`. */
  function SplitAtFirst(s: string, pat: string): (r: Option<(string, string)>)
    ensures r.Some? ==> s == r.value.0 + pat + r.value.1
    decreases |s|
  {
    if MatchAt(s, 0, pat, false) then
      assert s[..|pat|] == pat by { MatchAtSlice(s, 0, pat); }
      Some(([], s[|pat|..]))
    else if s == [] then None
    else
      match SplitAtFirst(s[1..], pat)
      case None => None
      case Some((a, b)) =>
        assert s == [s[0]] + s[1..];
        Some(([s[0]] + a, b))
  }

  /** Where `.+?` followed by `after` ends when the wildcard starts at `e - 1`:
      the shortest run of one or more non-terminator characters that `after`
      follows, case-insensitively. */
  function WildcardEnd(s: string, e: nat, after: string): (r: Option<nat>)
    requires 1 <= e
    ensures r.Some? ==> e <= r.value && r.value + |after| <= |s|
    decreases |s| + 1 - e
  {
    if e > |s| then None
    else if IsLineTerminator(s[e - 1]) then None
    else if MatchAt(s, e, after, true) then Some(e)
    else WildcardEnd(s, e + 1, after)
  }

  /** A global, case-insensitive removal of `before`, a lazy `.+?`, then `after`. */
  function RemoveLazyMatches(s: string, before: string, after: string): string
    decreases |s|
  {
    if s == [] then []
    else if MatchAt(s, 0, before, true) then
      match WildcardEnd(s, |before| + 1, after)
      case Some(e) => RemoveLazyMatches(s[e + |after|..], before, after)
      case None => [s[0]] + RemoveLazyMatches(s[1..], before, after)
    else [s[0]] + RemoveLazyMatches(s[1..], before, after)
  }

  /** `consoleLogLinuxPathToShortName`: the volume template, its first placeholder
      turned into a wildcard, removed wherever it matches. */
  function LinuxPathToShortName(cfg: Config, sourcePath: string): string
  {
    match SplitAtFirst(cfg.linuxVolumesDirPathTemplate, Placeholder)
    case Some((before, after)) => RemoveLazyMatches(sourcePath, before, after)
    case None => ReplaceAll(sourcePath, cfg.linuxVolumesDirPathTemplate, "", true)
  }

  /** `consoleLogAnyPathToShortPath`: the host rule, then the volume rule. */
  function AnyPathToShortPath(cfg: Config, sourcePath: string): string
  {
    LinuxPathToShortName(cfg, WindowsPathToShortName(cfg, sourcePath))
  }

  // ---------------------------------------------------------------------------
  // Lemmas

  /** `k` closes a leading `\name\` that the regular expression accepts. */
  predicate HeadSegmentEnd(p: string, k: int)
  {
    2 <= k < |p| && p[k] == '\\' && forall j | 1 <= j < k :: !IsLineTerminator(p[j])
  }

  /** The scan finds the first accepted end at or after `k`, and nothing when there is none. */
  lemma {:induction false} SeparatorAfterHeadFirst(p: string, k: nat)
    requires 2 <= k
    requires forall j | 1 <= j < k - 1 && j < |p| :: !IsLineTerminator(p[j])
    ensures SeparatorAfterHead(p, k).Some? ==>
              HeadSegmentEnd(p, SeparatorAfterHead(p, k).value) &&
              forall j | k <= j < SeparatorAfterHead(p, k).value :: !HeadSegmentEnd(p, j)
    ensures SeparatorAfterHead(p, k).None? ==> forall j | k <= j :: !HeadSegmentEnd(p, j)
    decreases |p| - k
  {
    if k < |p| && !IsLineTerminator(p[k - 1]) && p[k] != '\\' {
      SeparatorAfterHeadFirst(p, k + 1);
    } else if k < |p| && IsLineTerminator(p[k - 1]) {
      forall j | k <= j ensures !HeadSegmentEnd(p, j) {
      }
    }
  }

  /** Dropping the leading folder against its regular-expression reading: the
      text up to the FIRST accepted separator becomes one backslash; with no
      accepted separator (or no leading backslash) the path is unchanged. */
  lemma DropHeadSegmentMeaning(p: string)
    ensures |p| >= 1 && p[0] == '\\' && (exists k :: HeadSegmentEnd(p, k)) ==>
              exists k :: HeadSegmentEnd(p, k) && (forall j | 2 <= j < k :: !HeadSegmentEnd(p, j)) &&
                DropHeadSegment(p) == "\\" + p[k + 1..]
    ensures !(|p| >= 1 && p[0] == '\\' && exists k :: HeadSegmentEnd(p, k)) ==> DropHeadSegment(p) == p
  {
    SeparatorAfterHeadFirst(p, 2);
  }

  /** A leading `\project\` folder is dropped down to its backslash. */
  lemma DropProjectFolder(project: string, rest: string)
    requires project != [] && '\\' !in project
    requires forall i | 0 <= i < |project| :: !IsLineTerminator(project[i])
    ensures DropHeadSegment("\\" + project + "\\" + rest) == "\\" + rest
  {
    var tail := "\\" + project + "\\" + rest;
    var k := |project| + 1;
    assert HeadSegmentEnd(tail, k);
    forall j | 2 <= j < k ensures !HeadSegmentEnd(tail, j) {
      assert tail[j] == project[j - 1];
    }
    DropHeadSegmentMeaning(tail);
    assert tail[k + 1..] == rest;
  }

  /** Removing the first occurrence of a prefix leaves what follows it. */
  lemma ReplaceFirstLeading(root: string, tail: string)
    requires root != []
    ensures ReplaceFirst(root + tail, root, "") == tail
  {
    assert root + tail == [] + root + tail;
    ReplaceFirstAt([], root, [], tail);
    assert [] + [] + tail == tail;
  }

  /** A host path inside a project folder loses the root and the folder. */
  lemma WindowsShortNameOfProjectPath(cfg: Config, root: string, project: string, rest: string)
    requires Unescape(cfg.windowsCurrentDirectoryRootPath) == root && root != []
    requires project != [] && '\\' !in project
    requires forall i | 0 <= i < |project| :: !IsLineTerminator(project[i])
    ensures WindowsPathToShortName(cfg, root + "\\" + project + "\\" + rest) == "\\" + rest
  {
    var tail := "\\" + project + "\\" + rest;
    assert root + "\\" + project + "\\" + rest == root + tail;
    ReplaceFirstLeading(root, tail);
    assert |tail| < |root + tail|;
    DropProjectFolder(project, rest);
  }

  /** A path without the host root is not shortened on the host side. */
  lemma WindowsShortNameOutsideRoot(cfg: Config, sourcePath: string)
    requires !Occurs(Unescape(cfg.windowsCurrentDirectoryRootPath), sourcePath, false)
    ensures WindowsPathToShortName(cfg, sourcePath) == sourcePath
  {
    ReplaceFirstAbsent(sourcePath, Unescape(cfg.windowsCurrentDirectoryRootPath), "");
  }

  /** The first occurrence of a pattern whose first character the prefix lacks is right after it. */
  lemma {:induction false} SplitAtFirstAt(a: string, pat: string, b: string)
    requires |pat| > 0 && pat[0] !in a
    ensures SplitAtFirst(a + pat + b, pat) == Some((a, b))
    decreases |a|
  {
    var s := a + pat + b;
    if a == [] {
      assert s == pat + b;
      MatchesItself(pat, false);
      MatchAtShift(pat + b, 0, 0, pat, false);
      assert MatchAt(s, 0, pat, false) by {
        forall j | 0 <= j < |pat| ensures SameChar(s[j], pat[j], false) { }
      }
      assert s[|pat|..] == b;
    } else {
      assert !MatchAt(s, 0, pat, false) by { assert s[0] == a[0]; assert a[0] != pat[0]; }
      SplitAtFirstAt(a[1..], pat, b);
      assert s[1..] == a[1..] + pat + b;
      assert [a[0]] + a[1..] == a;
    }
  }

  /** The lazy wildcard stops at the first place `after` follows. */
  lemma {:induction false} WildcardEndFirst(s: string, e: nat, after: string, target: nat)
    requires 1 <= e <= target
    requires forall j | e - 1 <= j < target :: j < |s| && !IsLineTerminator(s[j])
    requires forall j | e <= j < target :: !MatchAt(s, j, after, true)
    requires MatchAt(s, target, after, true)
    ensures WildcardEnd(s, e, after) == Some(target)
    decreases target - e
  {
    if e < target {
      WildcardEndFirst(s, e + 1, after, target);
    }
  }

  /** Where `before` never occurs, nothing is removed. */
  lemma {:induction false} RemoveLazyMatchesAbsent(s: string, before: string, after: string)
    requires !Occurs(before, s, true)
    ensures RemoveLazyMatches(s, before, after) == s
    decreases |s|
  {
    if s != [] {
      assert !MatchAt(s, 0, before, true);
      assert !Occurs(before, s[1..], true) by {
        forall i | 0 <= i <= |s[1..]| - |before| ensures !MatchAt(s[1..], i, before, true) {
          MatchAtShift(s, 1, i, before, true);
        }
      }
      RemoveLazyMatchesAbsent(s[1..], before, after);
      assert [s[0]] + s[1..] == s;
    }
  }

  /** A volume path of a project loses the project's volume directory, when the
      part after the placeholder starts with a backslash the project name lacks. */
  lemma LinuxShortNameOfProjectPath(cfg: Config, before: string, after: string, project: string, rest: string)
    requires cfg.linuxVolumesDirPathTemplate == before + Placeholder + after
    requires '{' !in before
    requires after != [] && after[0] == '\\'
    requires project != [] && '\\' !in project
    requires forall i | 0 <= i < |project| :: !IsLineTerminator(project[i])
    requires !Occurs(before, rest, true)
    ensures LinuxPathToShortName(cfg, before + project + after + rest) == rest
  {
    SplitAtFirstAt(before, Placeholder, after);
    var s := before + project + after + rest;
    var target := |before| + |project|;
    assert MatchAt(s, 0, before, true) by {
      forall j | 0 <= j < |before| ensures SameChar(s[j], before[j], true) { assert s[j] == before[j]; }
    }
    assert MatchAt(s, target, after, true) by {
      forall j | 0 <= j < |after| ensures SameChar(s[target + j], after[j], true) {
        assert s[target + j] == after[j];
      }
    }
    forall j | |before| + 1 - 1 <= j < target ensures j < |s| && !IsLineTerminator(s[j]) {
      assert s[j] == project[j - |before|];
    }
    forall j | |before| + 1 <= j < target ensures !MatchAt(s, j, after, true) {
      assert s[j] == project[j - |before|];
      assert s[j] != '\\';
    }
    WildcardEndFirst(s, |before| + 1, after, target);
    assert s[target + |after|..] == rest;
    RemoveLazyMatchesAbsent(rest, before, after);
  }

  /** A pattern whose first character the text lacks does not occur in it. */
  lemma FirstCharAbsent(pat: string, s: string)
    requires |pat| > 0 && pat[0] !in s
    ensures !Occurs(pat, s, false)
  {
    forall i | 0 <= i <= |s| - |pat| ensures !MatchAt(s, i, pat, false) {
      assert s[i] in s;
    }
  }

  // ---------------------------------------------------------------------------
  // The documented examples, under the test configuration

  const ExampleHostPath := "D:\\Roman\\webserver_v2\\spd-mothership9\\projectName\\server.php"
  const ExampleVolumePath := "w:\\data\\docker\\volumes\\spd-mothership9_projectName\\_data\\server.php"
  const VolumePrefix := "w:\\data\\docker\\volumes\\spd-mothership9_"

  /** A root of four backslash-free segments joined by doubled backslashes. */
  lemma UnescapeSegments(a: string, b: string, c: string, d: string)
    requires '\\' !in a && '\\' !in b && '\\' !in c && '\\' !in d
    ensures Unescape(a + "\\\\" + b + "\\\\" + c + "\\\\" + d) == a + "\\" + b + "\\" + c + "\\" + d
  {
    assert a + "\\\\" + b + "\\\\" + c + "\\\\" + d == a + "\\\\" + (b + "\\\\" + (c + "\\\\" + d));
    UnescapeDoubled(a, b + "\\\\" + (c + "\\\\" + d));
    UnescapeDoubled(b, c + "\\\\" + d);
    UnescapeDoubled(c, d);
    UnescapePlain(d);
  }

  lemma RootLiteral()
    ensures "D:" + "\\" + "Roman" + "\\" + "webserver_v2" + "\\" + ComposeName == "D:\\Roman\\webserver_v2\\spd-mothership9"
  {
    assert "D:" + "\\" + "Roman" == "D:\\Roman";
    assert "D:\\Roman" + "\\" + "webserver_v2" == "D:\\Roman\\webserver_v2";
  }

  lemma TestingRootUnescaped()
    ensures Unescape(TestingConfig.windowsCurrentDirectoryRootPath) == "D:\\Roman\\webserver_v2\\spd-mothership9"
  {
    TestingRootSegments();
    assert '\\' !in "D:" && '\\' !in "Roman" && '\\' !in "webserver_v2" && '\\' !in ComposeName;
    UnescapeSegments("D:", "Roman", "webserver_v2", ComposeName);
    RootLiteral();
  }

  lemma ExampleHostPathSegments()
    ensures ExampleHostPath == "D:\\Roman\\webserver_v2\\spd-mothership9" + "\\" + "projectName" + "\\" + "server.php"
  {
  }

  lemma ExampleVolumePathSegments()
    ensures TestingConfig.linuxVolumesDirPathTemplate == VolumePrefix + Placeholder + "\\_data"
    ensures ExampleVolumePath == VolumePrefix + "projectName" + "\\_data" + "\\server.php"
  {
  }

  lemma ProjectNamePlain()
    ensures "projectName" != [] && '\\' !in "projectName"
    ensures forall i | 0 <= i < |"projectName"| :: !IsLineTerminator("projectName"[i])
  {
  }

  /** The host example shortens to `\server.php`. */
  lemma ExampleWindowsShortName()
    ensures WindowsPathToShortName(TestingConfig, ExampleHostPath) == "\\server.php"
  {
    var root := "D:\\Roman\\webserver_v2\\spd-mothership9";
    TestingRootUnescaped();
    ExampleHostPathSegments();
    ProjectNamePlain();
    WindowsShortNameOfProjectPath(TestingConfig, root, "projectName", "server.php");
  }

  /** The volume example shortens to `\server.php`. */
  lemma ExampleLinuxShortName()
    ensures LinuxPathToShortName(TestingConfig, ExampleVolumePath) == "\\server.php"
  {
    ExampleVolumePathSegments();
    ProjectNamePlain();
    ShortHasNoOccurrence("\\server.php", VolumePrefix, true);
    LinuxShortNameOfProjectPath(TestingConfig, VolumePrefix, "\\_data", "projectName", "\\server.php");
  }

  lemma VolumePathLacksRoot()
    ensures !Occurs("D:\\Roman\\webserver_v2\\spd-mothership9", ExampleVolumePath, false)
  {
    ExampleVolumePathSegments();
    assert 'D' !in VolumePrefix && 'D' !in "projectName" && 'D' !in "\\_data" && 'D' !in "\\server.php";
    FirstCharAbsent("D:\\Roman\\webserver_v2\\spd-mothership9", ExampleVolumePath);
  }

  /** The volume example has no host root in it. */
  lemma ExampleVolumePathOutsideRoot()
    ensures WindowsPathToShortName(TestingConfig, ExampleVolumePath) == ExampleVolumePath
  {
    TestingRootUnescaped();
    VolumePathLacksRoot();
    WindowsShortNameOutsideRoot(TestingConfig, ExampleVolumePath);
  }

  /** A short name has no volume directory left in it. */
  lemma ShortNameStaysShort()
    ensures LinuxPathToShortName(TestingConfig, "\\server.php") == "\\server.php"
  {
    ExampleVolumePathSegments();
    assert '{' !in VolumePrefix;
    SplitAtFirstAt(VolumePrefix, Placeholder, "\\_data");
    ShortHasNoOccurrence("\\server.php", VolumePrefix, true);
    RemoveLazyMatchesAbsent("\\server.php", VolumePrefix, "\\_data");
  }

  /** Either form of the example file shortens to the same `\server.php`. */
  lemma ExampleAnyShortPath()
    ensures AnyPathToShortPath(TestingConfig, ExampleHostPath) == "\\server.php"
    ensures AnyPathToShortPath(TestingConfig, ExampleVolumePath) == "\\server.php"
  {
    ExampleWindowsShortName();
    ShortNameStaysShort();
    ExampleVolumePathOutsideRoot();
    ExampleLinuxShortName();
  }
}
