/** Which projects and directories the watcher follows, and which changed paths
    it must not carry from the host to the volume. */
module WatchRules {
  import opened Text
  import opened Configuration
  import opened PathTranslation

  /** An evaluation that either yields a value or stops with a `TypeError`
      (reading `.length` of, or iterating over, a missing `'*'` entry). */
  datatype Result<T> = Ok(value: T) | TypeError

  // ---------------------------------------------------------------------------
  // Lists

  /** The default watch list, held under the key `'*'`. */
  function Defaults(rules: map<string, seq<string>>): Option<seq<string>>
  {
    if "*" in rules then Some(rules["*"]) else None
  }

  /** The elements of `s` not in `seen`, each once, in order of first occurrence. */
  function DedupFrom(s: seq<string>, seen: set<string>): seq<string>
  {
    if s == [] then []
    else if s[0] in seen then DedupFrom(s[1..], seen)
    else [s[0]] + DedupFrom(s[1..], seen + {s[0]})
  }

  /** `[...new Set(s)]`: the distinct elements of `s`, in order of first occurrence. */
  function Dedup(s: seq<string>): seq<string>
  {
    DedupFrom(s, {})
  }

  /** `s.filter((v) => v !== x)`. */
  function Without(s: seq<string>, x: string): seq<string>
  {
    if s == [] then []
    else if s[0] == x then Without(s[1..], x)
    else [s[0]] + Without(s[1..], x)
  }

  /** The values a list holds. */
  function Elements(s: seq<string>): set<string>
  {
    set x | x in s
  }

  predicate Distinct(s: seq<string>)
  {
    forall i, j | 0 <= i < j < |s| :: s[i] != s[j]
  }

  /** `a` is `b` with some elements dropped, the rest in their order. */
  predicate Subsequence(a: seq<string>, b: seq<string>)
    decreases |b|
  {
    if a == [] then true
    else if b == [] then false
    else (a[0] == b[0] && Subsequence(a[1..], b[1..])) || Subsequence(a, b[1..])
  }

  // ---------------------------------------------------------------------------
  // Volume-side watch lists

  /** The watch list of `project` before the existence check: the project's own
      entry when there is one (a `'*'` in it pulls in the defaults), the defaults
      otherwise. */
  function ResolveWatchList(rules: map<string, seq<string>>, project: string): (r: Result<seq<string>>)
    // only a missing default list makes the resolution fail, and only when it is consulted
    ensures r.TypeError? <==> "*" !in rules && (project !in rules || "*" in rules[project])
  {
    if project in rules then
      var dirs := rules[project];
      if "*" in dirs then
        match Defaults(rules)
        case None => TypeError
        case Some(d) => if |d| > 0 then Ok(Without(Dedup(dirs + d), "*")) else Ok(dirs)
      else Ok(dirs)
    else
      match Defaults(rules)
      case None => TypeError
      case Some(d) => if |d| > 0 then Ok(d) else Ok([])
  }

  /** The entries whose directory exists under the project's volume directory. */
  function KeepExisting(dirs: seq<string>, volumeDir: string, pathExists: string -> bool): seq<string>
  {
    if dirs == [] then []
    else if pathExists(volumeDir + "\\" + dirs[0]) then [dirs[0]] + KeepExisting(dirs[1..], volumeDir, pathExists)
    else KeepExisting(dirs[1..], volumeDir, pathExists)
  }

  /** The directories polled inside a project's volume; outside testing only those that exist. */
  function GetLinuxProjectsDirectoriesToWatch(cfg: Config, project: string, pathExists: string -> bool): Result<seq<string>>
  {
    match ResolveWatchList(cfg.linuxProjectsToWatch, project)
    case TypeError => TypeError
    case Ok(dirs) =>
      if !cfg.testing && |dirs| > 0 then Ok(KeepExisting(dirs, GetLinuxVolumesDirPath(cfg, project), pathExists))
      else Ok(dirs)
  }

  // ---------------------------------------------------------------------------
  // Exclusion of host paths that the volume side owns

  /** A project entry matches when `'\' + entry` occurs in the path. */
  predicate EntryMatches(path: string, entry: string)
  {
    entry != "*" && Contains(path, "\\" + entry)
  }

  /** A default entry matches only as a whole directory: `'\' + entry + '\'`. */
  predicate DefaultMatches(path: string, entry: string)
  {
    entry != "*" && Contains(path, "\\" + entry + "\\")
  }

  /** The loop over a project's own entries, returning at the first match; a
      `'*'` entry is replaced by a scan of the defaults, which must exist. */
  function ScanProjectEntries(path: string, entries: seq<string>, defaults: Option<seq<string>>): Result<bool>
  {
    if entries == [] then Ok(false)
    else if EntryMatches(path, entries[0]) then Ok(true)
    else if entries[0] == "*" then
      match defaults
      case None => TypeError
      case Some(d) =>
        if exists s | s in d :: EntryMatches(path, s) then Ok(true)
        else ScanProjectEntries(path, entries[1..], defaults)
    else ScanProjectEntries(path, entries[1..], defaults)
  }

  /** A changed host path is not copied to the volume when the volume side watches it. */
  function ExcludeFoldersFromLinuxProjectsToWatch(cfg: Config, path: string, project: string): Result<bool>
  {
    var rules := cfg.linuxProjectsToWatch;
    if project in rules && |rules[project]| > 0 then
      ScanProjectEntries(path, rules[project], Defaults(rules))
    else
      match Defaults(rules)
      case None => TypeError
      case Some(d) => Ok(exists e | e in d :: DefaultMatches(path, e))
  }

  // ---------------------------------------------------------------------------
  // Host-side ignore patterns

  /** A pattern's text as searched for: after a leading `*` anywhere in the
      path, otherwise rooted at the project directory. */
  function IgnorePattern(pattern: string, project: string): string
  {
    if |pattern| > 0 && pattern[0] == '*' then pattern[1..]
    else "\\" + project + (if !(|pattern| > 0 && pattern[0] == '\\') then "\\" else "") + pattern
  }

  /** A host path that no change event is raised for. */
  predicate ExcludeWindowsWatcherPaths(cfg: Config, path: string, project: string)
  {
    exists p | p in cfg.ignoreWindowsWatcherPaths :: Contains(path, IgnorePattern(p, project))
  }

  /** A pattern without the leading separator it may carry. */
  function Unrooted(pattern: string): string
  {
    if |pattern| > 0 && pattern[0] == '\\' then pattern[1..] else pattern
  }

  // ---------------------------------------------------------------------------
  // Projects discovered from docker-compose

  /** The characters `.` does not match in a regular expression. */
  predicate IsLineTerminator(c: char)
  {
    c == '\n' || c == '\r' || c == '\U{2028}' || c == '\U{2029}'
  }

  /** A named volume mounted at `/app`: it does not start with `.` or `/`, and
      some non-empty run of non-terminator characters is followed by `:/app`
      (any case) at the very end. */
  predicate IsNamedAppVolume(volume: string)
  {
    !(|volume| > 0 && (volume[0] == '.' || volume[0] == '/')) &&
    |volume| >= 6 && MatchAt(volume, |volume| - 5, ":/app", true) &&
    !IsLineTerminator(volume[|volume| - 6])
  }

  /** The project folder a volume names: the volume with its first `:/app` removed. */
  function VolumeProjectName(volume: string): string
  {
    ReplaceFirst(volume, ":/app", "")
  }

  /** A volume contributes its project when it is a named `/app` volume whose host directory exists. */
  predicate ContributesProject(cfg: Config, volume: string, pathExists: string -> bool)
  {
    IsNamedAppVolume(volume) && pathExists(WindowsCurrentDirectoryPath(cfg, VolumeProjectName(volume)))
  }

  /** The projects a list of volumes contributes, in order. */
  function VolumeProjects(cfg: Config, volumes: seq<string>, pathExists: string -> bool): seq<string>
  {
    if volumes == [] then []
    else
      VolumeProjects(cfg, volumes[..|volumes| - 1], pathExists) +
      (if ContributesProject(cfg, volumes[|volumes| - 1], pathExists)
       then [VolumeProjectName(volumes[|volumes| - 1])] else [])
  }

  /** The projects all services contribute, service by service. */
  function ScannedProjects(cfg: Config, services: seq<seq<string>>, pathExists: string -> bool): seq<string>
  {
    if services == [] then []
    else ScannedProjects(cfg, services[..|services| - 1], pathExists) + VolumeProjects(cfg, services[|services| - 1], pathExists)
  }

  /** The projects to watch: the configured ones unless empty or a scan is forced. */
  function WindowsProjectsToWatch(cfg: Config, forceScan: bool, pathExists: string -> bool): seq<string>
  {
    if |cfg.windowsProjectsToWatch| > 0 && !forceScan then cfg.windowsProjectsToWatch
    else ScannedProjects(cfg, cfg.serviceVolumes, pathExists)
  }

  /** The scan as the program runs it: every volume of every service, appending each contributed project. */
  method FindWindowsProjectsToWatch(cfg: Config, forceScan: bool, pathExists: string -> bool)
    returns (projects: seq<string>)
    ensures projects == WindowsProjectsToWatch(cfg, forceScan, pathExists)
  {
    if |cfg.windowsProjectsToWatch| > 0 && !forceScan {
      return cfg.windowsProjectsToWatch;
    }
    projects := [];
    var i := 0;
    while i < |cfg.serviceVolumes|
      invariant 0 <= i <= |cfg.serviceVolumes|
      invariant projects == ScannedProjects(cfg, cfg.serviceVolumes[..i], pathExists)
    {
      var volumes := cfg.serviceVolumes[i];
      var j := 0;
      while j < |volumes|
        invariant 0 <= j <= |volumes|
        invariant projects == ScannedProjects(cfg, cfg.serviceVolumes[..i], pathExists)
                              + VolumeProjects(cfg, volumes[..j], pathExists)
      {
        var volume := volumes[j];
        if IsNamedAppVolume(volume) {
          var name := ReplaceFirst(volume, ":/app", "");
          if pathExists(WindowsCurrentDirectoryPath(cfg, name)) {
            projects := projects + [name];
          }
        }
        assert volumes[..j + 1][..j] == volumes[..j];
        j := j + 1;
      }
      assert volumes[..j] == volumes;
      assert cfg.serviceVolumes[..i + 1][..i] == cfg.serviceVolumes[..i];
      i := i + 1;
    }
    assert cfg.serviceVolumes[..i] == cfg.serviceVolumes;
  }

  // ---------------------------------------------------------------------------
  // Lemmas: lists

  /** Deduplication keeps each element of `s` outside `seen` exactly once. */
  lemma {:induction false} DedupFromMembers(s: seq<string>, seen: set<string>)
    ensures Distinct(DedupFrom(s, seen))
    ensures forall x :: x in DedupFrom(s, seen) <==> x in s && x !in seen
    decreases |s|
  {
    if s != [] {
      DedupFromMembers(s[1..], seen);
      DedupFromMembers(s[1..], seen + {s[0]});
      assert forall x :: x in s <==> x == s[0] || x in s[1..];
    }
  }

  /** Deduplicating a concatenation: the first part's distinct elements, then
      those of the second part not already seen. */
  lemma {:induction false} DedupFromAppend(a: seq<string>, b: seq<string>, seen: set<string>)
    ensures DedupFrom(a + b, seen) == DedupFrom(a, seen) + DedupFrom(b, seen + Elements(a))
    decreases |a|
  {
    if a == [] {
      assert a + b == b;
      assert Elements(a) == {};
      assert seen + Elements(a) == seen;
    } else {
      assert (a + b)[1..] == a[1..] + b;
      if a[0] in seen {
        DedupFromAppend(a[1..], b, seen);
        assert seen + Elements(a[1..]) == seen + Elements(a);
      } else {
        DedupFromAppend(a[1..], b, seen + {a[0]});
        assert seen + {a[0]} + Elements(a[1..]) == seen + Elements(a);
      }
    }
  }

  /** Removing one value keeps the others, in order and without new duplicates. */
  lemma {:induction false} WithoutMembers(s: seq<string>, y: string)
    ensures forall x :: x in Without(s, y) <==> x in s && x != y
    ensures Distinct(s) ==> Distinct(Without(s, y))
    ensures Subsequence(Without(s, y), s)
    decreases |s|
  {
    if s != [] {
      WithoutMembers(s[1..], y);
      assert forall x :: x in s <==> x == s[0] || x in s[1..];
      var w := Without(s, y);
      if s[0] != y {
        assert w[1..] == Without(s[1..], y);
        if Distinct(s) {
          assert Distinct(s[1..]);
          assert s[0] !in s[1..];
          forall i, j | 0 <= i < j < |w| ensures w[i] != w[j] {
            if i == 0 {
              assert w[j] in Without(s[1..], y);
            }
          }
        }
      } else {
        SubsequenceDropHead(w, s);
      }
    }
  }

  lemma SubsequenceDropHead(a: seq<string>, b: seq<string>)
    requires b != [] && Subsequence(a, b[1..])
    ensures Subsequence(a, b)
  {
  }

  /** `Without` distributes over concatenation. */
  lemma {:induction false} WithoutAppend(a: seq<string>, b: seq<string>, y: string)
    ensures Without(a + b, y) == Without(a, y) + Without(b, y)
    decreases |a|
  {
    if a == [] {
      assert a + b == b;
    } else {
      assert (a + b)[1..] == a[1..] + b;
      WithoutAppend(a[1..], b, y);
    }
  }

  /** Deduplicating distinct values none of which was seen changes nothing. */
  lemma {:induction false} DedupFromDistinct(s: seq<string>, seen: set<string>)
    requires Distinct(s) && forall x | x in s :: x !in seen
    ensures DedupFrom(s, seen) == s
    decreases |s|
  {
    if s != [] {
      assert Distinct(s[1..]);
      DedupFromDistinct(s[1..], seen + {s[0]});
    }
  }

  /** Values that were all seen already leave nothing. */
  lemma {:induction false} DedupFromAllSeen(s: seq<string>, seen: set<string>)
    requires forall x | x in s :: x in seen
    ensures DedupFrom(s, seen) == []
    decreases |s|
  {
    if s != [] {
      DedupFromAllSeen(s[1..], seen);
    }
  }

  /** Removing an absent value changes nothing. */
  lemma {:induction false} WithoutAbsent(s: seq<string>, y: string)
    requires y !in s
    ensures Without(s, y) == s
    decreases |s|
  {
    if s != [] {
      WithoutAbsent(s[1..], y);
    }
  }

  /** Putting a new value in front keeps a list distinct. */
  lemma ConsDistinct(rest: seq<string>, y: string)
    requires Distinct(rest) && y !in rest
    ensures Distinct([y] + rest)
  {
    var dirs := [y] + rest;
    forall i, j | 0 <= i < j < |dirs| ensures dirs[i] != dirs[j] {
      if i == 0 { assert dirs[j] == rest[j - 1]; } else { assert dirs[i] == rest[i - 1] && dirs[j] == rest[j - 1]; }
    }
  }

  // ---------------------------------------------------------------------------
  // Lemmas: watch lists

  /** A project key is authoritative: without `'*'` its list is the answer,
      even when that list is empty. */
  lemma OwnKeyWins(rules: map<string, seq<string>>, project: string)
    requires project in rules && "*" !in rules[project]
    ensures ResolveWatchList(rules, project) == Ok(rules[project])
  {
  }

  /** A `'*'` in a project's list with non-empty defaults: the project's entries
      first, then the defaults it does not already hold, `'*'` dropped. */
  lemma StarMergeOrder(rules: map<string, seq<string>>, project: string)
    requires project in rules && "*" in rules[project]
    requires "*" in rules && |rules["*"]| > 0
    ensures var dirs, d := rules[project], rules["*"];
      ResolveWatchList(rules, project)
        == Ok(Without(Dedup(dirs), "*") + Without(DedupFrom(d, Elements(dirs)), "*"))
  {
    var dirs, d := rules[project], rules["*"];
    DedupFromAppend(dirs, d, {});
    assert {} + Elements(dirs) == Elements(dirs);
    WithoutAppend(Dedup(dirs), DedupFrom(d, Elements(dirs)), "*");
  }

  /** The merged list holds every entry of the project and of the defaults except
      `'*'`, each exactly once. */
  lemma StarMergeMembers(rules: map<string, seq<string>>, project: string)
    requires project in rules && "*" in rules[project]
    requires "*" in rules && |rules["*"]| > 0
    ensures var r := ResolveWatchList(rules, project).value;
      Distinct(r) && "*" !in r &&
      forall x :: x in r <==> (x in rules[project] || x in rules["*"]) && x != "*"
  {
    var dirs, d := rules[project], rules["*"];
    DedupFromMembers(dirs + d, {});
    WithoutMembers(Dedup(dirs + d), "*");
  }

  /** A `'*'` with an empty default list leaves the project's list as it is, `'*'` included. */
  lemma StarWithEmptyDefaults(rules: map<string, seq<string>>, project: string)
    requires project in rules && "*" in rules[project]
    requires "*" in rules && rules["*"] == []
    ensures ResolveWatchList(rules, project) == Ok(rules[project])
  {
  }

  /** Without its own key a project gets the defaults; without defaults either
      way of reaching them fails. */
  lemma DefaultsWithoutKey(rules: map<string, seq<string>>, project: string)
    requires project !in rules
    ensures "*" in rules ==> ResolveWatchList(rules, project) == Ok(rules["*"])
    ensures "*" !in rules ==> ResolveWatchList(rules, project) == TypeError
  {
  }

  /** The existence check keeps, in order, exactly the entries whose directory exists. */
  lemma {:induction false} KeepExistingMembers(dirs: seq<string>, volumeDir: string, pathExists: string -> bool)
    ensures Subsequence(KeepExisting(dirs, volumeDir, pathExists), dirs)
    ensures forall x :: x in KeepExisting(dirs, volumeDir, pathExists)
                 <==> x in dirs && pathExists(volumeDir + "\\" + x)
    decreases |dirs|
  {
    if dirs != [] {
      KeepExistingMembers(dirs[1..], volumeDir, pathExists);
      assert forall x :: x in dirs <==> x == dirs[0] || x in dirs[1..];
      var k := KeepExisting(dirs, volumeDir, pathExists);
      if pathExists(volumeDir + "\\" + dirs[0]) {
        assert k[1..] == KeepExisting(dirs[1..], volumeDir, pathExists);
      } else {
        SubsequenceDropHead(k, dirs);
      }
    }
  }

  /** Under test the resolved list is returned as it is; otherwise the entries
      whose directory exists in the volume, in order. */
  lemma WatchListExistenceFilter(cfg: Config, project: string, pathExists: string -> bool)
    requires ResolveWatchList(cfg.linuxProjectsToWatch, project).Ok?
    ensures var dirs := ResolveWatchList(cfg.linuxProjectsToWatch, project).value;
      var r := GetLinuxProjectsDirectoriesToWatch(cfg, project, pathExists);
      r.Ok? &&
      (cfg.testing ==> r.value == dirs) &&
      Subsequence(r.value, dirs) &&
      (!cfg.testing ==> forall x :: x in r.value
                          <==> x in dirs && pathExists(GetLinuxVolumesDirPath(cfg, project) + "\\" + x))
  {
    var dirs := ResolveWatchList(cfg.linuxProjectsToWatch, project).value;
    KeepExistingMembers(dirs, GetLinuxVolumesDirPath(cfg, project), pathExists);
    SubsequenceReflexive(dirs);
  }

  lemma {:induction false} SubsequenceReflexive(a: seq<string>)
    ensures Subsequence(a, a)
    decreases |a|
  {
    if a != [] {
      SubsequenceReflexive(a[1..]);
    }
  }

  // ---------------------------------------------------------------------------
  // Lemmas: exclusion of volume-owned paths

  /** Some `'*'` entry is reached before any entry has matched. */
  predicate StarBeforeMatch(path: string, entries: seq<string>)
  {
    exists k | 0 <= k < |entries| :: entries[k] == "*" && forall i | 0 <= i < k :: !EntryMatches(path, entries[i])
  }

  /** Some entry matches, a `'*'` entry matching through the defaults. */
  predicate SomeEntryMatches(path: string, entries: seq<string>, d: seq<string>)
  {
    exists i | 0 <= i < |entries| ::
      EntryMatches(path, entries[i]) || (entries[i] == "*" && exists s | s in d :: EntryMatches(path, s))
  }

  /** With defaults, the early-return loop computes the existential. */
  lemma {:induction false} ScanWithDefaults(path: string, entries: seq<string>, d: seq<string>)
    ensures ScanProjectEntries(path, entries, Some(d)) == Ok(SomeEntryMatches(path, entries, d))
    decreases |entries|
  {
    if entries != [] {
      ScanWithDefaults(path, entries[1..], d);
      if SomeEntryMatches(path, entries[1..], d) {
        var i :| 0 <= i < |entries[1..]| &&
          (EntryMatches(path, entries[1..][i]) || (entries[1..][i] == "*" && exists s | s in d :: EntryMatches(path, s)));
        assert entries[i + 1] == entries[1..][i];
      }
      if SomeEntryMatches(path, entries, d) {
        var i :| 0 <= i < |entries| &&
          (EntryMatches(path, entries[i]) || (entries[i] == "*" && exists s | s in d :: EntryMatches(path, s)));
        if i > 0 {
          assert entries[1..][i - 1] == entries[i];
        }
      }
    }
  }

  /** Without defaults the loop fails exactly when it reaches a `'*'` before any
      match, and otherwise says whether some entry matches. */
  lemma {:induction false} ScanWithoutDefaults(path: string, entries: seq<string>)
    ensures ScanProjectEntries(path, entries, None)
         == if StarBeforeMatch(path, entries) then TypeError
            else Ok(exists i | 0 <= i < |entries| :: EntryMatches(path, entries[i]))
    decreases |entries|
  {
    if entries != [] {
      var rest := entries[1..];
      ScanWithoutDefaults(path, rest);
      if EntryMatches(path, entries[0]) {
        forall k | 0 <= k < |entries| && entries[k] == "*"
          ensures 0 < k && EntryMatches(path, entries[0])
        {
        }
      } else if entries[0] == "*" {
      } else {
        if StarBeforeMatch(path, rest) {
          var k :| 0 <= k < |rest| && rest[k] == "*" && forall i | 0 <= i < k :: !EntryMatches(path, rest[i]);
          assert entries[k + 1] == "*";
          forall i | 0 <= i < k + 1 ensures !EntryMatches(path, entries[i]) {
            if i > 0 { assert entries[i] == rest[i - 1]; }
          }
        }
        if StarBeforeMatch(path, entries) {
          var k :| 0 <= k < |entries| && entries[k] == "*" && forall i | 0 <= i < k :: !EntryMatches(path, entries[i]);
          assert k > 0;
          assert rest[k - 1] == "*";
          forall i | 0 <= i < k - 1 ensures !EntryMatches(path, rest[i]) {
            assert rest[i] == entries[i + 1];
          }
        }
        if exists i | 0 <= i < |entries| :: EntryMatches(path, entries[i]) {
          var i :| 0 <= i < |entries| && EntryMatches(path, entries[i]);
          assert i > 0 && rest[i - 1] == entries[i];
        }
        if exists i | 0 <= i < |rest| :: EntryMatches(path, rest[i]) {
          var i :| 0 <= i < |rest| && EntryMatches(path, rest[i]);
          assert entries[i + 1] == rest[i];
        }
      }
    }
  }

  /** With a default list, a path is excluded iff one of the project's own
      entries occurs after a backslash (a `'*'` standing for the defaults), or,
      for a project with no entries, iff a default entry occurs as a whole
      directory `'\' + entry + '\'`. */
  lemma ExcludeFoldersMeaning(cfg: Config, path: string, project: string)
    requires "*" in cfg.linuxProjectsToWatch
    ensures var rules := cfg.linuxProjectsToWatch;
      ExcludeFoldersFromLinuxProjectsToWatch(cfg, path, project)
        == Ok(if project in rules && |rules[project]| > 0
              then SomeEntryMatches(path, rules[project], rules["*"])
              else exists e | e in rules["*"] :: DefaultMatches(path, e))
  {
    var rules := cfg.linuxProjectsToWatch;
    if project in rules && |rules[project]| > 0 {
      ScanWithDefaults(path, rules[project], rules["*"]);
    }
  }

  /** Without a default list the check fails when it needs the defaults: for a
      project with no entries, or when a `'*'` is reached before a match. */
  lemma ExcludeFoldersWithoutDefaults(cfg: Config, path: string, project: string)
    requires "*" !in cfg.linuxProjectsToWatch
    ensures var rules := cfg.linuxProjectsToWatch;
      var failed := ExcludeFoldersFromLinuxProjectsToWatch(cfg, path, project).TypeError?;
      failed <==> !(project in rules && |rules[project]| > 0) || StarBeforeMatch(path, rules[project])
  {
    var rules := cfg.linuxProjectsToWatch;
    if project in rules && |rules[project]| > 0 {
      ScanWithoutDefaults(path, rules[project]);
    }
  }

  /** The asymmetry: an entry of the project's own list excludes a path that
      merely contains `'\' + entry`, while the same text as a default entry
      needs the trailing backslash too. */
  lemma OwnEntryNeedsNoBoundary(cfg: Config, path: string, project: string, entry: string)
    requires "*" in cfg.linuxProjectsToWatch
    requires project in cfg.linuxProjectsToWatch && entry in cfg.linuxProjectsToWatch[project]
    requires entry != "*" && Contains(path, "\\" + entry)
    ensures ExcludeFoldersFromLinuxProjectsToWatch(cfg, path, project) == Ok(true)
  {
    ExcludeFoldersMeaning(cfg, path, project);
    var i :| 0 <= i < |cfg.linuxProjectsToWatch[project]| && cfg.linuxProjectsToWatch[project][i] == entry;
    assert EntryMatches(path, cfg.linuxProjectsToWatch[project][i]);
  }

  // ---------------------------------------------------------------------------
  // Lemmas: host-side ignore patterns

  /** A pattern without a leading `*` always reads `'\' + project + '\' + rest of pattern`. */
  lemma RootedPattern(pattern: string, project: string)
    requires !(|pattern| > 0 && pattern[0] == '*')
    ensures IgnorePattern(pattern, project) == "\\" + project + "\\" + Unrooted(pattern)
  {
    if |pattern| > 0 && pattern[0] == '\\' {
      assert pattern == "\\" + pattern[1..];
    }
  }

  /** `rest` begins with `prefix`. */
  predicate StartsWith(rest: string, prefix: string)
  {
    |prefix| <= |rest| && rest[..|prefix|] == prefix
  }

  /** A pattern excludes the path: anywhere for a `*` pattern, else at the project directory. */
  predicate PatternHits(path: string, rest: string, pattern: string)
  {
    if |pattern| > 0 && pattern[0] == '*' then Contains(path, pattern[1..])
    else StartsWith(rest, Unrooted(pattern))
  }

  /** A rooted pattern found in `a\project\rest`, where `\project\` occurs only
      once, sits at the project directory. */
  lemma RootedHitAtProject(path: string, a: string, root: string, rest: string, u: string)
    requires path == a + root + rest
    requires forall i | 0 <= i :: MatchAt(path, i, root, false) ==> i == |a|
    requires Contains(path, root + u)
    ensures StartsWith(rest, u)
  {
    var i :| 0 <= i <= |path| - |root + u| && MatchAt(path, i, root + u, false);
    MatchAtAppend(path, i, root, u, false);
    assert i == |a|;
    MatchAtSlice(path, |a| + |root|, u);
    assert path[|a| + |root|..] == rest;
    assert path[|a| + |root|..|a| + |root| + |u|] == rest[..|u|];
  }

  /** A rooted pattern that starts `rest` is found in `a\project\rest`. */
  lemma RootedHitFound(path: string, a: string, root: string, rest: string, u: string)
    requires path == a + root + rest
    requires StartsWith(rest, u)
    ensures Contains(path, root + u)
  {
    MatchAtSlice(path, |a|, root);
    assert path[|a|..|a| + |root|] == root;
    MatchAtSlice(path, |a| + |root|, u);
    assert path[|a| + |root|..|a| + |root| + |u|] == rest[..|u|];
    MatchAtAppend(path, |a|, root, u, false);
  }

  /** For a path `a\project\rest` in which `\project\` occurs only once, a rooted
      pattern excludes it iff `rest` starts with the pattern (its leading
      backslash aside), and a `*` pattern iff its text occurs anywhere. So
      `vendor\...` right under the project is excluded but `public\vendor\...` is not. */
  lemma ExcludedIffRootedOrStarHit(cfg: Config, path: string, a: string, project: string, rest: string)
    requires path == a + "\\" + project + "\\" + rest
    requires forall i | 0 <= i :: MatchAt(path, i, "\\" + project + "\\", false) ==> i == |a|
    ensures ExcludeWindowsWatcherPaths(cfg, path, project)
        <==> exists p | p in cfg.ignoreWindowsWatcherPaths :: PatternHits(path, rest, p)
  {
    var root := "\\" + project + "\\";
    assert path == a + root + rest;
    forall p | p in cfg.ignoreWindowsWatcherPaths
      ensures Contains(path, IgnorePattern(p, project)) <==> PatternHits(path, rest, p)
    {
      if !(|p| > 0 && p[0] == '*') {
        RootedPattern(p, project);
        if Contains(path, root + Unrooted(p)) {
          RootedHitAtProject(path, a, root, rest, Unrooted(p));
        }
        if StartsWith(rest, Unrooted(p)) {
          RootedHitFound(path, a, root, rest, Unrooted(p));
        }
      }
    }
  }

  // ---------------------------------------------------------------------------
  // Lemmas: discovered projects

  /** A project is contributed by a volume list iff one of its volumes names it. */
  lemma {:induction false} VolumeProjectsMembers(cfg: Config, volumes: seq<string>, pathExists: string -> bool, name: string)
    ensures name in VolumeProjects(cfg, volumes, pathExists)
        <==> exists j | 0 <= j < |volumes| ::
               ContributesProject(cfg, volumes[j], pathExists) && VolumeProjectName(volumes[j]) == name
    decreases |volumes|
  {
    if volumes != [] {
      var init := volumes[..|volumes| - 1];
      VolumeProjectsMembers(cfg, init, pathExists, name);
      if exists j | 0 <= j < |init| :: ContributesProject(cfg, init[j], pathExists) && VolumeProjectName(init[j]) == name {
        var j :| 0 <= j < |init| && ContributesProject(cfg, init[j], pathExists) && VolumeProjectName(init[j]) == name;
        assert volumes[j] == init[j];
      }
      if exists j | 0 <= j < |volumes| :: ContributesProject(cfg, volumes[j], pathExists) && VolumeProjectName(volumes[j]) == name {
        var j :| 0 <= j < |volumes| && ContributesProject(cfg, volumes[j], pathExists) && VolumeProjectName(volumes[j]) == name;
        if j < |init| {
          assert init[j] == volumes[j];
        }
      }
    }
  }

  /** A scanned project is one that some volume of some service names, as a
      named `/app` volume whose host directory exists; every such project is found. */
  lemma {:induction false} ScannedProjectsMembers(cfg: Config, services: seq<seq<string>>, pathExists: string -> bool, name: string)
    ensures name in ScannedProjects(cfg, services, pathExists)
        <==> exists i, j | 0 <= i < |services| && 0 <= j < |services[i]| ::
               ContributesProject(cfg, services[i][j], pathExists) && VolumeProjectName(services[i][j]) == name
    decreases |services|
  {
    if services != [] {
      var init, last := services[..|services| - 1], services[|services| - 1];
      ScannedProjectsMembers(cfg, init, pathExists, name);
      VolumeProjectsMembers(cfg, last, pathExists, name);
      if name in ScannedProjects(cfg, services, pathExists) {
        if name in ScannedProjects(cfg, init, pathExists) {
          var i, j :| 0 <= i < |init| && 0 <= j < |init[i]| &&
            ContributesProject(cfg, init[i][j], pathExists) && VolumeProjectName(init[i][j]) == name;
          assert services[i] == init[i];
        } else {
          var j :| 0 <= j < |last| && ContributesProject(cfg, last[j], pathExists) && VolumeProjectName(last[j]) == name;
          assert services[|services| - 1] == last;
        }
      }
      if exists i, j | 0 <= i < |services| && 0 <= j < |services[i]| ::
           ContributesProject(cfg, services[i][j], pathExists) && VolumeProjectName(services[i][j]) == name {
        var i, j :| 0 <= i < |services| && 0 <= j < |services[i]| &&
          ContributesProject(cfg, services[i][j], pathExists) && VolumeProjectName(services[i][j]) == name;
        if i < |init| {
          assert init[i] == services[i];
        }
      }
    }
  }

  /** A volume `name:/app` with a plain name is a named `/app` volume for project `name`. */
  lemma NamedAppVolume(name: string)
    requires |name| > 0 && name[0] != '.' && name[0] != '/'
    requires ':' !in name && !IsLineTerminator(name[|name| - 1])
    ensures IsNamedAppVolume(name + ":/app")
    ensures VolumeProjectName(name + ":/app") == name
  {
    var v := name + ":/app";
    MatchesItself(":/app", true);
    assert v[|v| - 5..] == ":/app";
    MatchAtShift(v, |v| - 5, 0, ":/app", true);
    assert v[|v| - 6] == name[|name| - 1];
    ReplaceFirstAt(name, ":/app", "", "");
    assert name + ":/app" + "" == v;
    assert name + "" + "" == name;
  }

  /** Bind mounts (starting with `.` or `/`) never name a project. */
  lemma BindMountIsNotNamed(volume: string)
    requires |volume| > 0 && (volume[0] == '.' || volume[0] == '/')
    ensures !IsNamedAppVolume(volume)
  {
  }

  /** The `:/app` test ignores case but the removal does not: `name:/APP`
      qualifies and keeps its suffix in the project name. */
  lemma UpperCaseSuffixKept(name: string)
    requires |name| > 0 && name[0] != '.' && name[0] != '/'
    requires ':' !in name && !IsLineTerminator(name[|name| - 1])
    ensures IsNamedAppVolume(name + ":/APP")
    ensures VolumeProjectName(name + ":/APP") == name + ":/APP"
  {
    var v := name + ":/APP";
    assert v[|v| - 5..] == ":/APP";
    assert MatchAt(v[|v| - 5..], 0, ":/app", true) by {
      forall j | 0 <= j < 5 ensures SameChar(v[|v| - 5..][j], ":/app"[j], true) {
        assert v[|v| - 5..][j] == ":/APP"[j];
      }
    }
    MatchAtShift(v, |v| - 5, 0, ":/app", true);
    assert v[|v| - 6] == name[|name| - 1];
    assert !Occurs(":/app", v, false) by {
      forall i | 0 <= i <= |v| - 5 ensures !MatchAt(v, i, ":/app", false) {
        if i < |name| {
          assert v[i] == name[i] && v[i] != ':';
          assert !SameChar(v[i + 0], ":/app"[0], false);
        } else {
          assert i == |name|;
          assert v[i + 2] == 'A';
          assert !SameChar(v[i + 2], ":/app"[2], false);
        }
      }
    }
    ReplaceFirstAbsent(v, ":/app", "");
  }

  /** With projects configured and no forced scan, the configured list is used as it is. */
  lemma ConfiguredProjectsWin(cfg: Config, pathExists: string -> bool)
    requires |cfg.windowsProjectsToWatch| > 0
    ensures WindowsProjectsToWatch(cfg, false, pathExists) == cfg.windowsProjectsToWatch
  {
  }

  /** A list `'*'` followed by distinct entries that already hold every default
      resolves to those entries. */
  lemma LeadingStarCoversDefaults(rules: map<string, seq<string>>, project: string, rest: seq<string>)
    requires project in rules && rules[project] == ["*"] + rest
    requires Distinct(rest) && "*" !in rest
    requires "*" in rules && |rules["*"]| > 0 && forall x | x in rules["*"] :: x in rest
    ensures ResolveWatchList(rules, project) == Ok(rest)
  {
    var dirs, d := rules[project], rules["*"];
    StarMergeOrder(rules, project);
    ConsDistinct(rest, "*");
    DedupFromDistinct(dirs, {});
    DedupFromAllSeen(d, Elements(dirs));
    assert dirs[1..] == rest;
    WithoutAbsent(rest, "*");
    assert Without(dirs, "*") == rest;
    assert Without(DedupFrom(d, Elements(dirs)), "*") == [];
    assert rest + [] == rest;
  }

  // ---------------------------------------------------------------------------
  // The test configuration

  /** Configured projects are returned as they are. */
  lemma TestingConfiguredProjects(pathExists: string -> bool)
    ensures WindowsProjectsToWatch(TestingConfig, false, pathExists) == ["dbd-mothership"]
  {
  }

  /** Own lists win: `emptyProject` watches nothing and `dbd-mothership` its three directories. */
  lemma TestingWatchLists(pathExists: string -> bool)
    ensures GetLinuxProjectsDirectoriesToWatch(TestingConfig, "emptyProject", pathExists) == Ok([])
    ensures GetLinuxProjectsDirectoriesToWatch(TestingConfig, "dbd-mothership", pathExists)
         == Ok(["storage\\logs", "bootstrap\\cache", "storage\\framework\\cache"])
  {
  }

  /** A single `name:/app` volume contributes `name` exactly when its host folder exists. */
  lemma SingleNamedVolume(cfg: Config, name: string, pathExists: string -> bool)
    requires |name| > 0 && name[0] != '.' && name[0] != '/'
    requires ':' !in name && !IsLineTerminator(name[|name| - 1])
    ensures VolumeProjects(cfg, [name + ":/app"], pathExists)
         == if pathExists(WindowsCurrentDirectoryPath(cfg, name)) then [name] else []
  {
    NamedAppVolume(name);
    assert [name + ":/app"][..0] == [];
  }

  /** Volumes that all start with `.` or `/` contribute nothing. */
  lemma {:induction false} BindMountsContributeNothing(cfg: Config, volumes: seq<string>, pathExists: string -> bool)
    requires forall i | 0 <= i < |volumes| :: |volumes[i]| > 0 && (volumes[i][0] == '.' || volumes[i][0] == '/')
    ensures VolumeProjects(cfg, volumes, pathExists) == []
    decreases |volumes|
  {
    if volumes != [] {
      BindMountIsNotNamed(volumes[|volumes| - 1]);
      BindMountsContributeNothing(cfg, volumes[..|volumes| - 1], pathExists);
    }
  }

  /** The first two services of the test configuration mount only host paths. */
  lemma TestingBindServices()
    ensures var sv := TestingConfig.serviceVolumes;
      |sv| == 5 &&
      (forall i | 0 <= i < |sv[0]| :: |sv[0][i]| > 0 && (sv[0][i][0] == '.' || sv[0][i][0] == '/')) &&
      (forall i | 0 <= i < |sv[1]| :: |sv[1][i]| > 0 && (sv[1][i][0] == '.' || sv[1][i][0] == '/'))
  {
    NgrokMountLiteral();
    CertsMountLiteral();
    NginxConfigMountLiteral();
    SocketMountLiteral();
  }

  /** The last three services of the test configuration each mount one named `/app` volume. */
  lemma TestingNamedServices()
    ensures var sv := TestingConfig.serviceVolumes;
      |sv| == 5 && sv[2] == ["spd-mothership" + ":/app"] && sv[3] == ["dbd-mothership" + ":/app"] &&
      sv[4] == ["dbz-mothership" + ":/app"]
  {
    assert "spd-mothership" + ":/app" == "spd-mothership:/app";
    assert "dbd-mothership" + ":/app" == "dbd-mothership:/app";
    assert "dbz-mothership" + ":/app" == "dbz-mothership:/app";
  }

  /** A scan of five services is the concatenation of what each contributes. */
  lemma ScannedFiveServices(cfg: Config, sv: seq<seq<string>>, pathExists: string -> bool)
    requires |sv| == 5
    ensures ScannedProjects(cfg, sv, pathExists)
         == VolumeProjects(cfg, sv[0], pathExists) + VolumeProjects(cfg, sv[1], pathExists) +
            VolumeProjects(cfg, sv[2], pathExists) + VolumeProjects(cfg, sv[3], pathExists) +
            VolumeProjects(cfg, sv[4], pathExists)
  {
    assert sv[..0] == [];
    ScannedStep(cfg, sv, 0, pathExists);
    ScannedStep(cfg, sv, 1, pathExists);
    ScannedStep(cfg, sv, 2, pathExists);
    ScannedStep(cfg, sv, 3, pathExists);
    ScannedStep(cfg, sv, 4, pathExists);
    assert sv[..5] == sv;
  }

  /** Scanning one more service appends what it contributes. */
  lemma ScannedStep(cfg: Config, sv: seq<seq<string>>, k: nat, pathExists: string -> bool)
    requires k < |sv|
    ensures ScannedProjects(cfg, sv[..k + 1], pathExists)
         == ScannedProjects(cfg, sv[..k], pathExists) + VolumeProjects(cfg, sv[k], pathExists)
  {
    assert sv[..k + 1][..k] == sv[..k];
  }

  /** A forced scan of the test configuration finds the named `/app` volumes whose
      folders exist, service by service. */
  lemma TestingScannedProjects(pathExists: string -> bool)
    requires pathExists(WindowsCurrentDirectoryPath(TestingConfig, "spd-mothership"))
    requires pathExists(WindowsCurrentDirectoryPath(TestingConfig, "dbd-mothership"))
    requires !pathExists(WindowsCurrentDirectoryPath(TestingConfig, "dbz-mothership"))
    ensures WindowsProjectsToWatch(TestingConfig, true, pathExists) == ["spd-mothership", "dbd-mothership"]
  {
    var sv := TestingConfig.serviceVolumes;
    TestingBindServices();
    TestingNamedServices();
    BindMountsContributeNothing(TestingConfig, sv[0], pathExists);
    BindMountsContributeNothing(TestingConfig, sv[1], pathExists);
    SingleNamedVolume(TestingConfig, "spd-mothership", pathExists);
    SingleNamedVolume(TestingConfig, "dbd-mothership", pathExists);
    SingleNamedVolume(TestingConfig, "dbz-mothership", pathExists);
    ScannedFiveServices(TestingConfig, sv, pathExists);
  }

  lemma TestingStarEntries()
    ensures var rest := ["public\\shipping.log", "public\\delivery.log", "public\\pickup.log", "storage\\logs", "bootstrap\\cache"];
      TestingConfig.linuxProjectsToWatch["spd-mothership"] == ["*"] + rest &&
      Distinct(rest) && "*" !in rest &&
      forall x | x in TestingConfig.linuxProjectsToWatch["*"] :: x in rest
  {
  }

  /** `spd-mothership` lists `'*'` first; its defaults are already among its own entries. */
  lemma TestingStarWatchList(pathExists: string -> bool)
    ensures GetLinuxProjectsDirectoriesToWatch(TestingConfig, "spd-mothership", pathExists)
         == Ok(["public\\shipping.log", "public\\delivery.log", "public\\pickup.log", "storage\\logs", "bootstrap\\cache"])
  {
    TestingStarEntries();
    LeadingStarCoversDefaults(TestingConfig.linuxProjectsToWatch, "spd-mothership",
      ["public\\shipping.log", "public\\delivery.log", "public\\pickup.log", "storage\\logs", "bootstrap\\cache"]);
  }
}
