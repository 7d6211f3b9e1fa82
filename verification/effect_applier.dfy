/** Applying one watcher event to the other side's file tree: copy, delete,
    rename, create a directory or remove a directory tree. The file tree is a
    map from backslash-separated paths to files and directories. */
module EffectApplier {
  import opened Text

  newtype byte = x: int | 0 <= x < 256

  datatype Node = File(content: seq<byte>) | Dir

  /** The ways the file-system calls the applier makes can fail. */
  datatype FsError =
    | IsADirectory        // a directory read, copied or unlinked as if it were a file
    | InvalidArgument     // no destination for a rename, or a directory moved into itself
    | DestinationExists   // a rename onto an occupied path other than a file over a file

  /** What `execEventCommand` does: return whether it changed something, or throw. */
  datatype ExecResult = Returned(changed: bool) | Threw(error: FsError)

  datatype Outcome = Outcome(result: ExecResult, entries: map<string, Node>)

  /** `k` is `t` or lies below it. */
  predicate InTree(k: string, t: string)
  {
    |t| <= |k| && k[..|t|] == t && (|k| == |t| || k[|t|] == '\\')
  }

  /** The tree without `t` and everything below it (`rmSync` with `recursive` and `force`). */
  function RemoveTree(m: map<string, Node>, t: string): map<string, Node>
  {
    map k | k in m && !InTree(k, t) :: m[k]
  }

  /** The entries at or below `t`, placed at the same position below `d`. */
  function Relocated(m: map<string, Node>, t: string, d: string): map<string, Node>
  {
    var destinations := set j | j in m && InTree(j, t) :: d + j[|t|..];
    map k | k in destinations && |d| <= |k| && t + k[|d|..] in m :: m[t + k[|d|..]]
  }

  /** The tree after `renameSync(t, d)`: everything at or below `t` is now at
      the same place below `d`; a moved entry replaces what was there. */
  function Moved(m: map<string, Node>, t: string, d: string): map<string, Node>
  {
    RemoveTree(m, t) + Relocated(m, t, d)
  }

  /** The effect of one event on the tree `m`, and what the call returns. */
  function Exec(m: map<string, Node>, eventName: string, sourcePath: string, targetPath: string,
                renamedToTargetPath: Option<string>): (o: Outcome)
    ensures o.result != Returned(true) ==> o.entries == m
  {
    if eventName == "change" || eventName == "add" then
      if sourcePath !in m then Outcome(Returned(false), m)
      else if targetPath in m && m[targetPath].Dir? then Outcome(Threw(IsADirectory), m)
      else if m[sourcePath].Dir? then Outcome(Threw(IsADirectory), m)
      else if targetPath !in m || m[targetPath].content != m[sourcePath].content then
        Outcome(Returned(true), m[targetPath := m[sourcePath]])
      else Outcome(Returned(false), m)
    else if eventName == "unlink" then
      if targetPath !in m then Outcome(Returned(false), m)
      else if m[targetPath].Dir? then Outcome(Threw(IsADirectory), m)
      else Outcome(Returned(true), m - {targetPath})
    else if eventName == "rename" || eventName == "renameDir" then
      if targetPath !in m then Outcome(Returned(false), m)
      else match renamedToTargetPath
        case None => Outcome(Threw(InvalidArgument), m)
        case Some(d) =>
          if d == targetPath then Outcome(Returned(true), m)
          else if InTree(d, targetPath) then Outcome(Threw(InvalidArgument), m)
          else if d in m && !(m[d].File? && m[targetPath].File?) then Outcome(Threw(DestinationExists), m)
          else Outcome(Returned(true), Moved(m, targetPath, d))
    else if eventName == "addDir" then
      if targetPath in m then Outcome(Returned(false), m)
      else Outcome(Returned(true), m[targetPath := Dir])
    else if eventName == "unlinkDir" then
      if targetPath in m then Outcome(Returned(true), RemoveTree(m, targetPath))
      else Outcome(Returned(false), m)
    else Outcome(Returned(false), m)
  }

  // ---------------------------------------------------------------------------
  // Lemmas: paths and trees

  /** A path below `t` is `t` followed by a separator-led remainder. */
  lemma InTreeSplit(k: string, t: string)
    requires InTree(k, t)
    ensures k == t + k[|t|..]
    ensures k[|t|..] == [] || k[|t|..][0] == '\\'
  {
    assert k == k[..|t|] + k[|t|..];
  }

  /** Appending a separator-led remainder stays below the tree. */
  lemma InTreeAppend(d: string, rest: string)
    requires rest == [] || rest[0] == '\\'
    ensures InTree(d + rest, d) && (d + rest)[|d|..] == rest
  {
    assert (d + rest)[..|d|] == d;
    if rest != [] {
      assert (d + rest)[|d|] == rest[0];
    }
  }

  /** The destinations of a move are exactly the paths below `d` whose source exists. */
  lemma RelocatedKeys(m: map<string, Node>, t: string, d: string, k: string)
    ensures k in Relocated(m, t, d) <==> InTree(k, d) && t + k[|d|..] in m
  {
    var destinations := set j | j in m && InTree(j, t) :: d + j[|t|..];
    if k in destinations {
      var j :| j in m && InTree(j, t) && k == d + j[|t|..];
      InTreeSplit(j, t);
      InTreeAppend(d, j[|t|..]);
    }
    if InTree(k, d) && t + k[|d|..] in m {
      InTreeSplit(k, d);
      var j := t + k[|d|..];
      InTreeAppend(t, k[|d|..]);
      assert d + j[|t|..] == k;
      assert k in destinations;
    }
  }

  /** What a move leaves at each path: a moved entry where one arrives, the old
      entry where nothing arrives and the path is outside the moved tree. */
  lemma MovedAt(m: map<string, Node>, t: string, d: string, k: string)
    ensures k in Moved(m, t, d) <==> (k in m && !InTree(k, t)) || (InTree(k, d) && t + k[|d|..] in m)
    ensures InTree(k, d) && t + k[|d|..] in m ==> Moved(m, t, d)[k] == m[t + k[|d|..]]
    ensures k in m && !InTree(k, t) && !InTree(k, d) ==> Moved(m, t, d)[k] == m[k]
  {
    RelocatedKeys(m, t, d, k);
  }

  /** Every entry of the moved tree arrives at the same place below the destination. */
  lemma MovedRelocates(m: map<string, Node>, t: string, d: string, k: string)
    requires k in m && InTree(k, t)
    ensures d + k[|t|..] in Moved(m, t, d) && Moved(m, t, d)[d + k[|t|..]] == m[k]
  {
    InTreeSplit(k, t);
    InTreeAppend(d, k[|t|..]);
    MovedAt(m, t, d, d + k[|t|..]);
  }

  /** Removing a tree leaves nothing at or below its root and everything else as it was. */
  lemma RemoveTreeAt(m: map<string, Node>, t: string, k: string)
    ensures k in RemoveTree(m, t) <==> k in m && !InTree(k, t)
    ensures k in RemoveTree(m, t) ==> RemoveTree(m, t)[k] == m[k]
  {
  }

  /** Moving a tree to a free place and back restores the original tree. */
  lemma MovedBack(m: map<string, Node>, t: string, d: string)
    requires forall k | k in m :: !InTree(k, d)
    ensures Moved(Moved(m, t, d), d, t) == m
  {
    var m1 := Moved(m, t, d);
    var m2 := Moved(m1, d, t);
    forall k ensures (k in m2 <==> k in m) && (k in m ==> m2[k] == m[k]) {
      MovedAt(m1, d, t, k);
      if InTree(k, t) {
        InTreeSplit(k, t);
        var dk := d + k[|t|..];
        InTreeAppend(d, k[|t|..]);
        MovedAt(m, t, d, dk);
        assert t + dk[|d|..] == k;
        assert dk !in m;
      } else {
        MovedAt(m, t, d, k);
        if k in m {
          assert !InTree(k, d);
        }
      }
    }
    assert m2.Keys == m.Keys;
  }

  // ---------------------------------------------------------------------------
  // Lemmas: events

  /** `change`/`add` copy exactly when the source is a file and the target is
      missing or holds different content; the target then holds the source's content. */
  lemma CopyWhenDifferent(m: map<string, Node>, eventName: string, sourcePath: string, targetPath: string,
                          renamedToTargetPath: Option<string>)
    requires eventName == "change" || eventName == "add"
    ensures var o := Exec(m, eventName, sourcePath, targetPath, renamedToTargetPath);
      var copies := sourcePath in m && m[sourcePath].File? &&
        (targetPath !in m || (m[targetPath].File? && m[targetPath].content != m[sourcePath].content));
      (o.result == Returned(true) <==> copies) &&
      (o.result == Returned(true) ==>
         o.entries == m[targetPath := m[sourcePath]] && o.entries[targetPath] == File(m[sourcePath].content))
  {
  }

  /** A copy that happened, repeated with the source unchanged, does nothing and returns false. */
  lemma CopyIdempotent(m: map<string, Node>, eventName: string, sourcePath: string, targetPath: string,
                       renamedToTargetPath: Option<string>)
    requires eventName == "change" || eventName == "add"
    requires Exec(m, eventName, sourcePath, targetPath, renamedToTargetPath).result == Returned(true)
    ensures var m1 := Exec(m, eventName, sourcePath, targetPath, renamedToTargetPath).entries;
      Exec(m1, eventName, sourcePath, targetPath, renamedToTargetPath) == Outcome(Returned(false), m1)
  {
  }

  /** Only paths at or below the target, or at or below the rename destination, can change. */
  lemma OnlyTargetTreesChange(m: map<string, Node>, eventName: string, sourcePath: string, targetPath: string,
                              renamedToTargetPath: Option<string>, k: string)
    requires !InTree(k, targetPath)
    requires renamedToTargetPath.Some? ==> !InTree(k, renamedToTargetPath.value)
    ensures var m1 := Exec(m, eventName, sourcePath, targetPath, renamedToTargetPath).entries;
      (k in m1 <==> k in m) && (k in m ==> m1[k] == m[k])
  {
    if renamedToTargetPath.Some? {
      MovedAt(m, targetPath, renamedToTargetPath.value, k);
    }
  }

  /** `unlink` removes an existing file and nothing else; a directory makes it throw. */
  lemma UnlinkRemovesFile(m: map<string, Node>, sourcePath: string, targetPath: string,
                          renamedToTargetPath: Option<string>)
    ensures var o := Exec(m, "unlink", sourcePath, targetPath, renamedToTargetPath);
      (o.result == Returned(true) <==> targetPath in m && m[targetPath].File?) &&
      (o.result == Returned(true) ==> targetPath !in o.entries && o.entries == m - {targetPath}) &&
      (o.result.Threw? <==> targetPath in m && m[targetPath].Dir?)
  {
  }

  /** `addDir` creates the directory exactly when nothing is at the path. */
  lemma AddDirCreatesMissing(m: map<string, Node>, sourcePath: string, targetPath: string,
                             renamedToTargetPath: Option<string>)
    ensures var o := Exec(m, "addDir", sourcePath, targetPath, renamedToTargetPath);
      (o.result == Returned(true) <==> targetPath !in m) &&
      (o.result != Returned(true) ==> o.entries == m) &&
      (o.result == Returned(true) ==> o.entries == m[targetPath := Dir])
  {
  }

  /** `unlinkDir` removes an existing path and everything below it and returns
      true; on a missing path it returns false and changes nothing. It never throws. */
  lemma UnlinkDirRemovesTree(m: map<string, Node>, sourcePath: string, targetPath: string,
                             renamedToTargetPath: Option<string>)
    ensures var o := Exec(m, "unlinkDir", sourcePath, targetPath, renamedToTargetPath);
      (o.result == Returned(true) <==> targetPath in m) &&
      !o.result.Threw? &&
      o.entries == if targetPath in m then RemoveTree(m, targetPath) else m
  {
  }

  /** `rename`/`renameDir` return true exactly for an existing target renamed to
      itself, or to a place outside its own tree that is free or holds a file the
      target file replaces; the tree is then moved. A missing target returns false
      and changes nothing; a missing destination or one inside the target's tree
      is an invalid argument; any other occupied destination already exists. */
  lemma RenameOutcome(m: map<string, Node>, eventName: string, sourcePath: string, t: string,
                      renamedToTargetPath: Option<string>)
    requires eventName == "rename" || eventName == "renameDir"
    ensures var o := Exec(m, eventName, sourcePath, t, renamedToTargetPath);
      var r := renamedToTargetPath;
      (t !in m ==> o == Outcome(Returned(false), m)) &&
      (o.result == Returned(true) <==>
         t in m && r.Some? && (r.value == t || (!InTree(r.value, t) && (r.value !in m || (m[r.value].File? && m[t].File?))))) &&
      (t in m && r == Some(t) ==> o == Outcome(Returned(true), m)) &&
      (o.result == Returned(true) && r.Some? && r.value != t ==> o.entries == Moved(m, t, r.value)) &&
      (o.result == Threw(InvalidArgument) <==> t in m && (r.None? || (r.value != t && InTree(r.value, t)))) &&
      (o.result == Threw(DestinationExists) <==>
         t in m && r.Some? && r.value != t && !InTree(r.value, t) && r.value in m && !(m[r.value].File? && m[t].File?))
  {
  }

  /** An event the applier does not know returns false and changes nothing. */
  lemma UnknownEventIgnored(m: map<string, Node>, eventName: string, sourcePath: string, targetPath: string,
                            renamedToTargetPath: Option<string>)
    requires eventName !in ["change", "add", "unlink", "rename", "renameDir", "addDir", "unlinkDir"]
    ensures Exec(m, eventName, sourcePath, targetPath, renamedToTargetPath) == Outcome(Returned(false), m)
  {
  }

  /** Renaming an existing entry to a free place outside its own tree, then back,
      restores the tree; both calls return true. */
  lemma RenameRoundTrip(m: map<string, Node>, eventName: string, sourcePath: string, t: string, d: string)
    requires eventName == "rename" || eventName == "renameDir"
    requires t in m && d != t && !InTree(d, t)
    requires forall k | k in m :: !InTree(k, d)
    ensures var o := Exec(m, eventName, sourcePath, t, Some(d));
      o == Outcome(Returned(true), Moved(m, t, d)) &&
      Exec(o.entries, eventName, sourcePath, d, Some(t)) == Outcome(Returned(true), m)
  {
    assert d[..|d|] == d;
    assert InTree(d, d);
    assert d !in m;
    assert Exec(m, eventName, sourcePath, t, Some(d)) == Outcome(Returned(true), Moved(m, t, d));
    var m1 := Moved(m, t, d);
    MovedRelocates(m, t, d, t);
    assert t[|t|..] == [];
    assert d + [] == d;
    assert d in m1;
    assert !InTree(t, d);
    MovedAt(m, t, d, t);
    assert t !in m1;
    MovedBack(m, t, d);
  }

  /** The file tree on the receiving side of the synchronisation. */
  class FileSystem {
    var entries: map<string, Node>

    constructor (initial: map<string, Node>)
      ensures entries == initial
    {
      entries := initial;
    }

    /** `fs.existsSync`. */
    function Exists(p: string): bool
      reads this
    {
      p in entries
    }

    /** `fileHash`: the content of a file stands for its digest; reading a
        directory throws, which is `None` here. */
    method FileHash(p: string) returns (digest: Option<seq<byte>>)
      requires p in entries
      ensures digest == if entries[p].File? then Some(entries[p].content) else None
    {
      match entries[p]
      case File(c) => digest := Some(c);
      case Dir => digest := None;
    }

    /** `fs.cpSync` of a file. */
    method CopyFile(source: string, target: string)
      requires source in entries && entries[source].File?
      modifies this
      ensures entries == old(entries)[target := old(entries)[source]]
    {
      entries := entries[target := entries[source]];
    }

    /** `fs.unlinkSync` of a file. */
    method Unlink(p: string)
      modifies this
      ensures entries == old(entries) - {p}
    {
      entries := entries - {p};
    }

    /** `fs.renameSync` once its checks have passed. */
    method Rename(t: string, d: string)
      modifies this
      ensures entries == Moved(old(entries), t, d)
    {
      entries := Moved(entries, t, d);
    }

    /** `fs.mkdirSync`. */
    method MakeDirectory(p: string)
      modifies this
      ensures entries == old(entries)[p := Dir]
    {
      entries := entries[p := Dir];
    }

    /** `fs.rmSync` with `recursive` and `force`. */
    method RemoveRecursive(p: string)
      modifies this
      ensures entries == RemoveTree(old(entries), p)
    {
      entries := RemoveTree(entries, p);
    }

    /** `execEventCommand`: applies one event and says whether it changed the tree. */
    method ExecEventCommand(eventName: string, sourcePath: string, targetPath: string,
                            renamedToTargetPath: Option<string>) returns (r: ExecResult)
      modifies this
      ensures Outcome(r, entries) == Exec(old(entries), eventName, sourcePath, targetPath, renamedToTargetPath)
    {
      if eventName == "change" || eventName == "add" {
        if Exists(sourcePath) {
          var targetHash: Option<seq<byte>> := None;
          if Exists(targetPath) {
            targetHash := FileHash(targetPath);
            if targetHash.None? {
              return Threw(IsADirectory);
            }
          }
          if targetHash.None? {
            // `cpSync` without `recursive` refuses to copy a directory
            if entries[sourcePath].Dir? {
              return Threw(IsADirectory);
            }
            CopyFile(sourcePath, targetPath);
            return Returned(true);
          }
          var sourceHash := FileHash(sourcePath);
          if sourceHash.None? {
            return Threw(IsADirectory);
          }
          if sourceHash != targetHash {
            CopyFile(sourcePath, targetPath);
            return Returned(true);
          }
        }
      } else if eventName == "unlink" {
        if Exists(targetPath) {
          if entries[targetPath].Dir? {
            return Threw(IsADirectory);
          }
          Unlink(targetPath);
          return Returned(true);
        }
      } else if eventName == "rename" || eventName == "renameDir" {
        if Exists(targetPath) {
          if renamedToTargetPath.None? {
            return Threw(InvalidArgument);
          }
          var d := renamedToTargetPath.value;
          if d != targetPath {
            if InTree(d, targetPath) {
              return Threw(InvalidArgument);
            }
            if d in entries && !(entries[d].File? && entries[targetPath].File?) {
              return Threw(DestinationExists);
            }
            Rename(targetPath, d);
          }
          return Returned(true);
        }
      } else if eventName == "addDir" {
        if !Exists(targetPath) {
          MakeDirectory(targetPath);
          return Returned(true);
        }
      } else if eventName == "unlinkDir" {
        if Exists(targetPath) {
          RemoveRecursive(targetPath);
          return Returned(true);
        }
      }
      return Returned(false);
    }
  }
}
